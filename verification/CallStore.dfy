/**
 * The scripts run statement by statement on the Redis keys they touch: one hash
 * per call, one result stream per call, the deadline index, one index per
 * provider lease, the membership hash, the catalog and the request streams
 * (registry/call_admission.go, call_decision.go, bounded_publish.go). Each
 * method is proved to be one step of CallProtocol, so the theorems about runs
 * hold of the stored keys. SweepStore runs the sweep loops on this store.
 */
module CallStore {
  import opened Basics
  import opened StreamIds
  import Catalog
  import RequestStream
  import CatalogStore
  import opened Records
  import opened CallProtocol
  import opened Settlement
  import Sweeps

  datatype Settling = Drop | Keep(score: nat) | Finish(early: bool)

  function Lookup<V>(m: map<string, V>, key: string): Option<V> {
    if key in m then Some(m[key]) else None
  }

  /** The lease indexes that list a call. */
  function Listing(index: map<Owner, set<string>>, key: string): set<Owner> {
    set o | o in index && key in index[o]
  }

  /** The keys of a sorted set from the least score up. */
  method ByScore(scores: map<string, nat>, members: set<string>) returns (keys: seq<string>)
    requires members <= scores.Keys
    ensures Distinct(keys) && forall k :: k in keys <==> k in members
    ensures forall i, j :: 0 <= i < j < |keys| ==> scores[keys[i]] <= scores[keys[j]]
  {
    var rest := members;
    keys := [];
    while rest != {}
      invariant rest <= members && Distinct(keys)
      invariant forall k :: k in members <==> k in keys || k in rest
      invariant forall i :: 0 <= i < |keys| ==> keys[i] in members && keys[i] !in rest
      invariant forall i, j :: 0 <= i < j < |keys| ==> scores[keys[i]] <= scores[keys[j]]
      invariant forall i, k :: 0 <= i < |keys| && k in rest ==> scores[keys[i]] <= scores[k]
      decreases |rest|
    {
      var next := Least(scores, rest);
      keys, rest := keys + [next], rest - {next};
    }
  }

  method Least(scores: map<string, nat>, members: set<string>) returns (first: string)
    requires members != {} && members <= scores.Keys
    ensures first in members && forall k :: k in members ==> scores[first] <= scores[k]
  {
    first :| first in members;
    var rest := members - {first};
    while rest != {}
      invariant first in members && rest <= members
      invariant forall k :: k in members && k !in rest ==> scores[first] <= scores[k]
      decreases |rest|
    {
      var next :| next in rest;
      if scores[next] < scores[first] {
        first := next;
      }
      rest := rest - {next};
    }
  }

  class Store {
    var now: nat
    var catalog: map<string, Catalog.Entry>
    var records: map<string, Record>
    var results: map<string, Results>
    var deadlines: map<string, nat>
    var membership: map<string, Owner>
    var leaseIndex: map<Owner, set<string>>
    var streams: map<string, RequestStream.Stream>
    /** The protocol state these keys represent. */
    ghost var world: World

    function CallAt(key: string): Call
      reads this
    {
      Call(Lookup(records, key), if key in results then results[key] else NO_RESULTS,
           Lookup(deadlines, key), Lookup(membership, key),
           Listing(leaseIndex, key))
    }

    ghost predicate Valid()
      reads this
    {
      && now == world.now && catalog == world.catalog && streams == world.requests
      && forall k :: CallAt(k) == CallOf(world, k)
    }

    constructor ()
      ensures Valid() && world == INITIAL
    {
      now, catalog, records, results := 0, map[], map[], map[];
      deadlines, membership, leaseIndex, streams := map[], map[], map[], map[];
      world := INITIAL;
    }

    /** Names the step a script is about to take; the script then makes the keys follow. */
    ghost method Begin(key: string, op: CallOp)
      requires Valid()
      modifies this`world
      ensures world == Apply(old(world), On(key, op))
      ensures CallAt(key) == CallOf(old(world), key) && CallOf(world, key) == ApplyOn(old(world), key, op)
      ensures forall k :: k != key ==> CallOf(world, k) == CallAt(k)
    {
      assert forall k :: CallAt(k) == CallOf(world, k);
      ghost var before := world;
      world := Apply(world, On(key, op));
      assert forall k :: k != key ==> CallOf(world, k) == CallOf(before, k);
      assert forall k :: CallAt(k) == old(CallAt(k));
    }

    /** A step on the clock, the catalog or a request stream leaves every call as it is. */
    ghost method SkipCalls(op: Op)
      requires !op.On? && forall k :: CallAt(k) == CallOf(world, k)
      modifies this`world
      ensures world == Apply(old(world), op) && forall k :: CallAt(k) == CallOf(world, k)
    {
      assert forall k :: CallOf(Apply(world, op), k) == CallOf(world, k);
      world := Apply(world, op);
      assert forall k :: CallAt(k) == old(CallAt(k));
    }

    // -------------------------------------------------------------------
    // Redis commands
    // -------------------------------------------------------------------

    method HSet(key: string, r: Record)
      modifies this`records
      ensures forall k :: CallAt(k) == if k == key then SetRecord(old(CallAt(k)), r) else old(CallAt(k))
    {
      records := records[key := r];
    }

    method XAdd(key: string, content: Content) returns (id: Id)
      modifies this`results
      ensures id == NextId(old(CallAt(key)).results.last, now)
      ensures forall k :: CallAt(k) == if k == key then AppendResult(old(CallAt(k)), now, content) else old(CallAt(k))
    {
      var s := if key in results then results[key] else NO_RESULTS;
      results := results[key := Push(s, now, content)];
      id := results[key].last;
    }

    method ZAddDeadline(key: string, score: nat)
      modifies this`deadlines
      ensures forall k :: CallAt(k) == if k == key then old(CallAt(k)).(due := Some(score)) else old(CallAt(k))
    {
      deadlines := deadlines[key := score];
    }

    method ZAddLease(owner: Owner, key: string)
      modifies this`leaseIndex
      ensures forall k :: CallAt(k) ==
                if k == key then old(CallAt(k)).(listed := old(CallAt(k)).listed + {owner}) else old(CallAt(k))
    {
      var listed := if owner in leaseIndex then leaseIndex[owner] else {};
      leaseIndex := leaseIndex[owner := listed + {key}];
      assert forall k :: CallAt(k).listed == old(CallAt(k)).listed + (if k == key then {owner} else {});
    }

    method ZRemLease(owner: Owner, key: string)
      modifies this`leaseIndex
      ensures forall k :: CallAt(k) ==
                if k == key then old(CallAt(k)).(listed := old(CallAt(k)).listed - {owner}) else old(CallAt(k))
    {
      if owner in leaseIndex {
        leaseIndex := leaseIndex[owner := leaseIndex[owner] - {key}];
      }
      assert forall k :: CallAt(k).listed == old(CallAt(k)).listed - (if k == key then {owner} else {});
    }

    method HSetMember(key: string, owner: Owner)
      modifies this`membership
      ensures forall k :: CallAt(k) == if k == key then old(CallAt(k)).(member := Some(owner)) else old(CallAt(k))
    {
      membership := membership[key := owner];
    }

    /** ZREM from the deadline index and HDEL from the membership hash. */
    method RemoveMember(key: string)
      modifies this`deadlines, this`membership
      ensures forall k :: CallAt(k) == if k == key then Unlist(old(CallAt(k))) else old(CallAt(k))
    {
      deadlines := deadlines - {key};
      membership := membership - {key};
    }

    /** The ZREM, ZREM, HDEL sequence that takes a call out of all three indexes. */
    method RemoveIndexes(key: string, owner: Owner)
      modifies this`deadlines, this`leaseIndex, this`membership
      ensures forall k :: CallAt(k) == if k == key then Unindex(old(CallAt(k)), owner) else old(CallAt(k))
    {
      RemoveMember(key);
      ZRemLease(owner, key);
    }

    /** XADD of a terminal result followed by HSET of the five terminal fields. */
    method CommitTerminal(key: string, cause: Cause, payload: Payload, digest: Digest)
      requires key in records && records[key].Admitted?
      modifies this`results, this`records
      ensures forall k :: CallAt(k) ==
                if k == key then Commit(old(CallAt(k)), now, cause, payload, digest) else old(CallAt(k))
    {
      var id := XAdd(key, Message(payload));
      HSet(key, records[key].(terminal := true, terminalEvent := Some(id), terminalDigest := Some(digest),
                              terminalPayload := Some(payload), terminalCause := Some(cause)));
    }

    /** Commits a terminal result and takes the call out of all three indexes. */
    method FinishCall(key: string, cause: Cause, payload: Payload, digest: Digest, owner: Owner)
      requires key in records && records[key].Admitted?
      modifies this`results, this`records, this`deadlines, this`leaseIndex, this`membership
      ensures forall k :: CallAt(k) ==
                if k == key then Unindex(Commit(old(CallAt(k)), now, cause, payload, digest), owner) else old(CallAt(k))
      ensures HoldsTerminal(key, cause, payload, digest)
    {
      CommitTerminal(key, cause, payload, digest);
      RemoveIndexes(key, owner);
      assert CallAt(key).record == Lookup(records, key);
    }

    /** Commits the stale result of a call nobody claimed. */
    method FinishStale(key: string)
      requires key in records && records[key].Admitted?
      modifies this`results, this`records, this`deadlines, this`membership
      ensures forall k :: CallAt(k) == if k == key then Unlist(CommitStale(old(CallAt(k)), now, key)) else old(CallAt(k))
    {
      var stale := StalePayload(records[key].token, key);
      CommitTerminal(key, StaleAdmission, stale, Sha256(stale));
      RemoveMember(key);
    }

    /** HSET of the four dispatch fields, then ZADD, ZADD and HSET into the indexes. */
    method RecordDispatch(key: string, owner: Owner, request: Id, expiry: nat)
      requires key in records && records[key].Admitted?
      modifies this`records, this`deadlines, this`leaseIndex, this`membership
      ensures forall k :: k != key ==> CallAt(k) == old(CallAt(k))
      ensures var r := old(records[key]);
              CallAt(key) == Call(Some(r.(dispatchToken := Some(owner.token), dispatchLease := Some(owner.lease),
                                          dispatchRequest := Some(request), dispatchExpires := Some(expiry))),
                                  old(CallAt(key)).results, Some(Min(r.deadline, expiry)), Some(owner),
                                  old(CallAt(key)).listed + {owner})
    {
      var r := records[key];
      HSet(key, r.(dispatchToken := Some(owner.token), dispatchLease := Some(owner.lease),
                   dispatchRequest := Some(request), dispatchExpires := Some(expiry)));
      ZAddDeadline(key, Min(r.deadline, expiry));
      ZAddLease(owner, key);
      HSetMember(key, owner);
    }

    /** The exact lease, if the catalog entry of this generation holds it unexpired. */
    method ReadLease(toolset: string, token: Catalog.Token, lease: string) returns (l: Option<Catalog.Lease>)
      requires Valid()
      ensures l.Some? <==> LeaseLive(world, toolset, token, lease)
      ensures l.Some? ==> l.value == catalog[toolset].leases[lease]
    {
      if toolset !in catalog {
        return None;
      }
      var entry := catalog[toolset];
      if entry.token != token {
        return None;
      }
      if lease !in entry.leases || entry.leases[lease].expiresAt <= now {
        return None;
      }
      l := Some(entry.leases[lease]);
    }

    // -------------------------------------------------------------------
    // Decisions
    // -------------------------------------------------------------------

    method Ensure(key: string, digest: CallDigest, token: Catalog.Token, timeout: nat, ttl: nat)
      returns (reply: EnsureReply)
      requires Valid()
      modifies this
      ensures Valid() && world == Apply(old(world), On(key, EnsureOp(digest, token, timeout, ttl)))
      ensures reply == EnsureReplyOf(CallOf(old(world), key), digest)
    {
      Begin(key, EnsureOp(digest, token, timeout, ttl));
      if key !in records {
        HSet(key, NewRecord(key, digest, token, now + timeout, now + ttl));
        return Created;
      }
      if records[key].digest != digest {
        return EnsureConflict;
      }
      if records[key].Rejected? {
        return EnsureRejected;
      }
      if !records[key].published && !records[key].terminal {
        HSet(key, records[key].(token := token, outcomeUnknown := UnknownPayload(token, key)));
      }
      reply := Existing;
    }

    method Reject(key: string, digest: CallDigest, kind: RejectionKind, message: string, ttl: nat)
      returns (reply: RejectReply)
      requires Valid()
      modifies this
      ensures Valid() && world == Apply(old(world), On(key, RejectOp(digest, kind, message, ttl)))
      ensures reply == RejectReplyOf(CallOf(old(world), key), digest, kind, message)
    {
      Begin(key, RejectOp(digest, kind, message, ttl));
      if key in records {
        if records[key].digest != digest {
          return RejectConflict;
        }
        if records[key].Rejected? {
          return RejectStored(records[key].kind, records[key].message);
        }
        if records[key].published || records[key].terminal {
          return PublishedFirst;
        }
      }
      HSet(key, Rejected(digest, kind, message, now + ttl));
      reply := RejectStored(kind, message);
    }

    // -------------------------------------------------------------------
    // Publication
    // -------------------------------------------------------------------

    /**
     * The bounded append (registry/bounded_publish.go:99-169). A zero bound
     * skips the backlog check. `reclaimed` is what approximate trimming happens
     * to remove below the bound.
     */
    method AppendRequest(toolset: string, bound: nat, call: bool, reclaimed: set<Id>) returns (id: Option<Id>)
      modifies this`streams
      ensures var s := if toolset in old(streams) then old(streams)[toolset] else RequestStream.EMPTY;
              && (id.None? <==> RequestStream.Full(s, bound))
              && (id.None? ==> streams == old(streams))
              && (id.Some? ==> id.value == NextId(s.last, now))
              && (id.Some? ==> streams == old(streams)[toolset := RequestStream.Append(s, call, now, reclaimed)])
    {
      var s := if toolset in streams then streams[toolset] else RequestStream.EMPTY;
      if bound > 0 {
        var backlog := RequestStream.MeasureBacklog(s, bound);
        if backlog >= bound {
          return None;
        }
      }
      var next := NextId(s.last, now);
      var trim := RequestStream.FindTrimId(s.groups);
      s := s.(items := s.items + [RequestStream.Item(next, call)], last := next);
      if trim.Some? {
        s := s.(items := RequestStream.Trim(s.items, trim, reclaimed));
      } else {
        RequestStream.NoTrim(s.items, reclaimed);
      }
      streams := streams[toolset := s];
      id := Some(next);
    }

    /** Health pings pass without a bound. */
    method PublishPing(toolset: string, reclaimed: set<Id>) returns (id: Id)
      requires Valid()
      modifies this
      ensures Valid() && world == Apply(old(world), StreamOp(toolset, RequestStream.Ping(old(now), reclaimed)))
      ensures id == NextId(StreamOf(old(world), toolset).last, old(now))
    {
      var appended := AppendRequest(toolset, 0, false, reclaimed);
      assert forall k :: CallAt(k) == CallOf(world, k) by {
        assert forall k :: CallAt(k) == old(CallAt(k));
      }
      SkipCalls(StreamOp(toolset, RequestStream.Ping(now, reclaimed)));
      id := appended.value;
    }

    /** The tests before the append (registry/bounded_publish.go:56-98): an answer, or None to go on. */
    method CheckPublication(a: Attempt) returns (reply: Option<PublishReply>)
      requires Valid()
      ensures reply.Some? ==> reply.value == PublishReplyOf(world, a) && !reply.value.Appended? && !reply.value.QueueFull?
      ensures reply.None? ==> a.key in records && Assigned(CallAt(a.key), a.digest, a.token)
      ensures reply.None? ==>
                PublishReplyOf(world, a) ==
                if RequestStream.Full(StreamOf(world, a.digest.toolset), MAX_QUEUED_CALLS) then QueueFull
                else Appended(NextId(StreamOf(world, a.digest.toolset).last, now))
    {
      assert CallAt(a.key) == CallOf(world, a.key);
      if !(a.key in records && records[a.key].Admitted? && records[a.key].digest == a.digest && records[a.key].token == a.token) {
        return Some(Changed);
      }
      var r := records[a.key];
      if r.terminal {
        return Some(Already(r.terminalEvent));
      }
      if (a.overload.None? && r.published) || (a.overload.Some? && r.overload == a.overload) {
        return Some(Already(r.publication));
      }
      if r.deadline <= now {
        return Some(Changed);
      }
      if a.digest.toolset !in catalog {
        return Some(Unroutable);
      }
      var entry := catalog[a.digest.toolset];
      if entry.state != Catalog.Active || entry.token != a.token {
        return Some(Unroutable);
      }
      var count := CatalogStore.CountRoutable(entry, now);
      reply := if count == 0 then Some(Unroutable) else None;
    }

    /** Publishes one initial or overload attempt (registry/bounded_publish.go:56-180). */
    method PublishAdmitted(a: Attempt, reclaimed: set<Id>) returns (reply: PublishReply)
      requires Valid()
      modifies this
      ensures Valid() && world == Apply(old(world), On(a.key, PublishOp(a.digest, a.token, a.overload, reclaimed)))
      ensures reply == PublishReplyOf(old(world), a)
    {
      var checked := CheckPublication(a);
      Begin(a.key, PublishOp(a.digest, a.token, a.overload, reclaimed));
      if checked.Some? {
        return checked.value;
      }
      var id := AppendRequest(a.digest.toolset, MAX_QUEUED_CALLS, true, reclaimed);
      if id.None? {
        return QueueFull;
      }
      var r := records[a.key];
      HSet(a.key, r.(published := true, overload := a.overload, publication := id, claims := r.claims + {id.value}));
      reply := Appended(id.value);
    }

    // -------------------------------------------------------------------
    // Result streams
    // -------------------------------------------------------------------

    method InitializeResultStream(key: string, digest: CallDigest) returns (reply: InitReply)
      requires Valid()
      modifies this
      ensures Valid() && world == Apply(old(world), On(key, InitOp(digest)))
      ensures reply == InitReplyOf(CallOf(old(world), key), old(now), digest)
      ensures reply == Started <==> Initializes(CallOf(old(world), key), old(now), digest)
    {
      Begin(key, InitOp(digest));
      if key !in records || records[key].digest != digest {
        return InitChanged;
      }
      if (records[key].Admitted? && records[key].terminal) || (key in results && results[key].events != []) {
        return AlreadyStarted;
      }
      if records[key].Rejected? || records[key].expiresAt <= now {
        return InitChanged;
      }
      var _ := XAdd(key, InitMark);
      reply := Started;
    }

    method RestoreTerminal(key: string) returns (reply: RestoreReply)
      requires Valid()
      modifies this
      ensures Valid() && world == Apply(old(world), On(key, RestoreOp))
      ensures reply == RestoreReplyOf(CallOf(old(world), key), old(now))
      ensures reply == Restored <==> LostTerminal(CallOf(old(world), key), old(now))
    {
      Begin(key, RestoreOp);
      if key !in records || records[key].Rejected? || !records[key].terminal {
        return NothingLost;
      }
      var r := records[key];
      if r.terminalPayload.None? {
        return PayloadMissing;
      }
      var s := if key in results then results[key] else NO_RESULTS;
      if r.terminalEvent.Some? && HasEvent(s, r.terminalEvent.value) {
        return NothingLost;
      }
      if r.expiresAt <= now {
        return RestoreChanged;
      }
      var id := XAdd(key, Message(r.terminalPayload.value));
      HSet(key, r.(terminalEvent := Some(id)));
      reply := Restored;
    }

    // -------------------------------------------------------------------
    // Providers
    // -------------------------------------------------------------------

    /** The claim's tests; `stale` tells a call of another generation that gets its result now. */
    method CheckClaim(p: Provider) returns (reply: ClaimReply, stale: bool, expiry: nat)
      requires Valid()
      ensures reply == ClaimReplyOf(world, p)
      ensures reply == Execute <==> GrantsExecution(world, p)
      ensures stale <==> FindsStale(world, p)
      ensures reply == Execute || stale ==> p.key in records && records[p.key].Admitted? && records[p.key].token == p.callToken
      ensures reply == Execute ==> expiry == catalog[p.toolset].leases[p.lease].expiresAt
    {
      assert CallAt(p.key) == CallOf(world, p.key);
      stale, expiry := false, 0;
      var lease := ReadLease(p.toolset, p.providerToken, p.lease);
      if lease.None? {
        return LeaseChanged, false, 0;
      }
      if p.key !in records {
        return Expired, false, 0;
      }
      var r := records[p.key];
      if r.Rejected? || r.toolUse != p.key || r.token != p.callToken {
        return AdmissionChanged, false, 0;
      }
      if p.request !in r.claims {
        return ClaimChanged, false, 0;
      }
      if r.terminal {
        return AlreadyTerminal, false, 0;
      }
      if r.deadline <= now {
        return Expired, false, 0;
      }
      if r.dispatchToken.Some? {
        return AlreadyClaimed, false, 0;
      }
      if p.callToken != p.providerToken {
        return AlreadyTerminal, true, 0;
      }
      return Execute, false, lease.value.expiresAt;
    }

    method Claim(p: Provider) returns (reply: ClaimReply)
      requires Valid()
      modifies this
      ensures Valid() && world == Apply(old(world), On(p.key, ClaimOp(p)))
      ensures reply == ClaimReplyOf(old(world), p)
    {
      var stale, expiry;
      reply, stale, expiry := CheckClaim(p);
      Begin(p.key, ClaimOp(p));
      if stale {
        FinishStale(p.key);
      } else if reply == Execute {
        RecordDispatch(p.key, Owner(p.providerToken, p.lease), p.request, expiry);
      }
    }

    method CheckCompletion(p: Provider, payload: Payload) returns (reply: CompleteReply, commits: bool)
      requires Valid()
      ensures reply == CompleteReplyOf(world, p, payload)
      ensures commits ==> p.key in records && Authorized(world, p) && !records[p.key].terminal
      ensures commits ==> (reply == Committed || reply == DeadlineWon) && (reply == Committed <==> BeforeDeadline(CallAt(p.key), now))
      ensures !commits ==> !(Authorized(world, p) && !CallOf(world, p.key).record.value.terminal)
    {
      assert CallAt(p.key) == CallOf(world, p.key);
      commits := false;
      if p.key !in records || records[p.key].Rejected? || records[p.key].toolUse != p.key || records[p.key].token != p.callToken {
        return CompleteAdmissionChanged, false;
      }
      var r := records[p.key];
      var lease := ReadLease(p.toolset, p.providerToken, p.lease);
      if lease.None? {
        return CompleteLeaseChanged, false;
      }
      if p.request !in r.claims {
        return CompleteClaimChanged, false;
      }
      if r.expiresAt <= now {
        return CompleteAdmissionChanged, false;
      }
      if r.dispatchToken != Some(p.providerToken) || r.dispatchLease != Some(p.lease) || r.dispatchRequest != Some(p.request) {
        return DispatchChanged, false;
      }
      if r.terminal {
        if r.terminalCause == Some(ExecutionDeadline) {
          return DeadlineWon, false;
        }
        return if r.terminalDigest != Some(Sha256(payload)) then TerminalConflict else Replayed, false;
      }
      return if r.deadline <= now then DeadlineWon else Committed, true;
    }

    method Complete(p: Provider, payload: Payload) returns (reply: CompleteReply)
      requires Valid()
      modifies this
      ensures Valid() && world == Apply(old(world), On(p.key, CompleteOp(p, payload)))
      ensures reply == CompleteReplyOf(old(world), p, payload)
      ensures reply == Committed ==> HoldsTerminal(p.key, ProviderResult, payload, Sha256(payload))
    {
      var commits;
      reply, commits := CheckCompletion(p, payload);
      Begin(p.key, CompleteOp(p, payload));
      if commits {
        StoreResult(p, payload, reply == DeadlineWon);
      }
    }

    /** Commits the submitted result or, after the deadline, the retained one. */
    method StoreResult(p: Provider, payload: Payload, late: bool)
      requires p.key in records && records[p.key].Admitted?
      modifies this`results, this`records, this`deadlines, this`leaseIndex, this`membership
      ensures forall k :: CallAt(k) ==
                if k != p.key then old(CallAt(k))
                else Unindex(if late then CommitUnknown(old(CallAt(k)), now, ExecutionDeadline)
                             else Commit(old(CallAt(k)), now, ProviderResult, payload, Sha256(payload)),
                             Owner(p.providerToken, p.lease))
      ensures !late ==> HoldsTerminal(p.key, ProviderResult, payload, Sha256(payload))
    {
      var owner := Owner(p.providerToken, p.lease);
      if late {
        var unknown := records[p.key].outcomeUnknown;
        FinishCall(p.key, ExecutionDeadline, unknown, Sha1(unknown), owner);
      } else {
        FinishCall(p.key, ProviderResult, payload, Sha256(payload), owner);
      }
    }

    /** The stored record and the newest event of the stored stream carry this result. */
    predicate HoldsTerminal(key: string, cause: Cause, payload: Payload, digest: Digest)
      reads this
    {
      && key in records && records[key].Admitted? && records[key].terminal
      && records[key].terminalPayload == Some(payload) && records[key].terminalDigest == Some(digest)
      && records[key].terminalCause == Some(cause)
      && key in results && results[key].events != []
      && results[key].events[|results[key].events| - 1].content == Message(payload)
      && records[key].terminalEvent == Some(results[key].events[|results[key].events| - 1].id)
    }

    method CheckLive(p: Provider) returns (reply: LiveReply)
      requires Valid()
      ensures reply == LiveReplyOf(world, p)
      ensures reply == Delivered <==> AcceptsDelta(world, p)
      ensures reply == Delivered ==> p.key in records && records[p.key].Admitted?
    {
      assert CallAt(p.key) == CallOf(world, p.key);
      if p.key !in records || records[p.key].Rejected? || records[p.key].toolUse != p.key || records[p.key].token != p.callToken {
        return LiveAdmissionChanged;
      }
      var r := records[p.key];
      var lease := ReadLease(p.toolset, p.providerToken, p.lease);
      if lease.None? {
        return LiveLeaseChanged;
      }
      if p.request !in r.claims {
        return LiveClaimChanged;
      }
      if r.expiresAt <= now {
        return LiveAdmissionChanged;
      }
      if r.terminal || r.deadline <= now {
        return Dropped;
      }
      if r.dispatchToken != Some(p.providerToken) || r.dispatchLease != Some(p.lease) || r.dispatchRequest != Some(p.request) {
        return LiveDispatchChanged;
      }
      reply := if r.deltas >= MAX_DELTAS then Dropped else Delivered;
    }

    method PublishLiveEvent(p: Provider, data: string) returns (reply: LiveReply)
      requires Valid()
      modifies this
      ensures Valid() && world == Apply(old(world), On(p.key, LiveOp(p, data)))
      ensures reply == LiveReplyOf(old(world), p)
    {
      reply := CheckLive(p);
      Begin(p.key, LiveOp(p, data));
      if reply == Delivered {
        var _ := XAdd(p.key, Delta(data));
        HSet(p.key, records[p.key].(deltas := records[p.key].deltas + 1));
      }
    }

    /** An overloaded request of an older generation gets the stale result instead of retry control. */
    method RejectOverloaded(key: string, request: Id)
      requires key in records && records[key].Admitted?
      modifies this`results, this`records, this`deadlines, this`membership
      ensures forall k :: k != key ==> CallAt(k) == old(CallAt(k))
      ensures var n := CommitStale(old(CallAt(key)), now, key);
              CallAt(key) == Unlist(SetRecord(n, NoteOverload(n.record.value, request, NextId(old(CallAt(key)).results.last, now))))
    {
      var stale := StalePayload(records[key].token, key);
      var id := XAdd(key, Message(stale));
      HSet(key, records[key].(terminal := true, terminalEvent := Some(id), terminalDigest := Some(Sha256(stale)),
                              terminalPayload := Some(stale), terminalCause := Some(StaleAdmission),
                              overloadRequests := records[key].overloadRequests[request := id]));
      RemoveMember(key);
    }

    method CheckOverload(p: Provider) returns (reply: OverloadReply)
      requires Valid()
      ensures reply == OverloadReplyOf(world, p)
      ensures reply == OverloadReported <==> Overloadable(world, p)
      ensures reply == OverloadReported ==> p.key in records && records[p.key].Admitted? && records[p.key].token == p.callToken
    {
      assert CallAt(p.key) == CallOf(world, p.key);
      var lease := ReadLease(p.toolset, p.providerToken, p.lease);
      if lease.None? {
        return OverloadLeaseChanged;
      }
      if p.key !in records {
        return OverloadIgnored;
      }
      var r := records[p.key];
      if r.Rejected? || r.toolUse != p.key || r.token != p.callToken {
        return OverloadAdmissionChanged;
      }
      if p.request !in r.claims {
        return OverloadClaimChanged;
      }
      if p.request in r.overloadRequests || r.expiresAt <= now || r.deadline <= now || r.terminal || r.dispatchToken.Some? {
        return OverloadIgnored;
      }
      reply := OverloadReported;
    }

    method ReportOverload(p: Provider) returns (reply: OverloadReply)
      requires Valid()
      modifies this
      ensures Valid() && world == Apply(old(world), On(p.key, OverloadOp(p)))
      ensures reply == OverloadReplyOf(old(world), p)
    {
      reply := CheckOverload(p);
      Begin(p.key, OverloadOp(p));
      if reply == OverloadReported {
        if p.callToken != p.providerToken {
          RejectOverloaded(p.key, p.request);
        } else {
          var id := XAdd(p.key, Message(RetryPayload(p.callToken, p.key)));
          HSet(p.key, NoteOverload(records[p.key], p.request, id).(overloadEvent := Some(id), overloadDelay := OVERLOAD_DELAY_MS));
        }
      }
    }

    // -------------------------------------------------------------------
    // Settlement
    // -------------------------------------------------------------------

    /** What the sweep does to one call: drop its entries, move its deadline, or commit a result. */
    method CheckSettlement(key: string) returns (d: Settling)
      requires Valid()
      ensures d.Keep? <==> StillWorking(world, CallOf(world, key))
      ensures d.Keep? ==>
                var r := CallOf(world, key).record.value;
                d.score == Min(r.deadline, catalog[r.field].leases[r.dispatchLease.value].expiresAt)
      ensures d.Finish? <==> Settles(world, CallOf(world, key))
      ensures d.Finish? ==> key in records && (d.early <==> BeforeDeadline(CallOf(world, key), now))
    {
      assert CallAt(key) == CallOf(world, key);
      if key !in records || records[key].Rejected? || records[key].terminal
         || records[key].dispatchToken.None? || records[key].dispatchLease.None? {
        return Drop;
      }
      var r := records[key];
      if now < r.deadline && r.field in catalog {
        var entry := catalog[r.field];
        var lease := Lookup(entry.leases, r.dispatchLease.value);
        if entry.token == r.dispatchToken.value && lease.Some? && lease.value.expiresAt > now {
          return Keep(Min(r.deadline, lease.value.expiresAt));
        }
      }
      d := if r.expiresAt <= now then Drop else Finish(now < r.deadline);
    }

    /** Settles one indexed call; the reply is the number of results committed. */
    method SettleClaim(key: string, index: Owner, cause: Cause) returns (status: nat)
      requires Valid()
      modifies this
      ensures Valid() && world == Apply(old(world), On(key, SettleOp(index, cause)))
      ensures status == if Settles(old(world), CallOf(old(world), key)) then 1 else 0
    {
      var d := CheckSettlement(key);
      Begin(key, SettleOp(index, cause));
      match d {
        case Drop =>
          RemoveIndexes(key, index);
          status := 0;
        case Keep(score) =>
          ZAddDeadline(key, score);
          status := 0;
        case Finish(early) =>
          var unknown := records[key].outcomeUnknown;
          FinishCall(key, if early then LeaseLost else cause, unknown, Sha1(unknown), index);
          status := 1;
      }
    }

    /** Drops every index entry of a call whose record is missing. */
    method CleanupMember(key: string, fallback: Option<Owner>)
      requires Valid()
      modifies this
      ensures Valid() && world == Apply(old(world), On(key, CleanupOp(fallback)))
    {
      Begin(key, CleanupOp(fallback));
      var index := if key in membership then Some(membership[key]) else fallback;
      if index.Some? {
        RemoveIndexes(key, index.value);
      } else {
        RemoveMember(key);
      }
    }

    /** ZRANGE BYSCORE -inf `at`, in full: the calls due by then, earliest first. */
    method ReadDue(at: nat) returns (keys: seq<string>)
      requires Valid()
      ensures Distinct(keys) && forall k :: k in keys <==> Sweeps.DueBy(world, k, at)
      ensures forall i, j :: 0 <= i < j < |keys| ==> Score(world, keys[i]) <= Score(world, keys[j])
    {
      keys := ByScore(deadlines, set k | k in deadlines && deadlines[k] <= at);
      forall k ensures CallOf(world, k).due == Lookup(deadlines, k) {
        assert CallAt(k) == CallOf(world, k);
      }
    }

    /** ZRANGE 0 -1 of one lease index. */
    method ReadLeaseIndex(owner: Owner) returns (keys: seq<string>)
      requires Valid()
      ensures Distinct(keys) && forall k :: k in keys <==> owner in CallOf(world, k).listed
    {
      var rest := if owner in leaseIndex then leaseIndex[owner] else {};
      keys := [];
      while rest != {}
        invariant Distinct(keys)
        invariant forall k :: k in keys || k in rest <==> owner in leaseIndex && k in leaseIndex[owner]
        invariant forall k :: !(k in keys && k in rest)
        decreases |rest|
      {
        var next :| next in rest;
        keys, rest := keys + [next], rest - {next};
      }
      assert forall k :: Listing(leaseIndex, k) == CallAt(k).listed == CallOf(world, k).listed;
    }

    /** One catalog compare-and-swap based on the clock reading `at`. */
    method SwapCatalog(name: string, action: Catalog.Action, at: nat)
      requires Valid()
      modifies this
      ensures Valid() && world == Apply(old(world), CatalogSwap(name, action, at))
    {
      var before := if name in catalog then Some(catalog[name]) else None;
      match Catalog.Step(before, action, at) {
        case None =>
        case Some(e) => catalog := catalog[name := e];
      }
      assert forall k :: CallAt(k) == CallOf(world, k) by {
        assert forall k :: CallAt(k) == old(CallAt(k));
      }
      SkipCalls(CatalogSwap(name, action, at));
    }

    // -------------------------------------------------------------------
    // Whatever anybody does
    // -------------------------------------------------------------------

    method Pass(elapsed: nat)
      requires Valid()
      modifies this
      ensures Valid() && world == Apply(old(world), Tick(elapsed))
    {
      now := now + elapsed;
      assert forall k :: CallAt(k) == CallOf(world, k) by {
        assert forall k :: CallAt(k) == old(CallAt(k));
      }
      SkipCalls(Tick(elapsed));
    }

    method ServeStream(name: string, op: RequestStream.Op)
      requires Valid()
      modifies this
      ensures Valid() && world == Apply(old(world), StreamOp(name, op))
    {
      var s := if name in streams then streams[name] else RequestStream.EMPTY;
      streams := streams[name := RequestStream.Step(s, op, MAX_QUEUED_CALLS)];
      assert forall k :: CallAt(k) == CallOf(world, k) by {
        assert forall k :: CallAt(k) == old(CallAt(k));
      }
      SkipCalls(StreamOp(name, op));
    }

    /** The record and its result stream expire together; the stream's IDs go on increasing. */
    method ExpireRecord(key: string)
      requires Valid()
      modifies this
      ensures Valid() && world == Apply(old(world), On(key, ExpireKey))
    {
      Begin(key, ExpireKey);
      if key in records && records[key].expiresAt <= now {
        records := records - {key};
        if key in results {
          results := results[key := results[key].(events := [])];
        }
      }
    }

    method LoseEvents(key: string, lost: set<Id>)
      requires Valid()
      modifies this
      ensures Valid() && world == Apply(old(world), On(key, LoseResults(lost)))
    {
      Begin(key, LoseResults(lost));
      if key in results {
        results := results[key := Lose(results[key], lost)];
      }
    }

    /** The protocol allows this operation now. */
    predicate Allowed(op: Op)
      reads this
    {
      match op
      case Tick(_) => true
      case CatalogSwap(name, action, at) => at <= now && Catalog.Legal(name, action)
      case StreamOp(_, o) => !o.Call? && (o.Ping? ==> o.now == now)
      case On(key, o) => PossibleOn(CallAt(key), key, o)
    }

    method PerformOn(key: string, op: CallOp)
      requires Valid() && Possible(world, On(key, op))
      modifies this
      ensures Valid() && world == Apply(old(world), On(key, op))
    {
      match op {
        case ExpireKey => ExpireRecord(key);
        case LoseResults(lost) => LoseEvents(key, lost);
        case EnsureOp(digest, token, timeout, ttl) => var _ := Ensure(key, digest, token, timeout, ttl);
        case RejectOp(digest, kind, message, ttl) => var _ := Reject(key, digest, kind, message, ttl);
        case PublishOp(digest, token, overload, reclaimed) =>
          var _ := PublishAdmitted(Attempt(key, digest, token, overload), reclaimed);
        case InitOp(digest) => var _ := InitializeResultStream(key, digest);
        case RestoreOp => var _ := RestoreTerminal(key);
        case ClaimOp(p) => var _ := Claim(p);
        case CompleteOp(p, payload) => var _ := Complete(p, payload);
        case LiveOp(p, data) => var _ := PublishLiveEvent(p, data);
        case OverloadOp(p) => var _ := ReportOverload(p);
        case SettleOp(index, cause) => var _ := SettleClaim(key, index, cause);
        case CleanupOp(fallback) => CleanupMember(key, fallback);
      }
    }

    /** Performs any operation of the protocol on the stored keys. */
    method Perform(op: Op)
      requires Valid() && Possible(world, op)
      modifies this
      ensures Valid() && world == Apply(old(world), op)
    {
      match op {
        case Tick(elapsed) => Pass(elapsed);
        case CatalogSwap(name, action, at) => SwapCatalog(name, action, at);
        case StreamOp(name, o) => ServeStream(name, o);
        case On(key, o) => PerformOn(key, o);
      }
    }
  }
}
