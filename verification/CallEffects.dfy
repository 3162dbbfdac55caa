/**
 * What each script does to a call, stated on the stored fields before and after
 * (registry/call_decision.go:306-402, registry/bounded_publish.go:56-180,
 * registry/call_admission.go:67-453). The guards are spelled out here, so these
 * lemmas say when a script must act, not only what it may do.
 */
module CallEffects {
  import opened Basics
  import opened StreamIds
  import Catalog
  import RequestStream
  import opened Records
  import opened CallProtocol
  import opened CallInvariants
  import opened CallTheorems

  /** The call after one operation on it. */
  function Then(w: World, key: string, op: CallOp): Call {
    CallOf(Apply(w, On(key, op)), key)
  }

  // ---------------------------------------------------------------------
  // Result streams
  // ---------------------------------------------------------------------

  /** The newest event has this content and a later ID; the events before it stay, up to the stream's length. */
  predicate Appends(s: Results, n: Results, content: Content) {
    && Before(s.last, n.last)
    && n.events == (if |s.events| < RESULT_STREAM_MAX_LEN then s.events
                    else s.events[|s.events| + 1 - RESULT_STREAM_MAX_LEN..]) + [Event(n.last, content)]
  }

  lemma PushAppends(s: Results, now: nat, content: Content)
    ensures Appends(s, Push(s, now, content), content)
  {
  }

  lemma InitMarksStream(w: World, key: string, digest: CallDigest)
    requires var c := CallOf(w, key);
             && c.record.Some? && c.record.value.Admitted? && c.record.value.digest == digest
             && w.now < c.record.value.expiresAt && !c.record.value.terminal && c.results.events == []
    ensures var c, n := CallOf(w, key), Then(w, key, InitOp(digest));
            n == c.(results := n.results) && Appends(c.results, n.results, InitMark)
  {
    PushAppends(CallOf(w, key).results, w.now, InitMark);
  }

  // ---------------------------------------------------------------------
  // Decisions
  // ---------------------------------------------------------------------

  /** A new decision: admitted, bound to this token, nothing published, nothing decided. */
  lemma EnsureCreates(w: World, key: string, digest: CallDigest, token: Catalog.Token, timeout: nat, ttl: nat)
    requires CallOf(w, key).record.None?
    ensures EnsureReplyOf(CallOf(w, key), digest) == Created
    ensures var c, n := CallOf(w, key), Then(w, key, EnsureOp(digest, token, timeout, ttl));
            && n == c.(record := n.record) && n.record.Some? && n.record.value.Admitted?
            && var r := n.record.value;
            && r.toolUse == key && r.digest == digest && r.field == digest.toolset && r.token == token
            && r.deadline == w.now + timeout && r.expiresAt == w.now + ttl
            && r.outcomeUnknown == Payload(token, key, OutcomeUnknown)
            && !r.published && !r.terminal && r.dispatchToken.None? && r.claims == {} && r.deltas == 0
  {
  }

  /** An unpublished call moves to the provider at hand; its times do not. Any other call stays as it is. */
  lemma EnsureMovesUnpublished(w: World, key: string, digest: CallDigest, token: Catalog.Token, timeout: nat, ttl: nat)
    requires CallOf(w, key).record.Some?
    ensures var c, n := CallOf(w, key), Then(w, key, EnsureOp(digest, token, timeout, ttl));
            var r := c.record.value;
            if r.digest == digest && r.Admitted? && !r.published && !r.terminal
            then n == c.(record := Some(r.(token := token, outcomeUnknown := Payload(token, key, OutcomeUnknown))))
            else n == c
    ensures var r := CallOf(w, key).record.value;
            EnsureReplyOf(CallOf(w, key), digest) ==
            if r.digest != digest then EnsureConflict else if r.Rejected? then EnsureRejected else Existing
  {
  }

  /** An absent or unpublished call is refused for good; a stored rejection, and a published call, are not. */
  lemma RejectStoresDecision(w: World, key: string, digest: CallDigest, kind: RejectionKind, message: string, ttl: nat)
    ensures var c, n := CallOf(w, key), Then(w, key, RejectOp(digest, kind, message, ttl));
            var reply := RejectReplyOf(c, digest, kind, message);
            && n == c.(record := n.record)
            && match c.record
               case None => n.record == Some(Rejected(digest, kind, message, w.now + ttl)) && reply == RejectStored(kind, message)
               case Some(r) =>
                 if r.digest != digest then n == c && reply == RejectConflict
                 else if r.Rejected? then n == c && reply == RejectStored(r.kind, r.message)
                 else if r.published || r.terminal then n == c && reply == PublishedFirst
                 else n.record == Some(Rejected(digest, kind, message, w.now + ttl)) && reply == RejectStored(kind, message)
  {
  }

  // ---------------------------------------------------------------------
  // Publication
  // ---------------------------------------------------------------------

  /** Some unexpired, non-draining lease of the active generation `token` exists. */
  predicate HasProvider(w: World, toolset: string, token: Catalog.Token) {
    && toolset in w.catalog && w.catalog[toolset].state == Catalog.Active && w.catalog[toolset].token == token
    && exists k :: k in w.catalog[toolset].leases &&
         !w.catalog[toolset].leases[k].draining && w.now < w.catalog[toolset].leases[k].expiresAt
  }

  /** The record carries this assignment, and no attempt under this overload report was made. */
  predicate Awaits(r: Record, digest: CallDigest, token: Catalog.Token, overload: Option<Id>) {
    && r.Admitted? && r.digest == digest && r.token == token && !r.terminal
    && (if overload.None? then !r.published else r.overload != overload)
  }

  /**
   * A publication that finds its assignment, time, a provider and room is
   * appended: the request is in the stream, and the record names it.
   */
  lemma PublishAppends(w: World, key: string, digest: CallDigest, token: Catalog.Token, overload: Option<Id>, reclaimed: set<Id>)
    requires CallOf(w, key).record.Some? && Awaits(CallOf(w, key).record.value, digest, token, overload)
    requires w.now < CallOf(w, key).record.value.deadline && HasProvider(w, digest.toolset, token)
    requires !RequestStream.AtBound(StreamOf(w, digest.toolset), MAX_QUEUED_CALLS)
    requires RequestStream.Inv(StreamOf(w, digest.toolset))
    ensures var c, n := CallOf(w, key), Then(w, key, PublishOp(digest, token, overload, reclaimed));
            var s := StreamOf(Apply(w, On(key, PublishOp(digest, token, overload, reclaimed))), digest.toolset);
            && Before(StreamOf(w, digest.toolset).last, s.last)
            && PublishReplyOf(w, Attempt(key, digest, token, overload)) == Appended(s.last)
            && n == c.(record := Some(c.record.value.(published := true, overload := overload,
                                       publication := Some(s.last), claims := c.record.value.claims + {s.last})))
            && RequestStream.Item(s.last, true) in s.items
  {
    var s := StreamOf(w, digest.toolset);
    RequestStream.CappedCountIsExact(s, MAX_QUEUED_CALLS);
    var all := s.items + [RequestStream.Item(NextId(s.last, w.now), true)];
    RequestStream.AppendSorted(s, true, w.now);
    RequestStream.TrimKeeps(all, RequestStream.TrimId(s.groups), reclaimed);
    FreshIsAboveTrim(s, w.now);
    assert RequestStream.Item(NextId(s.last, w.now), true) in all;
    assert Catalog.Routable(w.catalog[digest.toolset], w.now);
  }

  lemma FreshIsAboveTrim(s: RequestStream.Stream, now: nat)
    requires RequestStream.Inv(s)
    ensures var t := RequestStream.TrimId(s.groups); t.Some? ==> !Before(NextId(s.last, now), t.value)
  {
    if s.groups != [] {
      assert RequestStream.GroupOk(s, s.groups[0]);
      RequestStream.TrimIdIsLeast(s.groups, 0);
      assert s.groups[0].pending != [] ==> s.groups[0].pending[0] in s.groups[0].pending;
    }
  }

  /** Otherwise nothing is published, and the answer says why. */
  lemma PublishLeaves(w: World, key: string, digest: CallDigest, token: Catalog.Token, overload: Option<Id>, reclaimed: set<Id>)
    requires var r := CallOf(w, key).record;
             || r.None? || !Awaits(r.value, digest, token, overload) || r.value.deadline <= w.now
             || !HasProvider(w, digest.toolset, token)
             || RequestStream.AtBound(StreamOf(w, digest.toolset), MAX_QUEUED_CALLS)
    ensures Apply(w, On(key, PublishOp(digest, token, overload, reclaimed))).requests == w.requests
    ensures Then(w, key, PublishOp(digest, token, overload, reclaimed)) == CallOf(w, key)
    ensures var c := CallOf(w, key);
            match PublishReplyOf(w, Attempt(key, digest, token, overload))
            case Appended(_) => false
            case Already(event) =>
              c.record.Some? && c.record.value.Admitted? &&
              event == (if c.record.value.terminal then c.record.value.terminalEvent else c.record.value.publication)
            case Changed => c.record.None? || !c.record.value.Admitted? || c.record.value.digest != digest ||
                            c.record.value.token != token || c.record.value.deadline <= w.now
            case Unroutable => !HasProvider(w, digest.toolset, token)
            case QueueFull => RequestStream.AtBound(StreamOf(w, digest.toolset), MAX_QUEUED_CALLS)
  {
    RequestStream.CappedCountIsExact(StreamOf(w, digest.toolset), MAX_QUEUED_CALLS);
    if HasProvider(w, digest.toolset, token) {
      assert Catalog.Routable(w.catalog[digest.toolset], w.now);
    }
    if RoutableNow(w, digest.toolset, token) {
      var k :| k in w.catalog[digest.toolset].leases && !w.catalog[digest.toolset].leases[k].draining &&
        Catalog.Live(w.catalog[digest.toolset].leases[k], w.now);
    }
  }

  // ---------------------------------------------------------------------
  // Claims
  // ---------------------------------------------------------------------

  /** The provider's exact lease is in the catalog, unexpired. */
  predicate Serving(w: World, p: Provider) {
    && p.toolset in w.catalog && w.catalog[p.toolset].token == p.providerToken
    && p.lease in w.catalog[p.toolset].leases && w.now < w.catalog[p.toolset].leases[p.lease].expiresAt
  }

  /** The record is the one the provider names, and its request was published for it. */
  predicate Named(c: Call, p: Provider) {
    && c.record.Some? && c.record.value.Admitted? && c.record.value.toolUse == p.key
    && c.record.value.token == p.callToken && p.request in c.record.value.claims
  }

  /** Published, undecided, undispatched and before its deadline. */
  predicate Available(w: World, p: Provider) {
    var c := CallOf(w, p.key);
    && Serving(w, p) && Named(c, p)
    && !c.record.value.terminal && c.record.value.dispatchToken.None? && w.now < c.record.value.deadline
  }

  /** The current generation's first claim is granted, and the call is indexed under it. */
  lemma ClaimGrants(w: World, p: Provider)
    requires Available(w, p) && p.callToken == p.providerToken
    ensures ClaimReplyOf(w, p) == Execute
    ensures var c, n := CallOf(w, p.key), Then(w, p.key, ClaimOp(p));
            var expiry := w.catalog[p.toolset].leases[p.lease].expiresAt;
            && n.record == Some(c.record.value.(dispatchToken := Some(p.providerToken), dispatchLease := Some(p.lease),
                                  dispatchRequest := Some(p.request), dispatchExpires := Some(expiry)))
            && n.results == c.results
            && n.due == Some(if c.record.value.deadline < expiry then c.record.value.deadline else expiry)
            && n.member == Some(Owner(p.providerToken, p.lease))
            && n.listed == c.listed + {Owner(p.providerToken, p.lease)}
  {
  }

  /** A stale terminal: the registry's own answer to a call of an older generation. */
  predicate StaleResult(c: Call, n: Call, key: string) {
    && c.record.Some? && c.record.value.Admitted? && n.record.Some? && n.record.value.Admitted?
    && n.record.value.terminal && n.record.value.terminalCause == Some(StaleAdmission)
    && n.record.value.terminalPayload == Some(Payload(c.record.value.token, key, StaleRegistration))
    && n.record.value.terminalDigest == Some(Sha256(Payload(c.record.value.token, key, StaleRegistration)))
    && n.record.value.terminalEvent == Some(n.results.last) && n.record.value.dispatchToken.None?
    && Appends(c.results, n.results, Message(Payload(c.record.value.token, key, StaleRegistration)))
    && n.due.None? && n.member.None?
  }

  lemma ClaimRejectsOldGeneration(w: World, p: Provider)
    requires Available(w, p) && p.callToken != p.providerToken
    ensures ClaimReplyOf(w, p) == AlreadyTerminal
    ensures StaleResult(CallOf(w, p.key), Then(w, p.key, ClaimOp(p)), p.key)
  {
    PushAppends(CallOf(w, p.key).results, w.now, Message(StalePayload(CallOf(w, p.key).record.value.token, p.key)));
  }

  /** Whoever else claims the call later is told so, and changes nothing. */
  lemma ClaimIsFinal(w: World, p: Provider)
    requires Serving(w, p) && Named(CallOf(w, p.key), p)
    requires var r := CallOf(w, p.key).record.value; r.terminal || r.dispatchToken.Some? || r.deadline <= w.now
    ensures Then(w, p.key, ClaimOp(p)) == CallOf(w, p.key)
    ensures var r := CallOf(w, p.key).record.value;
            ClaimReplyOf(w, p) ==
            if r.terminal then AlreadyTerminal else if r.deadline <= w.now then Expired else AlreadyClaimed
  {
  }

  // ---------------------------------------------------------------------
  // Completion
  // ---------------------------------------------------------------------

  /** The provider holds the dispatch of a retained call. */
  predicate Holding(w: World, p: Provider) {
    var c := CallOf(w, p.key);
    && Serving(w, p) && Named(c, p) && w.now < c.record.value.expiresAt
    && c.record.value.dispatchToken == Some(p.providerToken)
    && c.record.value.dispatchLease == Some(p.lease) && c.record.value.dispatchRequest == Some(p.request)
  }

  /** Exactly this result, checksum and cause are stored, and the result is the newest event. */
  predicate Stored(c: Call, n: Call, payload: Payload, digest: Digest, cause: Cause) {
    && c.record.Some? && c.record.value.Admitted?
    && n.record == Some(c.record.value.(terminal := true, terminalEvent := Some(n.results.last), terminalDigest := Some(digest),
                          terminalPayload := Some(payload), terminalCause := Some(cause)))
    && Appends(c.results, n.results, Message(payload))
  }

  /** The call is out of the deadline index, the membership hash and this lease's index. */
  predicate Unindexed(c: Call, n: Call, owner: Owner) {
    n.due.None? && n.member.None? && n.listed == c.listed - {owner}
  }

  /** In time, the submitted result is the result that is stored. */
  lemma CompleteStoresResult(w: World, p: Provider, payload: Payload)
    requires Holding(w, p) && !CallOf(w, p.key).record.value.terminal && w.now < CallOf(w, p.key).record.value.deadline
    ensures CompleteReplyOf(w, p, payload) == Committed
    ensures var c, n := CallOf(w, p.key), Then(w, p.key, CompleteOp(p, payload));
            Stored(c, n, payload, Sha256(payload), ProviderResult) && Unindexed(c, n, Owner(p.providerToken, p.lease))
  {
    PushAppends(CallOf(w, p.key).results, w.now, Message(payload));
  }

  /** Too late, the retained outcome_unknown result is stored instead. */
  lemma CompleteTooLate(w: World, p: Provider, payload: Payload)
    requires Holding(w, p) && !CallOf(w, p.key).record.value.terminal && CallOf(w, p.key).record.value.deadline <= w.now
    ensures CompleteReplyOf(w, p, payload) == DeadlineWon
    ensures var c, n := CallOf(w, p.key), Then(w, p.key, CompleteOp(p, payload));
            && Stored(c, n, c.record.value.outcomeUnknown, Sha1(c.record.value.outcomeUnknown), ExecutionDeadline)
            && Unindexed(c, n, Owner(p.providerToken, p.lease))
  {
    PushAppends(CallOf(w, p.key).results, w.now, Message(CallOf(w, p.key).record.value.outcomeUnknown));
  }

  /** Sending the result again replays it, sending another conflicts, and a deadline stays won; nothing changes. */
  lemma CompleteAgain(w: World, p: Provider, payload: Payload, stored: Payload)
    requires Holding(w, p) && CallOf(w, p.key).record.value.terminal
    requires CallOf(w, p.key).record.value.terminalDigest == Some(Sha256(stored))
    ensures Then(w, p.key, CompleteOp(p, payload)) == CallOf(w, p.key)
    ensures CompleteReplyOf(w, p, payload) ==
            if CallOf(w, p.key).record.value.terminalCause == Some(ExecutionDeadline) then DeadlineWon
            else if payload == stored then Replayed else TerminalConflict
  {
  }

  /** Right after it was committed, the same result is replayed and any other one conflicts. */
  lemma CommittedIsReplayed(w: World, p: Provider, payload: Payload, other: Payload)
    requires Holding(w, p) && !CallOf(w, p.key).record.value.terminal && w.now < CallOf(w, p.key).record.value.deadline
    ensures var n := Apply(w, On(p.key, CompleteOp(p, payload)));
            CompleteReplyOf(n, p, other) == if other == payload then Replayed else TerminalConflict
  {
    CompleteStoresResult(w, p, payload);
    var n := Apply(w, On(p.key, CompleteOp(p, payload)));
    assert Holding(n, p);
    CompleteAgain(n, p, other, payload);
  }

  /** Without the dispatch, or a live lease, nothing is stored. */
  lemma CompleteNeedsDispatch(w: World, p: Provider, payload: Payload)
    requires !Holding(w, p)
    ensures Then(w, p.key, CompleteOp(p, payload)) == CallOf(w, p.key)
    ensures CompleteReplyOf(w, p, payload) !in {Committed, Replayed, DeadlineWon, TerminalConflict}
  {
  }

  /** One step: a provider result is exactly what the completing provider submitted. */
  lemma ResultIsSubmitted(w: World, op: Op, key: string)
    requires Inv(w) && Possible(w, op)
    requires !IsTerminal(CallOf(w, key)) && IsTerminal(CallOf(Apply(w, op), key))
    requires CallOf(Apply(w, op), key).record.value.terminalCause == Some(ProviderResult)
    ensures op.On? && op.key == key && op.op.CompleteOp?
    ensures CallOf(Apply(w, op), key).record.value.terminalPayload == Some(op.op.payload)
  {
    assert CallOk(key, CallOf(w, key), w.now);
    if op.On? && op.key == key {
      OnlyCompletionCommitsResults(w, key, op.op);
    }
  }

  /**
   * On every run a provider result that is stored at the end is the one some
   * provider submitted during the run.
   */
  lemma {:induction false} ResultWasSubmitted(w: World, ops: seq<Op>, key: string) returns (i: nat)
    requires Inv(w) && IsRun(w, ops) && Window(ops, key)
    requires !IsTerminal(CallOf(w, key)) && IsTerminal(CallOf(Run(w, ops), key))
    requires CallOf(Run(w, ops), key).record.value.terminalCause == Some(ProviderResult)
    ensures i < |ops| && ops[i].On? && ops[i].key == key && ops[i].op.CompleteOp?
    ensures CallOf(Run(w, ops), key).record.value.terminalPayload == Some(ops[i].op.payload)
    decreases |ops|
  {
    FirstStep(w, ops, key);
    var n := Apply(w, ops[0]);
    if IsTerminal(CallOf(n, key)) {
      TerminalNeverChanges(n, ops[1..], key);
      ResultIsSubmitted(w, ops[0], key);
      i := 0;
    } else {
      var j := ResultWasSubmitted(n, ops[1..], key);
      i := j + 1;
    }
  }

  // ---------------------------------------------------------------------
  // Live events and overload
  // ---------------------------------------------------------------------

  /** The owner's fragment is appended as it is, and counted. */
  lemma LiveEventIsAppended(w: World, p: Provider, data: string)
    requires Holding(w, p) && !CallOf(w, p.key).record.value.terminal && w.now < CallOf(w, p.key).record.value.deadline
    requires CallOf(w, p.key).record.value.deltas < MAX_DELTAS
    ensures LiveReplyOf(w, p) == Delivered
    ensures var c, n := CallOf(w, p.key), Then(w, p.key, LiveOp(p, data));
            && n == c.(record := Some(c.record.value.(deltas := c.record.value.deltas + 1)), results := n.results)
            && Appends(c.results, n.results, Delta(data))
  {
    PushAppends(CallOf(w, p.key).results, w.now, Delta(data));
  }

  /** Anybody else's fragment, and a late or surplus one, leaves no trace. */
  lemma LiveEventIsDropped(w: World, p: Provider, data: string)
    requires || !Holding(w, p) || CallOf(w, p.key).record.value.terminal
             || CallOf(w, p.key).record.value.deadline <= w.now || CallOf(w, p.key).record.value.deltas >= MAX_DELTAS
    ensures LiveReplyOf(w, p) != Delivered && Then(w, p.key, LiveOp(p, data)) == CallOf(w, p.key)
  {
  }

  /** A first overload report publishes retry control and is noted for its request. */
  lemma OverloadIsReported(w: World, p: Provider)
    requires Available(w, p) && p.callToken == p.providerToken && w.now < CallOf(w, p.key).record.value.expiresAt
    requires p.request !in CallOf(w, p.key).record.value.overloadRequests
    ensures OverloadReplyOf(w, p) == OverloadReported
    ensures var c, n := CallOf(w, p.key), Then(w, p.key, OverloadOp(p));
            && Appends(c.results, n.results, Message(Payload(c.record.value.token, p.key, RetryAfter(OVERLOAD_DELAY_MS))))
            && n == c.(results := n.results,
                       record := Some(c.record.value.(overloadEvent := Some(n.results.last), overloadDelay := OVERLOAD_DELAY_MS,
                                        overloadRequests := c.record.value.overloadRequests[p.request := n.results.last])))
  {
    PushAppends(CallOf(w, p.key).results, w.now, Message(RetryPayload(CallOf(w, p.key).record.value.token, p.key)));
  }

  /** For an older generation the report decides the call instead. */
  lemma OverloadRejectsOldGeneration(w: World, p: Provider)
    requires Available(w, p) && p.callToken != p.providerToken && w.now < CallOf(w, p.key).record.value.expiresAt
    requires p.request !in CallOf(w, p.key).record.value.overloadRequests
    ensures OverloadReplyOf(w, p) == OverloadReported
    ensures StaleResult(CallOf(w, p.key), Then(w, p.key, OverloadOp(p)), p.key)
  {
    PushAppends(CallOf(w, p.key).results, w.now, Message(StalePayload(CallOf(w, p.key).record.value.token, p.key)));
  }

  /** A second report of one request, and one that comes too late, changes nothing. */
  lemma OverloadIsReportedOnce(w: World, p: Provider)
    requires !Available(w, p) || CallOf(w, p.key).record.value.expiresAt <= w.now ||
             p.request in CallOf(w, p.key).record.value.overloadRequests
    ensures OverloadReplyOf(w, p) != OverloadReported && Then(w, p.key, OverloadOp(p)) == CallOf(w, p.key)
  {
  }

  // ---------------------------------------------------------------------
  // Settlement
  // ---------------------------------------------------------------------

  /** A claimed call without a result. */
  predicate Claimed(c: Call) {
    && c.record.Some? && c.record.value.Admitted? && !c.record.value.terminal
    && c.record.value.dispatchToken.Some? && c.record.value.dispatchLease.Some?
  }

  /** Its own lease is still in the catalog, unexpired. */
  predicate OwnerAlive(w: World, r: Record)
    requires r.Admitted? && r.dispatchToken.Some? && r.dispatchLease.Some?
  {
    && r.field in w.catalog && w.catalog[r.field].token == r.dispatchToken.value
    && r.dispatchLease.value in w.catalog[r.field].leases
    && w.now < w.catalog[r.field].leases[r.dispatchLease.value].expiresAt
  }

  /** While its owner lives, a call before its deadline only gets the deadline its renewed lease allows. */
  lemma SettlePostpones(w: World, key: string, index: Owner, cause: Cause)
    requires Claimed(CallOf(w, key)) && w.now < CallOf(w, key).record.value.deadline
    requires OwnerAlive(w, CallOf(w, key).record.value)
    ensures var c, r := CallOf(w, key), CallOf(w, key).record.value;
            var expiry := w.catalog[r.field].leases[r.dispatchLease.value].expiresAt;
            Then(w, key, SettleOp(index, cause)) == c.(due := Some(if r.deadline < expiry then r.deadline else expiry))
  {
  }

  /** Otherwise, while retained, it gets the retained outcome_unknown result and the cause the clock and lease tell. */
  lemma SettleStoresUnknown(w: World, key: string, index: Owner, cause: Cause)
    requires Claimed(CallOf(w, key)) && w.now < CallOf(w, key).record.value.expiresAt
    requires CallOf(w, key).record.value.deadline <= w.now || !OwnerAlive(w, CallOf(w, key).record.value)
    ensures var c, n := CallOf(w, key), Then(w, key, SettleOp(index, cause));
            && Stored(c, n, c.record.value.outcomeUnknown, Sha1(c.record.value.outcomeUnknown),
                      if w.now < c.record.value.deadline then LeaseLost else cause)
            && Unindexed(c, n, index)
  {
    PushAppends(CallOf(w, key).results, w.now, Message(CallOf(w, key).record.value.outcomeUnknown));
  }

  /** A call that is finished or was never claimed only leaves the indexes. */
  lemma SettleDropsOthers(w: World, key: string, index: Owner, cause: Cause)
    requires !Claimed(CallOf(w, key))
    ensures var c, n := CallOf(w, key), Then(w, key, SettleOp(index, cause));
            n.record == c.record && n.results == c.results && Unindexed(c, n, index)
  {
  }

  /** Cleaning up touches no record and no result, and drops the index membership names, or else the fallback. */
  lemma CleanupDropsEntries(w: World, key: string, fallback: Option<Owner>)
    ensures var c, n := CallOf(w, key), Then(w, key, CleanupOp(fallback));
            && n.record == c.record && n.results == c.results && n.due.None? && n.member.None?
            && n.listed == c.listed - (if c.member.Some? then {c.member.value}
                                       else if fallback.Some? then {fallback.value} else {})
  {
  }

  /** Restoring appends the stored result again and notes its new event; nothing else changes. */
  lemma RestoreAppendsResult(w: World, key: string)
    requires var c := CallOf(w, key);
             && c.record.Some? && c.record.value.Admitted? && c.record.value.terminal && c.record.value.terminalPayload.Some?
             && w.now < c.record.value.expiresAt
             && !(c.record.value.terminalEvent.Some? &&
                  exists i :: 0 <= i < |c.results.events| && c.results.events[i].id == c.record.value.terminalEvent.value)
    ensures var c, n := CallOf(w, key), Then(w, key, RestoreOp);
            && Appends(c.results, n.results, Message(c.record.value.terminalPayload.value))
            && n == c.(results := n.results, record := Some(c.record.value.(terminalEvent := Some(n.results.last))))
  {
    PushAppends(CallOf(w, key).results, w.now, Message(CallOf(w, key).record.value.terminalPayload.value));
  }
}
