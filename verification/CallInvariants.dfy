/**
 * What every step of the call protocol keeps, on every run: each record's
 * internal consistency, the result streams' shape, and the agreement of the
 * three settlement indexes with the records they speed up.
 */
module CallInvariants {
  import opened Basics
  import opened StreamIds
  import Catalog
  import RequestStream
  import opened Records
  import opened CallProtocol

  // ---------------------------------------------------------------------
  // One record
  // ---------------------------------------------------------------------

  ghost predicate IdentityOk(key: string, r: Record)
    requires r.Admitted?
  {
    && r.toolUse == key
    && r.field == r.digest.toolset
    && 0 < r.deadline < r.expiresAt
    && r.outcomeUnknown == UnknownPayload(r.token, key)
    && r.deltas <= MAX_DELTAS
  }

  /** Publication happens before the deadline, under a token of the record's own toolset. */
  ghost predicate PublicationOk(r: Record)
    requires r.Admitted?
  {
    && (r.published <==> r.publication.Some?)
    && (r.published ==> r.publication.value in r.claims && r.token.toolset == r.field)
    && (!r.published ==>
          r.claims == {} && r.overload.None? && r.overloadEvent.None? && r.overloadRequests == map[] &&
          r.deltas == 0 && !r.terminal && r.dispatchToken.None?)
    && (forall c :: c in r.claims ==> c != ZERO && c.ms < r.deadline)
  }

  /** Overload history: every reported event is at or before the last one. */
  ghost predicate OverloadOk(r: Record)
    requires r.Admitted?
  {
    && (r.overloadEvent.None? <==> r.overloadDelay == 0)
    && r.overloadDelay <= MAX_OVERLOAD_DELAY_MS
    && (r.overload.Some? ==> r.overload.value != ZERO && r.overloadEvent.Some? && AtOrBefore(r.overload.value, r.overloadEvent.value))
    && (r.overloadEvent.Some? ==>
          && r.overloadEvent.value != ZERO
          && exists e :: e in r.overloadRequests && r.overloadRequests[e] == r.overloadEvent.value)
    && (!r.terminal ==> forall e :: e in r.overloadRequests ==>
          r.overloadEvent.Some? && r.overloadRequests[e] != ZERO && AtOrBefore(r.overloadRequests[e], r.overloadEvent.value))
  }

  /** The four dispatch fields are set together, under the record's token, for a published request. */
  ghost predicate DispatchOk(r: Record)
    requires r.Admitted?
  {
    && (r.dispatchToken.Some? <==> r.dispatchLease.Some?)
    && (r.dispatchToken.Some? <==> r.dispatchRequest.Some?)
    && (r.dispatchToken.Some? <==> r.dispatchExpires.Some?)
    && (r.dispatchToken.Some? ==>
          r.dispatchToken.value == r.token && r.dispatchRequest.value in r.claims && r.dispatchExpires.value > 0)
  }

  /** The payload and checksum each cause commits. */
  ghost predicate PayloadFits(key: string, r: Record)
    requires r.Admitted? && r.terminalPayload.Some? && r.terminalCause.Some? && r.terminalDigest.Some?
  {
    var p := r.terminalPayload.value;
    && p.token == r.token && p.toolUse == key
    && match r.terminalCause.value
       case ProviderResult => IsTerminalBody(p.body) && r.terminalDigest == Some(Sha256(p))
       case StaleAdmission => p.body == StaleRegistration && r.terminalDigest == Some(Sha256(p))
       case _ => p.body == OutcomeUnknown && r.terminalDigest == Some(Sha1(p))
  }

  /** A stale terminal was never dispatched; every other terminal was. */
  ghost predicate TerminalOk(key: string, r: Record)
    requires r.Admitted?
  {
    && (r.terminal <==> r.terminalEvent.Some?)
    && (r.terminal <==> r.terminalDigest.Some?)
    && (r.terminal <==> r.terminalPayload.Some?)
    && (r.terminal <==> r.terminalCause.Some?)
    && (r.terminal ==>
          && r.terminalEvent.value != ZERO
          && PayloadFits(key, r)
          && (r.terminalCause.value == StaleAdmission <==> r.dispatchToken.None?))
  }

  ghost predicate RecordOk(key: string, r: Record) {
    match r
    case Rejected(_, _, message, _) => message != ""
    case _ => IdentityOk(key, r) && PublicationOk(r) && OverloadOk(r) && DispatchOk(r) && TerminalOk(key, r)
  }

  // ---------------------------------------------------------------------
  // The world
  // ---------------------------------------------------------------------

  ghost predicate CatalogOk(w: World) {
    forall n :: n in w.catalog ==> Catalog.Valid(n, w.catalog[n])
  }

  ghost predicate RequestsOk(w: World) {
    forall n :: n in w.requests ==> RequestStream.Inv(w.requests[n]) && w.requests[n].last.ms <= w.now
  }

  ghost predicate EventsOk(s: Results, now: nat) {
    && s.last.ms <= now
    && (forall i, j :: 0 <= i < j < |s.events| ==> Before(s.events[i].id, s.events[j].id))
    && (forall i :: 0 <= i < |s.events| ==> AtOrBefore(s.events[i].id, s.last))
  }

  /** Nothing follows a terminal result, and no recorded event lies beyond the stream's end. */
  ghost predicate HistoryOk(s: Results, r: Record) {
    r.Admitted? ==>
      && (r.overloadEvent.Some? ==> AtOrBefore(r.overloadEvent.value, s.last))
      && (r.terminal && r.terminalEvent.Some? && r.terminalPayload.Some? ==>
            forall i :: 0 <= i < |s.events| ==>
              && AtOrBefore(s.events[i].id, r.terminalEvent.value)
              && (s.events[i].id == r.terminalEvent.value ==> s.events[i].content == Message(r.terminalPayload.value)))
  }

  ghost predicate CallOk(key: string, c: Call, now: nat) {
    && (c.record.Some? ==> RecordOk(key, c.record.value) && HistoryOk(c.results, c.record.value))
    && EventsOk(c.results, now)
  }

  ghost predicate Inv(w: World) {
    CatalogOk(w) && RequestsOk(w) && forall k :: CallOk(k, CallOf(w, k), w.now)
  }

  // ---------------------------------------------------------------------
  // Preservation
  // ---------------------------------------------------------------------

  lemma PushKeepsEvents(s: Results, now: nat, content: Content)
    requires EventsOk(s, now)
    ensures EventsOk(Push(s, now, content), now)
    ensures var p := Push(s, now, content);
            p.events != [] && p.events[|p.events| - 1] == Event(NextId(s.last, now), content)
  {
  }

  lemma {:induction false} LossKeepsEvents(events: seq<Event>, lost: set<Id>)
    requires forall i, j :: 0 <= i < j < |events| ==> Before(events[i].id, events[j].id)
    ensures forall e :: e in Without(events, lost) ==> e in events
    ensures forall i, j :: 0 <= i < j < |Without(events, lost)| ==>
              Before(Without(events, lost)[i].id, Without(events, lost)[j].id)
  {
    if events != [] {
      LossKeepsEvents(events[1..], lost);
      var left, rest := Without(events, lost), Without(events[1..], lost);
      forall i, j | 0 <= i < j < |left| ensures Before(left[i].id, left[j].id) {
        if left != rest {
          assert left == [events[0]] + rest;
          assert left[j] == rest[j - 1] && rest[j - 1] in events[1..];
        }
      }
    }
  }

  lemma LossKeeps(key: string, c: Call, now: nat, lost: set<Id>)
    requires CallOk(key, c, now)
    ensures CallOk(key, c.(results := Lose(c.results, lost)), now)
  {
    LossKeepsEvents(c.results.events, lost);
    var left := Without(c.results.events, lost);
    forall i | 0 <= i < |left| ensures exists j :: 0 <= j < |c.results.events| && c.results.events[j] == left[i] {
      assert left[i] in left;
    }
  }

  /** Committing a fitting terminal result on a published, unfinished call. */
  lemma CommitKeeps(key: string, c: Call, now: nat, cause: Cause, payload: Payload, digest: Digest)
    requires CallOk(key, c, now) && IsAdmitted(c) && c.record.value.published && !c.record.value.terminal
    requires cause == StaleAdmission <==> c.record.value.dispatchToken.None?
    requires PayloadFits(key, Commit(c, now, cause, payload, digest).record.value)
    ensures var n := Commit(c, now, cause, payload, digest);
            RecordOk(key, n.record.value) && HistoryOk(n.results, n.record.value) && EventsOk(n.results, now)
  {
    PushKeepsEvents(c.results, now, Message(payload));
  }

  lemma PublishKeeps(w: World, key: string, op: CallOp)
    requires Inv(w) && op.PublishOp? && PossibleOn(CallOf(w, key), key, op)
    ensures CallOk(key, ApplyOn(w, key, op), w.now)
  {
    var c := CallOf(w, key);
    assert CallOk(key, c, w.now);
    if Publishes(w, key, op) {
      assert Catalog.Valid(op.digest.toolset, w.catalog[op.digest.toolset]);
      var s := StreamOf(w, op.digest.toolset);
      assert s.last.ms <= w.now;
      if op.overload.Some? {
        var e :| e in c.record.value.overloadRequests && c.record.value.overloadRequests[e] == op.overload.value;
      }
    }
  }

  lemma ClaimKeeps(w: World, p: Provider)
    requires Inv(w)
    ensures CallOk(p.key, Claim(w, p), w.now)
  {
    var c := CallOf(w, p.key);
    assert CallOk(p.key, c, w.now);
    if GrantsExecution(w, p) {
      assert Catalog.Valid(p.toolset, w.catalog[p.toolset]);
    } else if FindsStale(w, p) {
      var payload := StalePayload(c.record.value.token, p.key);
      CommitKeeps(p.key, c, w.now, StaleAdmission, payload, Sha256(payload));
    }
  }

  lemma CompleteKeeps(w: World, p: Provider, payload: Payload)
    requires Inv(w) && PossibleOn(CallOf(w, p.key), p.key, CompleteOp(p, payload))
    ensures CallOk(p.key, Complete(w, p, payload), w.now)
  {
    var c := CallOf(w, p.key);
    assert CallOk(p.key, c, w.now);
    if Authorized(w, p) && !c.record.value.terminal {
      if BeforeDeadline(c, w.now) {
        CommitKeeps(p.key, c, w.now, ProviderResult, payload, Sha256(payload));
      } else {
        CommitKeeps(p.key, c, w.now, ExecutionDeadline, c.record.value.outcomeUnknown, Sha1(c.record.value.outcomeUnknown));
      }
    }
  }

  lemma LiveKeeps(w: World, p: Provider, data: string)
    requires Inv(w)
    ensures CallOk(p.key, PublishLive(w, p, data), w.now)
  {
    assert CallOk(p.key, CallOf(w, p.key), w.now);
    PushKeepsEvents(CallOf(w, p.key).results, w.now, Delta(data));
  }

  lemma OverloadKeeps(w: World, p: Provider)
    requires Inv(w)
    ensures CallOk(p.key, ReportOverload(w, p), w.now)
  {
    var c := CallOf(w, p.key);
    assert CallOk(p.key, c, w.now);
    if Overloadable(w, p) {
      if p.callToken != p.providerToken {
        var payload := StalePayload(c.record.value.token, p.key);
        CommitKeeps(p.key, c, w.now, StaleAdmission, payload, Sha256(payload));
        if c.record.value.overloadEvent.Some? {
          var e :| e in c.record.value.overloadRequests && c.record.value.overloadRequests[e] == c.record.value.overloadEvent.value;
          assert ReportOverload(w, p).record.value.overloadRequests[e] == c.record.value.overloadEvent.value;
        }
      } else {
        assert ReportOverload(w, p).record.value.overloadRequests[p.request] == NextId(c.results.last, w.now);
        PushKeepsEvents(c.results, w.now, Message(RetryPayload(c.record.value.token, p.key)));
      }
    }
  }

  lemma RestoreKeeps(key: string, c: Call, now: nat)
    requires CallOk(key, c, now)
    ensures CallOk(key, Restore(c, now), now)
  {
    if LostTerminal(c, now) {
      PushKeepsEvents(c.results, now, Message(c.record.value.terminalPayload.value));
    }
  }

  lemma SettleKeeps(w: World, key: string, c: Call, index: Owner, cause: Cause)
    requires CallOk(key, c, w.now) && (cause == ExecutionDeadline || cause == LeaseReleased)
    ensures CallOk(key, Settle(w, c, index, cause), w.now)
  {
    if Settles(w, c) {
      CommitKeeps(key, c, w.now, if BeforeDeadline(c, w.now) then LeaseLost else cause,
        c.record.value.outcomeUnknown, Sha1(c.record.value.outcomeUnknown));
    }
  }

  lemma InitKeeps(key: string, c: Call, now: nat, digest: CallDigest)
    requires CallOk(key, c, now)
    ensures CallOk(key, InitResults(c, now, digest), now)
  {
    PushKeepsEvents(c.results, now, InitMark);
  }

  lemma DecisionKeeps(w: World, key: string, op: CallOp)
    requires CallOk(key, CallOf(w, key), w.now) && PossibleOn(CallOf(w, key), key, op) && (op.EnsureOp? || op.RejectOp?)
    ensures CallOk(key, ApplyOn(w, key, op), w.now)
  {
  }

  lemma CallKept(w: World, key: string, op: CallOp)
    requires Inv(w) && PossibleOn(CallOf(w, key), key, op)
    ensures CallOk(key, ApplyOn(w, key, op), w.now)
  {
    var c := CallOf(w, key);
    assert CallOk(key, c, w.now);
    match op {
      case PublishOp(_, _, _, _) => PublishKeeps(w, key, op);
      case LoseResults(lost) => LossKeeps(key, c, w.now, lost);
      case InitOp(digest) => InitKeeps(key, c, w.now, digest);
      case EnsureOp(_, _, _, _) => DecisionKeeps(w, key, op);
      case RejectOp(_, _, _, _) => DecisionKeeps(w, key, op);
      case RestoreOp => RestoreKeeps(key, c, w.now);
      case ClaimOp(p) => ClaimKeeps(w, p);
      case CompleteOp(p, payload) => CompleteKeeps(w, p, payload);
      case LiveOp(p, data) => LiveKeeps(w, p, data);
      case OverloadOp(p) => OverloadKeeps(w, p);
      case SettleOp(index, cause) => SettleKeeps(w, key, c, index, cause);
      case _ =>
    }
  }

  lemma CatalogKept(w: World, op: Op)
    requires CatalogOk(w) && Possible(w, op)
    ensures CatalogOk(Apply(w, op))
  {
    if op.CatalogSwap? {
      var before := if op.name in w.catalog then Some(w.catalog[op.name]) else None;
      Catalog.StepKeepsValid(op.name, before, op.action, op.at);
    }
  }

  lemma RequestsKept(w: World, op: Op)
    requires RequestsOk(w) && Possible(w, op)
    ensures RequestsOk(Apply(w, op))
  {
    match op {
      case StreamOp(name, o) => RequestStream.StepKeepsInv(StreamOf(w, name), o, MAX_QUEUED_CALLS);
      case On(key, o) =>
        if Publishes(w, key, o) {
          RequestStream.AppendKeepsInv(StreamOf(w, o.digest.toolset), true, w.now, o.reclaimed);
        }
      case _ =>
    }
  }

  /** The invariant is inductive. */
  lemma StepKeepsInv(w: World, op: Op)
    requires Inv(w) && Possible(w, op)
    ensures Inv(Apply(w, op))
  {
    CatalogKept(w, op);
    RequestsKept(w, op);
    forall k ensures CallOk(k, CallOf(Apply(w, op), k), Apply(w, op).now) {
      assert CallOk(k, CallOf(w, k), w.now);
      if op.On? && op.key == k {
        CallKept(w, k, op.op);
      }
    }
  }

  /** Every run, by any replicas and providers in any order, stays consistent. */
  lemma {:induction false} EveryRunKeepsInv(w: World, ops: seq<Op>)
    requires Inv(w) && IsRun(w, ops)
    ensures Inv(Run(w, ops))
    decreases |ops|
  {
    if ops != [] {
      StepKeepsInv(w, ops[0]);
      EveryRunKeepsInv(Apply(w, ops[0]), ops[1..]);
    }
  }

  lemma InitialHolds()
    ensures Inv(INITIAL) && AllIndexed(INITIAL)
  {
  }

  // ---------------------------------------------------------------------
  // Settlement indexes
  // ---------------------------------------------------------------------

  /**
   * Settlement indexes agree with the record: a claimed call without a result
   * is due no later than its deadline, is listed under the lease that claimed
   * it, and membership names that lease, for as long as the record is retained.
   * Deadline index and membership have the same keys.
   */
  ghost predicate IndexesOk(c: Call, now: nat) {
    && (c.due.Some? <==> c.member.Some?)
    && (InFlight(c) && Retained(c, now) ==>
          && c.due.Some? && c.due.value <= c.record.value.deadline
          && c.member == Some(OwnerOf(c))
          && OwnerOf(c) in c.listed)
  }

  ghost predicate AllIndexed(w: World) {
    forall k :: IndexesOk(CallOf(w, k), w.now)
  }

  /**
   * Cleaning up after a vanished record is two operations: one sees no record,
   * the other drops the index entries without looking again. In between, the
   * same identity may be admitted and claimed anew.
   */
  ghost predicate CleanupRaces(w: World, op: Op) {
    op.On? && op.op.CleanupOp? && InFlight(CallOf(w, op.key)) && Retained(CallOf(w, op.key), w.now)
  }

  ghost predicate RaceFree(w: World, ops: seq<Op>)
    decreases |ops|
  {
    ops == [] || (!CleanupRaces(w, ops[0]) && RaceFree(Apply(w, ops[0]), ops[1..]))
  }

  lemma ProviderIndexesKept(w: World, p: Provider, payload: Payload)
    requires Inv(w) && IndexesOk(CallOf(w, p.key), w.now)
    ensures IndexesOk(Claim(w, p), w.now)
    ensures IndexesOk(Complete(w, p, payload), w.now)
    ensures IndexesOk(ReportOverload(w, p), w.now)
  {
    assert CallOk(p.key, CallOf(w, p.key), w.now);
  }

  lemma CallIndexesKept(w: World, key: string, op: CallOp)
    requires Inv(w) && PossibleOn(CallOf(w, key), key, op) && IndexesOk(CallOf(w, key), w.now)
    requires !CleanupRaces(w, On(key, op))
    ensures IndexesOk(ApplyOn(w, key, op), w.now)
  {
    assert CallOk(key, CallOf(w, key), w.now);
    match op {
      case ClaimOp(p) => ProviderIndexesKept(w, p, UnknownPayload(p.callToken, key));
      case CompleteOp(p, payload) => ProviderIndexesKept(w, p, payload);
      case OverloadOp(p) => ProviderIndexesKept(w, p, UnknownPayload(p.callToken, key));
      case _ =>
    }
  }

  /** One step keeps the indexes in agreement exactly when it is not such a race. */
  lemma IndexesKeptExactlyWithoutRace(w: World, op: Op)
    requires Inv(w) && Possible(w, op) && AllIndexed(w)
    ensures AllIndexed(Apply(w, op)) <==> !CleanupRaces(w, op)
  {
    var n := Apply(w, op);
    if CleanupRaces(w, op) {
      assert !IndexesOk(CallOf(n, op.key), n.now);
    } else {
      forall k ensures IndexesOk(CallOf(n, k), n.now) {
        assert IndexesOk(CallOf(w, k), w.now);
        if op.On? && op.key == k {
          CallIndexesKept(w, k, op.op);
        } else {
          assert CallOf(n, k) == CallOf(w, k);
        }
      }
    }
  }

  /** On every run without that race the indexes agree with the records throughout. */
  lemma {:induction false} IndexesAgreeOnEveryRun(w: World, ops: seq<Op>)
    requires Inv(w) && AllIndexed(w) && IsRun(w, ops) && RaceFree(w, ops)
    ensures AllIndexed(Run(w, ops))
    decreases |ops|
  {
    if ops != [] {
      StepKeepsInv(w, ops[0]);
      IndexesKeptExactlyWithoutRace(w, ops[0]);
      IndexesAgreeOnEveryRun(Apply(w, ops[0]), ops[1..]);
    }
  }
}
