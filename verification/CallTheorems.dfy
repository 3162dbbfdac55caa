/**
 * What the call protocol promises over whole runs: execution at most once,
 * truthful terminal causes, generation fences across catalog and calls, frozen
 * terminal results, and settlement indexes that list exactly the right lease.
 * A retention window of a call is a stretch of a run without the expiry of its
 * record.
 */
module CallTheorems {
  import opened Basics
  import opened StreamIds
  import Catalog
  import RequestStream
  import opened Records
  import opened CallProtocol
  import opened CallInvariants

  // ---------------------------------------------------------------------
  // How one operation moves a record
  // ---------------------------------------------------------------------

  /** Nothing is decided yet, and now it is refused. */
  ghost predicate Refused(c: Call, n: Call) {
    (c.record.None? || Undecided(c)) && IsRejected(n)
  }

  ghost predicate Opened(c: Call, n: Call) {
    c.record.None? && IsAdmitted(n) && exists key, digest, token, deadline, expires ::
      n.record == Some(NewRecord(key, digest, token, deadline, expires))
  }

  ghost predicate Reassigned(c: Call, n: Call) {
    Undecided(c) && IsAdmitted(n) &&
    n.record.value == c.record.value.(token := n.record.value.token, outcomeUnknown := n.record.value.outcomeUnknown)
  }

  ghost predicate Queued(c: Call, n: Call, now: nat) {
    IsAdmitted(c) && !c.record.value.terminal && IsAdmitted(n) && n.record.value.publication.Some? &&
    n.record.value.publication.value.ms == now < c.record.value.deadline &&
    n.record.value == c.record.value.(
      published := true, overload := n.record.value.overload, publication := n.record.value.publication,
      claims := c.record.value.claims + {n.record.value.publication.value})
  }

  ghost predicate Assumed(c: Call, n: Call) {
    IsAdmitted(c) && !c.record.value.terminal && c.record.value.dispatchToken.None? && IsAdmitted(n) &&
    Dispatched(n) && n.record.value == c.record.value.(
      dispatchToken := n.record.value.dispatchToken, dispatchLease := n.record.value.dispatchLease,
      dispatchRequest := n.record.value.dispatchRequest, dispatchExpires := n.record.value.dispatchExpires)
  }

  ghost predicate Finished(c: Call, n: Call, now: nat) {
    IsAdmitted(c) && !c.record.value.terminal && IsAdmitted(n) && n.record.value.terminalCause.Some? &&
    n.record.value == c.record.value.(
      terminal := true, terminalEvent := n.record.value.terminalEvent,
      terminalDigest := n.record.value.terminalDigest, terminalPayload := n.record.value.terminalPayload,
      terminalCause := n.record.value.terminalCause, overloadRequests := n.record.value.overloadRequests) &&
    (EarlyCause(n.record.value.terminalCause.value) <==> now < c.record.value.deadline)
  }

  ghost predicate Reported(c: Call, n: Call) {
    IsAdmitted(c) && !c.record.value.terminal && IsAdmitted(n) && n.record.value == c.record.value.(
      overloadEvent := n.record.value.overloadEvent, overloadDelay := n.record.value.overloadDelay,
      overloadRequests := n.record.value.overloadRequests)
  }

  ghost predicate Streamed(c: Call, n: Call) {
    IsAdmitted(c) && !c.record.value.terminal && IsAdmitted(n) &&
    n.record.value == c.record.value.(deltas := c.record.value.deltas + 1)
  }

  ghost predicate Republished(c: Call, n: Call) {
    IsAdmitted(c) && c.record.value.terminal && IsAdmitted(n) &&
    n.record.value == c.record.value.(terminalEvent := n.record.value.terminalEvent)
  }

  predicate EarlyCause(cause: Cause) {
    cause == ProviderResult || cause == StaleAdmission || cause == LeaseLost
  }

  /** The complete list of ways a record changes within its retention window. */
  ghost predicate Moved(w: World, key: string, op: CallOp, c: Call, n: Call) {
    || n.record == c.record
    || (op.RejectOp? && Refused(c, n))
    || (op.EnsureOp? && (Opened(c, n) || Reassigned(c, n)))
    || (Publishes(w, key, op) && Queued(c, n, w.now))
    || (op.ClaimOp? && GrantsExecution(w, op.provider) && Assumed(c, n))
    || ((op.ClaimOp? || op.CompleteOp? || op.OverloadOp? || op.SettleOp?) && Finished(c, n, w.now))
    || (op.OverloadOp? && Reported(c, n))
    || (op.LiveOp? && AcceptsDelta(w, op.provider) && Streamed(c, n))
    || (op.RestoreOp? && Republished(c, n))
  }

  lemma ProviderMoves(w: World, key: string, op: CallOp)
    requires Inv(w) && PossibleOn(CallOf(w, key), key, op) && (op.ClaimOp? || op.CompleteOp? || op.LiveOp?)
    ensures Moved(w, key, op, CallOf(w, key), ApplyOn(w, key, op))
  {
    var c, p := CallOf(w, key), op.provider;
    assert CallOk(key, c, w.now);
    match op {
      case ClaimOp(_) => if FindsStale(w, p) { assert Finished(c, Claim(w, p), w.now); }
      case CompleteOp(_, payload) =>
        if Authorized(w, p) && !c.record.value.terminal { assert Finished(c, Complete(w, p, payload), w.now); }
      case LiveOp(_, data) =>
    }
  }

  lemma OverloadMoves(w: World, p: Provider)
    requires Inv(w)
    ensures Moved(w, p.key, OverloadOp(p), CallOf(w, p.key), ReportOverload(w, p))
  {
    var c := CallOf(w, p.key);
    assert CallOk(p.key, c, w.now);
    if Overloadable(w, p) {
      if p.callToken != p.providerToken {
        assert Finished(c, ReportOverload(w, p), w.now);
      } else {
        assert Reported(c, ReportOverload(w, p));
      }
    }
  }

  /** Every operation but expiry moves the record along that list. */
  lemma EveryMoveIsListed(w: World, key: string, op: CallOp)
    requires Inv(w) && PossibleOn(CallOf(w, key), key, op) && !op.ExpireKey?
    ensures Moved(w, key, op, CallOf(w, key), ApplyOn(w, key, op))
  {
    var c := CallOf(w, key);
    assert CallOk(key, c, w.now);
    match op {
      case ClaimOp(_) => ProviderMoves(w, key, op);
      case CompleteOp(_, _) => ProviderMoves(w, key, op);
      case LiveOp(_, _) => ProviderMoves(w, key, op);
      case OverloadOp(p) => OverloadMoves(w, p);
      case PublishOp(digest, _, _, _) =>
        if Publishes(w, key, op) {
          assert StreamOf(w, digest.toolset).last.ms <= w.now;
          assert Queued(c, ApplyOn(w, key, op), w.now);
        }
      case SettleOp(index, cause) => if Settles(w, c) { assert Finished(c, Settle(w, c, index, cause), w.now); }
      case _ =>
    }
  }

  // ---------------------------------------------------------------------
  // Windows
  // ---------------------------------------------------------------------

  predicate Window(ops: seq<Op>, key: string) {
    On(key, ExpireKey) !in ops
  }

  /** One operation, on this call or not, moves its record along the list. */
  lemma MovesOf(w: World, op: Op, key: string)
    requires Inv(w) && Possible(w, op)
    ensures op.On? && op.key == key && !op.op.ExpireKey? ==>
              Moved(w, key, op.op, CallOf(w, key), CallOf(Apply(w, op), key))
    ensures !(op.On? && op.key == key) ==> CallOf(Apply(w, op), key) == CallOf(w, key)
  {
    if op.On? && op.key == key && !op.op.ExpireKey? {
      EveryMoveIsListed(w, key, op.op);
    }
  }

  lemma {:induction false} RunConcat(w: World, a: seq<Op>, b: seq<Op>)
    ensures Run(w, a + b) == Run(Run(w, a), b)
    ensures IsRun(w, a + b) <==> IsRun(w, a) && IsRun(Run(w, a), b)
    decreases |a|
  {
    if a == [] {
      assert a + b == b;
    } else {
      assert (a + b)[1..] == a[1..] + b;
      RunConcat(Apply(w, a[0]), a[1..], b);
    }
  }

  /** Splitting a run at its first operation. */
  lemma FirstStep(w: World, ops: seq<Op>, key: string)
    requires ops != [] && Inv(w) && IsRun(w, ops) && Window(ops, key)
    ensures Inv(Apply(w, ops[0])) && IsRun(Apply(w, ops[0]), ops[1..]) && Window(ops[1..], key)
    ensures ops[0] != On(key, ExpireKey)
    ensures CallOk(key, CallOf(w, key), w.now)
  {
    StepKeepsInv(w, ops[0]);
    assert ops[0] in ops;
  }

  // ---------------------------------------------------------------------
  // At most one execution
  // ---------------------------------------------------------------------

  /** This operation grants execution of the call. */
  predicate GrantStep(w: World, op: Op, key: string) {
    op.On? && op.key == key && op.op.ClaimOp? && op.op.provider.key == key &&
    GrantsExecution(w, op.op.provider)
  }

  /** How often a run grants execution of the call. */
  function Grants(w: World, ops: seq<Op>, key: string): nat
    decreases |ops|
  {
    if ops == [] then 0
    else (if GrantStep(w, ops[0], key) then 1 else 0) + Grants(Apply(w, ops[0]), ops[1..], key)
  }

  function GrantedBy(c: Call): nat {
    if Dispatched(c) then 1 else 0
  }

  lemma GrantStepCounts(w: World, op: Op, key: string)
    requires Inv(w) && Possible(w, op) && op != On(key, ExpireKey)
    ensures GrantedBy(CallOf(Apply(w, op), key)) ==
            GrantedBy(CallOf(w, key)) + (if GrantStep(w, op, key) then 1 else 0)
  {
    MovesOf(w, op, key);
    assert CallOk(key, CallOf(w, key), w.now);
  }

  /**
   * Conservation of grants: within a window the record carries an owner if and
   * only if it carried one before or execution was granted, exactly once.
   */
  lemma {:induction false} GrantsAreConserved(w: World, ops: seq<Op>, key: string)
    requires Inv(w) && IsRun(w, ops) && Window(ops, key)
    ensures GrantedBy(CallOf(w, key)) + Grants(w, ops, key) == GrantedBy(CallOf(Run(w, ops), key))
    decreases |ops|
  {
    if ops != [] {
      FirstStep(w, ops, key);
      GrantStepCounts(w, ops[0], key);
      GrantsAreConserved(Apply(w, ops[0]), ops[1..], key);
    }
  }

  /** Execution is granted at most once per retention window, in every interleaving. */
  lemma ExecutionGrantedAtMostOnce(w: World, ops: seq<Op>, key: string)
    requires Inv(w) && IsRun(w, ops) && Window(ops, key)
    ensures Grants(w, ops, key) <= 1
    ensures Dispatched(CallOf(w, key)) ==> Grants(w, ops, key) == 0
  {
    GrantsAreConserved(w, ops, key);
  }

  /** The fields a dispatched record never changes again. */
  predicate SameDispatch(a: Call, b: Call)
    requires IsAdmitted(a)
  {
    IsAdmitted(b) &&
    var r, s := a.record.value, b.record.value;
    && s.dispatchToken == r.dispatchToken && s.dispatchLease == r.dispatchLease
    && s.dispatchRequest == r.dispatchRequest && s.dispatchExpires == r.dispatchExpires
    && s.token == r.token && s.deadline == r.deadline && s.expiresAt == r.expiresAt
    && s.digest == r.digest && s.field == r.field && s.outcomeUnknown == r.outcomeUnknown
  }

  lemma DispatchFrozenByStep(w: World, op: Op, key: string)
    requires Inv(w) && Possible(w, op) && op != On(key, ExpireKey) && Dispatched(CallOf(w, key))
    ensures SameDispatch(CallOf(w, key), CallOf(Apply(w, op), key)) && Dispatched(CallOf(Apply(w, op), key))
  {
    MovesOf(w, op, key);
    assert CallOk(key, CallOf(w, key), w.now);
  }

  /**
   * The owner (token, lease, request event) never changes, and it is a lease of
   * the very token the request was published under.
   */
  lemma {:induction false} OwnerNeverChanges(w: World, ops: seq<Op>, key: string)
    requires Inv(w) && IsRun(w, ops) && Window(ops, key) && Dispatched(CallOf(w, key))
    ensures SameDispatch(CallOf(w, key), CallOf(Run(w, ops), key))
    ensures var r := CallOf(Run(w, ops), key).record.value;
            r.dispatchToken == Some(r.token) && r.published && r.dispatchRequest.Some? && r.dispatchRequest.value in r.claims
    decreases |ops|
  {
    assert CallOk(key, CallOf(w, key), w.now);
    if ops != [] {
      FirstStep(w, ops, key);
      DispatchFrozenByStep(w, ops[0], key);
      OwnerNeverChanges(Apply(w, ops[0]), ops[1..], key);
    }
  }

  /** Every claimable request was published at or after time t. */
  ghost predicate ClaimsSince(c: Call, t: nat) {
    IsAdmitted(c) ==> forall e :: e in c.record.value.claims ==> e.ms >= t
  }

  lemma ClaimsSinceKept(w: World, op: Op, key: string, t: nat)
    requires Inv(w) && Possible(w, op) && t <= w.now && ClaimsSince(CallOf(w, key), t)
    ensures ClaimsSince(CallOf(Apply(w, op), key), t)
  {
    if op != On(key, ExpireKey) {
      MovesOf(w, op, key);
    }
  }

  lemma {:induction false} ClaimsSinceRun(w: World, ops: seq<Op>, key: string, t: nat)
    requires Inv(w) && IsRun(w, ops) && t <= w.now && ClaimsSince(CallOf(w, key), t)
    ensures ClaimsSince(CallOf(Run(w, ops), key), t)
    decreases |ops|
  {
    if ops != [] {
      StepKeepsInv(w, ops[0]);
      ClaimsSinceKept(w, ops[0], key, t);
      ClaimsSinceRun(Apply(w, ops[0]), ops[1..], key, t);
    }
  }

  /**
   * After expiry and re-admission of the same identity, no request event of the
   * old record can claim, or be decided against, the new one.
   */
  lemma OldRequestsNeverClaimAgain(w: World, ops: seq<Op>, key: string, p: Provider)
    requires Inv(w) && IsAdmitted(CallOf(w, key)) && !Retained(CallOf(w, key), w.now)
    requires p.key == key && p.request in CallOf(w, key).record.value.claims
    requires IsRun(Apply(w, On(key, ExpireKey)), ops)
    ensures var n := Run(Apply(w, On(key, ExpireKey)), ops);
            && !Claimable(CallOf(n, key), p)
            && Claim(n, p) == CallOf(n, key)
            && ClaimReplyOf(n, p) != Execute && ClaimReplyOf(n, p) != AlreadyClaimed
  {
    assert CallOk(key, CallOf(w, key), w.now);
    var gone := Apply(w, On(key, ExpireKey));
    StepKeepsInv(w, On(key, ExpireKey));
    ClaimsSinceRun(gone, ops, key, w.now);
  }

  // ---------------------------------------------------------------------
  // Terminal causes tell the truth
  // ---------------------------------------------------------------------

  predicate IsTerminal(c: Call) {
    IsAdmitted(c) && c.record.value.terminal
  }

  /** The cause says no provider executed it. */
  predicate Denied(c: Call) {
    IsRejected(c) || (IsTerminal(c) && c.record.value.terminalCause == Some(StaleAdmission))
  }

  /** The operation that commits a terminal result commits it on the right side of the deadline. */
  lemma CauseFitsTheClock(w: World, op: Op, key: string)
    requires Inv(w) && Possible(w, op)
    requires !IsTerminal(CallOf(w, key)) && IsTerminal(CallOf(Apply(w, op), key))
    ensures IsAdmitted(CallOf(w, key))
    ensures var r := CallOf(Apply(w, op), key).record.value;
            && r.terminalCause.Some? && r.deadline == CallOf(w, key).record.value.deadline
            && (EarlyCause(r.terminalCause.value) <==> w.now < r.deadline)
  {
    MovesOf(w, op, key);
    assert CallOk(key, CallOf(w, key), w.now);
  }

  predicate SameTerminal(a: Call, b: Call)
    requires IsTerminal(a)
  {
    IsTerminal(b) &&
    var r, s := a.record.value, b.record.value;
    && s.terminalPayload == r.terminalPayload && s.terminalDigest == r.terminalDigest
    && s.terminalCause == r.terminalCause && s.deadline == r.deadline && s.token == r.token
  }

  lemma TerminalFrozenByStep(w: World, op: Op, key: string)
    requires Inv(w) && Possible(w, op) && op != On(key, ExpireKey) && IsTerminal(CallOf(w, key))
    ensures SameTerminal(CallOf(w, key), CallOf(Apply(w, op), key))
  {
    MovesOf(w, op, key);
    assert CallOk(key, CallOf(w, key), w.now);
  }

  /** Terminal freeze: payload, digest and cause never change once committed. */
  lemma {:induction false} TerminalNeverChanges(w: World, ops: seq<Op>, key: string)
    requires Inv(w) && IsRun(w, ops) && Window(ops, key) && IsTerminal(CallOf(w, key))
    ensures SameTerminal(CallOf(w, key), CallOf(Run(w, ops), key))
    decreases |ops|
  {
    if ops != [] {
      FirstStep(w, ops, key);
      TerminalFrozenByStep(w, ops[0], key);
      TerminalNeverChanges(Apply(w, ops[0]), ops[1..], key);
    }
  }

  /** A terminal found at the end was committed by one operation of the run, at a time its cause tells truthfully. */
  lemma {:induction false} TerminalWasCommittedOnTime(w: World, ops: seq<Op>, key: string) returns (i: nat)
    requires Inv(w) && IsRun(w, ops) && Window(ops, key)
    requires !IsTerminal(CallOf(w, key)) && IsTerminal(CallOf(Run(w, ops), key))
    ensures i < |ops|
    ensures var before, after, r := Run(w, ops[..i]), Run(w, ops[..i + 1]), CallOf(Run(w, ops), key).record.value;
            && !IsTerminal(CallOf(before, key)) && IsTerminal(CallOf(after, key))
            && SameTerminal(CallOf(after, key), CallOf(Run(w, ops), key))
            && r.terminalCause.Some?
            && (EarlyCause(r.terminalCause.value) <==> before.now < r.deadline)
    decreases |ops|
  {
    var n := Apply(w, ops[0]);
    FirstStep(w, ops, key);
    if IsTerminal(CallOf(n, key)) {
      i := 0;
      assert ops[..1] == [ops[0]] && ops[..1][1..] == [];
      CauseFitsTheClock(w, ops[0], key);
      TerminalNeverChanges(n, ops[1..], key);
    } else {
      i := TerminalWasCommittedOnTime(n, ops[1..], key);
      assert ops[..i + 1][1..] == ops[1..][..i] && ops[..i + 2][1..] == ops[1..][..i + 1];
      i := i + 1;
    }
  }

  lemma DenialFrozenByStep(w: World, op: Op, key: string)
    requires Inv(w) && Possible(w, op) && op != On(key, ExpireKey) && Denied(CallOf(w, key))
    ensures Denied(CallOf(Apply(w, op), key))
    ensures IsRejected(CallOf(w, key)) ==> CallOf(Apply(w, op), key).record == CallOf(w, key).record
  {
    MovesOf(w, op, key);
    assert CallOk(key, CallOf(w, key), w.now);
  }

  lemma {:induction false} DenialNeverChanges(w: World, ops: seq<Op>, key: string)
    requires Inv(w) && IsRun(w, ops) && Window(ops, key) && Denied(CallOf(w, key))
    ensures Denied(CallOf(Run(w, ops), key))
    ensures IsRejected(CallOf(w, key)) ==> CallOf(Run(w, ops), key).record == CallOf(w, key).record
    decreases |ops|
  {
    if ops != [] {
      FirstStep(w, ops, key);
      DenialFrozenByStep(w, ops[0], key);
      DenialNeverChanges(Apply(w, ops[0]), ops[1..], key);
    }
  }

  /**
   * Terminal causes tell the truth. From the start of a window: a rejection or
   * a stale-admission terminal means execution was never granted, and never
   * will be in that window; every other terminal means it was granted once.
   */
  lemma TerminalCausesTellTheTruth(w: World, ops: seq<Op>, more: seq<Op>, key: string)
    requires Inv(w) && IsRun(w, ops) && Window(ops, key) && CallOf(w, key).record.None?
    requires IsRun(Run(w, ops), more) && Window(more, key)
    ensures Denied(CallOf(Run(w, ops), key)) ==>
              Grants(w, ops, key) == 0 && Grants(Run(w, ops), more, key) == 0
    ensures IsTerminal(CallOf(Run(w, ops), key)) && !Denied(CallOf(Run(w, ops), key)) ==>
              Grants(w, ops, key) == 1 && Grants(Run(w, ops), more, key) == 0
  {
    var n := Run(w, ops);
    EveryRunKeepsInv(w, ops);
    EveryRunKeepsInv(n, more);
    assert CallOk(key, CallOf(n, key), n.now);
    GrantsAreConserved(w, ops, key);
    GrantsAreConserved(n, more, key);
    if Denied(CallOf(n, key)) {
      DenialNeverChanges(n, more, key);
      assert CallOk(key, CallOf(Run(n, more), key), Run(n, more).now);
    }
  }

  // ---------------------------------------------------------------------
  // Result streams
  // ---------------------------------------------------------------------

  /** Once the result is committed, only restoration appends to the result stream. */
  lemma OnlyRestoreAppendsAfterTerminal(w: World, key: string, op: CallOp)
    requires Inv(w) && PossibleOn(CallOf(w, key), key, op) && IsTerminal(CallOf(w, key))
    requires !op.RestoreOp? && !op.LoseResults? && !op.ExpireKey?
    ensures ApplyOn(w, key, op).results == CallOf(w, key).results
  {
    assert CallOk(key, CallOf(w, key), w.now);
  }

  /**
   * Whatever part of the stream was lost, restoring leaves the committed payload
   * as the newest event, under the ID the record names.
   */
  lemma RestoreReestablishesTerminal(w: World, ops: seq<Op>, key: string)
    requires Inv(w) && IsRun(w, ops) && Window(ops, key) && IsTerminal(CallOf(w, key))
    requires Retained(CallOf(Run(w, ops), key), Run(w, ops).now)
    ensures var n := Restore(CallOf(Run(w, ops), key), Run(w, ops).now);
            && IsTerminal(n) && SameTerminal(CallOf(w, key), n)
            && n.record.value.terminalEvent.Some? && n.record.value.terminalPayload.Some?
            && n.results.events != []
            && n.results.events[|n.results.events| - 1] ==
               Event(n.record.value.terminalEvent.value, Message(n.record.value.terminalPayload.value))
  {
    TerminalNeverChanges(w, ops, key);
    EveryRunKeepsInv(w, ops);
    assert CallOk(key, CallOf(Run(w, ops), key), Run(w, ops).now);
    RestoreLeavesTerminalNewest(key, CallOf(Run(w, ops), key), Run(w, ops).now);
  }

  lemma RestoreLeavesTerminalNewest(key: string, c: Call, now: nat)
    requires CallOk(key, c, now) && IsTerminal(c) && Retained(c, now)
    ensures var n := Restore(c, now);
            && IsTerminal(n) && SameTerminal(c, n)
            && n.record.value.terminalEvent.Some? && n.record.value.terminalPayload.Some?
            && n.results.events != []
            && n.results.events[|n.results.events| - 1] ==
               Event(n.record.value.terminalEvent.value, Message(n.record.value.terminalPayload.value))
  {
    if !LostTerminal(c, now) {
      var last := |c.results.events| - 1;
      var i :| 0 <= i <= last && c.results.events[i].id == c.record.value.terminalEvent.value;
      assert AtOrBefore(c.results.events[last].id, c.results.events[i].id);
    } else {
      PushKeepsEvents(c.results, now, Message(c.record.value.terminalPayload.value));
    }
  }

  predicate DeltaStep(w: World, op: Op, key: string) {
    op.On? && op.key == key && op.op.LiveOp? && op.op.provider.key == key && AcceptsDelta(w, op.op.provider)
  }

  function Deltas(w: World, ops: seq<Op>, key: string): nat
    decreases |ops|
  {
    if ops == [] then 0
    else (if DeltaStep(w, ops[0], key) then 1 else 0) + Deltas(Apply(w, ops[0]), ops[1..], key)
  }

  function DeltaCount(c: Call): nat {
    if IsAdmitted(c) then c.record.value.deltas else 0
  }

  lemma DeltaStepCounts(w: World, op: Op, key: string)
    requires Inv(w) && Possible(w, op) && op != On(key, ExpireKey)
    ensures DeltaCount(CallOf(Apply(w, op), key)) ==
            DeltaCount(CallOf(w, key)) + (if DeltaStep(w, op, key) then 1 else 0)
  {
    MovesOf(w, op, key);
    assert CallOk(key, CallOf(w, key), w.now);
  }

  /** Output fragments are counted exactly, and never exceed their limit within a window. */
  lemma {:induction false} DeltasAreBounded(w: World, ops: seq<Op>, key: string)
    requires Inv(w) && IsRun(w, ops) && Window(ops, key)
    ensures DeltaCount(CallOf(w, key)) + Deltas(w, ops, key) == DeltaCount(CallOf(Run(w, ops), key)) <= MAX_DELTAS
    decreases |ops|
  {
    if ops != [] {
      FirstStep(w, ops, key);
      DeltaStepCounts(w, ops[0], key);
      DeltasAreBounded(Apply(w, ops[0]), ops[1..], key);
    } else {
      assert CallOk(key, CallOf(w, key), w.now);
    }
  }

  // ---------------------------------------------------------------------
  // Generation fence
  // ---------------------------------------------------------------------

  /** The token was retired or replaced. */
  predicate Tombstoned(w: World, t: Catalog.Token) {
    t.toolset in w.catalog && t in w.catalog[t.toolset].retired
  }

  predicate Replaced(w: World, t: Catalog.Token) {
    Tombstoned(w, t) && w.catalog[t.toolset].token != t
  }

  lemma FenceKept(w: World, op: Op, t: Catalog.Token)
    requires Inv(w) && Possible(w, op) && Tombstoned(w, t)
    ensures Tombstoned(Apply(w, op), t)
    ensures Replaced(w, t) ==> Replaced(Apply(w, op), t)
  {
    if op.CatalogSwap? && op.name == t.toolset {
      Catalog.StepKeepsTombstones(op.name, w.catalog[op.name], op.action, op.at);
      Catalog.StepKeepsValid(op.name, Some(w.catalog[op.name]), op.action, op.at);
    }
  }

  /** The operation publishes or republishes a request under this token. */
  predicate PublishesUnder(w: World, op: Op, t: Catalog.Token) {
    op.On? && Publishes(w, op.key, op.op) && op.op.token == t
  }

  /** The operation grants execution to, or accepts the result of, a provider of this generation. */
  predicate ServesUnder(w: World, op: Op, t: Catalog.Token) {
    op.On? &&
    ((op.op.ClaimOp? && op.op.provider.callToken == t && GrantsExecution(w, op.op.provider)) ||
     (op.op.CompleteOp? && op.op.provider.callToken == t && Authorized(w, op.op.provider) &&
      !CallOf(w, op.op.provider.key).record.value.terminal))
  }

  function Uses(w: World, ops: seq<Op>, uses: (World, Op) -> bool): nat
    decreases |ops|
  {
    if ops == [] then 0
    else (if uses(w, ops[0]) then 1 else 0) + Uses(Apply(w, ops[0]), ops[1..], uses)
  }

  lemma TombstonePublishesNothing(w: World, op: Op, t: Catalog.Token)
    requires Inv(w) && Tombstoned(w, t)
    ensures !PublishesUnder(w, op, t)
  {
    if op.On? && op.op.PublishOp? && op.op.digest.toolset in w.catalog {
      assert Catalog.Valid(op.op.digest.toolset, w.catalog[op.op.digest.toolset]);
    }
  }

  lemma ReplacedServesNothing(w: World, op: Op, t: Catalog.Token)
    requires Inv(w) && Replaced(w, t)
    ensures !ServesUnder(w, op, t)
  {
    if op.On? && (op.op.ClaimOp? || op.op.CompleteOp?) {
      var p := op.op.provider;
      assert CallOk(p.key, CallOf(w, p.key), w.now);
      if p.toolset in w.catalog {
        assert Catalog.Valid(p.toolset, w.catalog[p.toolset]);
      }
    }
  }

  /** Once a token is retired or replaced, no call bound to it is ever published or republished. */
  lemma {:induction false} RetiredGenerationNeverPublishes(w: World, ops: seq<Op>, t: Catalog.Token)
    requires Inv(w) && IsRun(w, ops) && Tombstoned(w, t)
    ensures Uses(w, ops, (u, op) => PublishesUnder(u, op, t)) == 0
    decreases |ops|
  {
    if ops != [] {
      TombstonePublishesNothing(w, ops[0], t);
      FenceKept(w, ops[0], t);
      StepKeepsInv(w, ops[0]);
      RetiredGenerationNeverPublishes(Apply(w, ops[0]), ops[1..], t);
    }
  }

  /**
   * Once a token is replaced, no call bound to it is ever granted execution, and
   * no provider commits a result for such a call.
   */
  lemma {:induction false} ReplacedGenerationNeverServes(w: World, ops: seq<Op>, t: Catalog.Token)
    requires Inv(w) && IsRun(w, ops) && Replaced(w, t)
    ensures Uses(w, ops, (u, op) => ServesUnder(u, op, t)) == 0
    decreases |ops|
  {
    if ops != [] {
      ReplacedServesNothing(w, ops[0], t);
      FenceKept(w, ops[0], t);
      StepKeepsInv(w, ops[0]);
      ReplacedGenerationNeverServes(Apply(w, ops[0]), ops[1..], t);
    }
  }

  /** Conversely, a provider result is only ever committed by such a serving operation. */
  lemma ProviderResultNeedsService(w: World, op: Op, key: string)
    requires Inv(w) && Possible(w, op)
    requires !IsTerminal(CallOf(w, key)) && IsTerminal(CallOf(Apply(w, op), key))
    requires CallOf(Apply(w, op), key).record.value.terminalCause == Some(ProviderResult)
    ensures ServesUnder(w, op, CallOf(Apply(w, op), key).record.value.token)
  {
    assert CallOk(key, CallOf(w, key), w.now);
    if op.On? && op.key == key {
      OnlyCompletionCommitsResults(w, key, op.op);
    }
  }

  lemma OnlyCompletionCommitsResults(w: World, key: string, op: CallOp)
    requires CallOk(key, CallOf(w, key), w.now) && PossibleOn(CallOf(w, key), key, op)
    requires !IsTerminal(CallOf(w, key)) && IsTerminal(ApplyOn(w, key, op))
    requires ApplyOn(w, key, op).record.value.terminalCause == Some(ProviderResult)
    ensures op.CompleteOp? && Authorized(w, op.provider) && op.provider.callToken == ApplyOn(w, key, op).record.value.token
  {
  }

  // ---------------------------------------------------------------------
  // Exact lease listing
  // ---------------------------------------------------------------------

  /** In no lease index and without membership. */
  predicate Unlisted(c: Call) {
    c.listed == {} && c.member.None?
  }

  /** Listed under exactly its owner while in flight and retained, and under no lease once finished. */
  ghost predicate ListedExactly(c: Call, now: nat) {
    if InFlight(c)
    then (c.member == Some(OwnerOf(c)) && c.listed == {OwnerOf(c)}) || (!Retained(c, now) && Unlisted(c))
    else Unlisted(c)
  }

  ghost predicate AllListed(w: World) {
    forall k :: ListedExactly(CallOf(w, k), w.now)
  }

  /**
   * What leaves a listing behind or takes one away too early: a key that expires
   * while its claimed call is neither finished nor swept, a sweep that runs under
   * a lease index it read before the identity was claimed anew, and a cleanup
   * that races with a new claim.
   */
  ghost predicate Untidy(w: World, op: Op) {
    op.On? &&
    var c := CallOf(w, op.key);
    InFlight(c) &&
    match op.op
    case ExpireKey => !Retained(c, w.now) && c.member.Some?
    case SettleOp(index, _) => c.member.Some? && !StillWorking(w, c) && index != OwnerOf(c)
    case CleanupOp(_) => Retained(c, w.now)
    case _ => false
  }

  ghost predicate TidyRun(w: World, ops: seq<Op>)
    decreases |ops|
  {
    ops == [] || (!Untidy(w, ops[0]) && TidyRun(Apply(w, ops[0]), ops[1..]))
  }

  lemma ListingKeptByProvider(w: World, p: Provider, payload: Payload)
    requires Inv(w) && ListedExactly(CallOf(w, p.key), w.now)
    ensures ListedExactly(Claim(w, p), w.now)
    ensures ListedExactly(Complete(w, p, payload), w.now)
    ensures ListedExactly(ReportOverload(w, p), w.now)
  {
    assert CallOk(p.key, CallOf(w, p.key), w.now);
  }

  lemma ListingKeptBySweep(w: World, key: string, op: CallOp)
    requires ListedExactly(CallOf(w, key), w.now) && (op.ExpireKey? || op.SettleOp? || op.CleanupOp?)
    ensures ListedExactly(ApplyOn(w, key, op), w.now) <==> !Untidy(w, On(key, op))
  {
    var c := CallOf(w, key);
    forall o: Owner ensures c.listed == {} ==> c.listed - {o} == {} {
    }
    if InFlight(c) && c.member.Some? {
      forall o: Owner ensures c.listed - {o} == if o == OwnerOf(c) then {} else {OwnerOf(c)} {
      }
    }
  }

  lemma ListingKeptOn(w: World, key: string, op: CallOp)
    requires Inv(w) && PossibleOn(CallOf(w, key), key, op) && ListedExactly(CallOf(w, key), w.now)
    ensures ListedExactly(ApplyOn(w, key, op), w.now) <==> !Untidy(w, On(key, op))
  {
    assert CallOk(key, CallOf(w, key), w.now);
    match op {
      case ClaimOp(p) => ListingKeptByProvider(w, p, StalePayload(p.callToken, key));
      case CompleteOp(p, payload) => ListingKeptByProvider(w, p, payload);
      case OverloadOp(p) => ListingKeptByProvider(w, p, StalePayload(p.callToken, key));
      case ExpireKey => ListingKeptBySweep(w, key, op);
      case SettleOp(_, _) => ListingKeptBySweep(w, key, op);
      case CleanupOp(_) => ListingKeptBySweep(w, key, op);
      case _ =>
    }
  }

  /** One step keeps every listing exact if and only if it is tidy. */
  lemma ListingKeptExactlyWhenTidy(w: World, op: Op)
    requires Inv(w) && Possible(w, op) && AllListed(w)
    ensures AllListed(Apply(w, op)) <==> !Untidy(w, op)
  {
    var n := Apply(w, op);
    if op.On? {
      assert ListedExactly(CallOf(w, op.key), w.now);
      ListingKeptOn(w, op.key, op.op);
      assert CallOf(n, op.key) == ApplyOn(w, op.key, op.op);
      assert AllListed(n) ==> ListedExactly(CallOf(n, op.key), n.now);
    }
    forall k | !(op.On? && op.key == k) ensures ListedExactly(CallOf(n, k), n.now) {
      assert ListedExactly(CallOf(w, k), w.now);
    }
  }

  /** On every tidy run, through any number of windows, calls are listed under exactly their owners. */
  lemma {:induction false} CallsAreListedExactly(w: World, ops: seq<Op>)
    requires Inv(w) && IsRun(w, ops) && TidyRun(w, ops) && AllListed(w)
    ensures AllListed(Run(w, ops))
    decreases |ops|
  {
    if ops != [] {
      StepKeepsInv(w, ops[0]);
      ListingKeptExactlyWhenTidy(w, ops[0]);
      CallsAreListedExactly(Apply(w, ops[0]), ops[1..]);
    }
  }

  /** A window starts without old listings exactly when the call before it was finished or swept. */
  lemma WindowStartsCleanExactly(w: World, key: string)
    requires Inv(w) && ListedExactly(CallOf(w, key), w.now)
    requires CallOf(w, key).record.Some? && !Retained(CallOf(w, key), w.now)
    ensures Unlisted(CallOf(Apply(w, On(key, ExpireKey)), key)) <==>
            !InFlight(CallOf(w, key)) || CallOf(w, key).member.None?
  {
    ListingKeptOn(w, key, ExpireKey);
  }

  // ---------------------------------------------------------------------
  // The request stream inside the protocol
  // ---------------------------------------------------------------------

  /** What an operation is, seen from one toolset's request stream. */
  function StreamView(w: World, op: Op, name: string): seq<RequestStream.Op> {
    match op
    case StreamOp(n, o) => if n == name then [o] else []
    case On(key, o) =>
      if Publishes(w, key, o) && o.digest.toolset == name then [RequestStream.Call(w.now, o.reclaimed)] else []
    case _ => []
  }

  function StreamRun(w: World, ops: seq<Op>, name: string): seq<RequestStream.Op>
    decreases |ops|
  {
    if ops == [] then []
    else StreamView(w, ops[0], name) + StreamRun(Apply(w, ops[0]), ops[1..], name)
  }

  lemma StepRefinesStream(w: World, op: Op, name: string)
    ensures StreamOf(Apply(w, op), name) ==
            RequestStream.Run(StreamOf(w, name), StreamView(w, op, name), MAX_QUEUED_CALLS)
  {
    var view := StreamView(w, op, name);
    if view != [] {
      assert view[1..] == [];
      assert RequestStream.Run(RequestStream.Step(StreamOf(w, name), view[0], MAX_QUEUED_CALLS), [], MAX_QUEUED_CALLS) ==
             RequestStream.Step(StreamOf(w, name), view[0], MAX_QUEUED_CALLS);
    }
  }

  lemma {:induction false} StreamRunConcat(s: RequestStream.Stream, a: seq<RequestStream.Op>, b: seq<RequestStream.Op>, bound: nat)
    ensures RequestStream.Run(s, a + b, bound) == RequestStream.Run(RequestStream.Run(s, a, bound), b, bound)
    decreases |a|
  {
    if a == [] {
      assert a + b == b;
    } else {
      assert (a + b)[1..] == a[1..] + b;
      StreamRunConcat(RequestStream.Step(s, a[0], bound), a[1..], b, bound);
    }
  }

  /** The protocol drives each request stream only through the stream's own operations. */
  lemma {:induction false} ProtocolRefinesStream(w: World, ops: seq<Op>, name: string)
    ensures StreamOf(Run(w, ops), name) ==
            RequestStream.Run(StreamOf(w, name), StreamRun(w, ops, name), MAX_QUEUED_CALLS)
    decreases |ops|
  {
    if ops != [] {
      StepRefinesStream(w, ops[0], name);
      StreamRunConcat(StreamOf(w, name), StreamView(w, ops[0], name),
        StreamRun(Apply(w, ops[0]), ops[1..], name), MAX_QUEUED_CALLS);
      ProtocolRefinesStream(Apply(w, ops[0]), ops[1..], name);
    }
  }

  /**
   * An admitted call is never silently trimmed away: on every run of the whole
   * protocol, a request some consumer group has not acknowledged is still there.
   */
  lemma UnacknowledgedRequestsSurvive(w: World, ops: seq<Op>, name: string, g: nat, id: Id)
    requires Inv(w) && IsRun(w, ops)
    requires var s := StreamOf(w, name);
             g < |s.groups| && RequestStream.Open(s.groups[g], id) && RequestStream.Holds(s.items, id)
    requires RequestStream.Ack(g, id) !in StreamRun(w, ops, name)
    ensures RequestStream.Holds(StreamOf(Run(w, ops), name).items, id)
  {
    ProtocolRefinesStream(w, ops, name);
    RequestStream.UnacknowledgedWorkIsNeverTrimmed(StreamOf(w, name), StreamRun(w, ops, name), MAX_QUEUED_CALLS, g, id);
  }

  /** Backlog bound: on every run of the whole protocol no group of any toolset exceeds it. */
  lemma ProtocolBacklogStaysBounded(w: World, ops: seq<Op>, name: string)
    requires Inv(w) && IsRun(w, ops) && RequestStream.Bounded(StreamOf(w, name), MAX_QUEUED_CALLS)
    ensures RequestStream.Bounded(StreamOf(Run(w, ops), name), MAX_QUEUED_CALLS)
  {
    ProtocolRefinesStream(w, ops, name);
    RequestStream.BacklogStaysBounded(StreamOf(w, name), StreamRun(w, ops, name), MAX_QUEUED_CALLS);
  }
}
