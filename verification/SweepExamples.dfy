/**
 * Runs from the empty registry, within the limits of the service, on which a
 * settlement promise fails: two drains that collide, a cleanup that races with a
 * new claim, a release blocked by a listing from an earlier window, and a drain
 * that stops before an overdue call.
 */
module SweepExamples {
  import opened Basics
  import Catalog
  import opened Records
  import opened CallProtocol
  import opened CallInvariants
  import opened CallTheorems
  import opened Settlement
  import opened Sweeps
  import opened SweepDebts
  import opened ServiceLimits
  import opened ExampleRuns

  // ---------------------------------------------------------------------
  // Sweeps within the limits
  // ---------------------------------------------------------------------

  /** A sweep that starts in `w` goes through these acts to `n`, everybody keeping to the limits. */
  ghost predicate Plays(w: World, job: Job, acts: seq<Act>, n: Sweeper) {
    IsSweep(Begin(w, job), acts) && After(Begin(w, job), acts) == n && Leads(w, OpsOf(Begin(w, job), acts), n.world)
  }

  lemma {:induction false} PlaysNothing(w: World, job: Job)
    ensures Plays(w, job, [], Begin(w, job))
  {
  }

  /** One more act. */
  lemma {:induction false} PlaysOn(w: World, job: Job, acts: seq<Act>, n: Sweeper, act: Act)
    requires Plays(w, job, acts, n) && Enabled(n, act)
    requires OpOf(n, act).Some? ==> Observes(n.world, OpOf(n, act).value)
    ensures Plays(w, job, acts + [act], Next(n, act))
  {
    var m := Begin(w, job);
    SweepStep(m, acts, act);
    assert (acts + [act])[..|acts|] == acts;
    if OpOf(n, act).Some? {
      OwnOpIsPossible(n, act);
      LeadsThen(w, OpsOf(m, acts), n.world, OpOf(n, act).value);
    } else {
      assert OpsOf(m, acts + [act]) == OpsOf(m, acts);
    }
  }

  function Others(ops: seq<Op>): seq<Act> {
    if ops == [] then [] else [Other(ops[0])] + Others(ops[1..])
  }

  lemma {:induction false} PlaysFirst(w: World, job: Job, acts: seq<Act>, n: Sweeper, ops: seq<Op>, e: World)
    requires Plays(w, job, acts, n) && Leads(n.world, ops, e) && ops != []
    ensures Plays(w, job, acts + [Other(ops[0])], n.(world := Apply(n.world, ops[0])))
    ensures Leads(Apply(n.world, ops[0]), ops[1..], e)
  {
    LeadsFirst(n.world, ops, e);
    PlaysOn(w, job, acts, n, Other(ops[0]));
  }

  /** A stretch in which only others act. */
  lemma {:induction false} PlaysOthers(w: World, job: Job, acts: seq<Act>, n: Sweeper, ops: seq<Op>, e: World)
    requires Plays(w, job, acts, n) && Leads(n.world, ops, e)
    ensures Plays(w, job, acts + Others(ops), n.(world := e))
    decreases |ops|
  {
    if ops == [] {
      assert acts + Others(ops) == acts && n.world == e;
      assert n.(world := e) == n;
    } else {
      var one, next := acts + [Other(ops[0])], n.(world := Apply(n.world, ops[0]));
      PlaysFirst(w, job, acts, n, ops, e);
      OthersFirst(acts, ops);
      PlaysOthers(w, job, one, next, ops[1..], e);
      assert next.(world := e) == n.(world := e);
    }
  }

  lemma {:induction false} OthersFirst(acts: seq<Act>, ops: seq<Op>)
    requires ops != []
    ensures acts + Others(ops) == (acts + [Other(ops[0])]) + Others(ops[1..])
  {
  }

  const LONG := Terms("p1", 1000001, 50000, 660000)

  // ---------------------------------------------------------------------
  // Two drains collide
  // ---------------------------------------------------------------------

  /** Claimed by p1 and due at its deadline, which is now. */
  predicate DueNow(w: World, key: string) {
    var c := CallOf(w, key);
    && InFlight(c) && OwnerOf(c) == OwnerBy("p1") && c.member == Some(OwnerBy("p1")) && OwnerBy("p1") in c.listed
    && c.due == Some(w.now) && c.record.value.deadline == w.now && Retained(c, w.now)
  }

  ghost predicate BothDue(w: World) {
    Sound(w) && DueNow(w, "a") && DueNow(w, "b") && Only(w, {"a", "b"})
  }

  /** Claimed at time 1 on the long terms. */
  ghost predicate ClaimedLong(w: World, key: string) {
    exists before: World :: before.now == 1 && CallOf(w, key) == OpenedCall(before, key, LONG)
  }

  lemma {:induction false} TwoCallsOpen() returns (ops: seq<Op>, w: World)
    ensures Leads(INITIAL, ops, w) && w.now == 1 && Only(w, {"a", "b"})
    ensures ClaimedLong(w, "a") && ClaimedLong(w, "b")
  {
    var start, w0 := Starts(1000000, 1000000);
    var w1 := OpensCall(w0, "a", LONG, 0);
    w := OpensCall(w1, "b", LONG, 1);
    assert CallOf(w, "a") == OpenedCall(w0, "a", LONG) && CallOf(w, "b") == OpenedCall(w1, "b", LONG);
    LeadsOn(INITIAL, start, w0, OpenOps(w0, "a", LONG), w1);
    LeadsOn(INITIAL, start + OpenOps(w0, "a", LONG), w1, OpenOps(w1, "b", LONG), w);
    ops := start + OpenOps(w0, "a", LONG) + OpenOps(w1, "b", LONG);
  }

  lemma {:induction false} TwoCallsDue() returns (ops: seq<Op>, w: World)
    ensures Leads(INITIAL, ops, w) && BothDue(w)
  {
    var first, w0 := TwoCallsOpen();
    w := Apply(w0, Tick(50000));
    LeadsThen(INITIAL, first, w0, Tick(50000));
    ops := first + [Tick(50000)];
    assert forall k :: CallOf(w, k) == CallOf(w0, k);
    ReachesSound(ops, w, {"a", "b"});
  }

  lemma {:induction false} BothAreRead(w: World)
    requires BothDue(w)
    ensures IsBatch(w, w.now, ["a", "b"], BATCH)
    ensures InIndexOrder(w, ["a", "b"]) && Drainable(w, ["a", "b"], BATCH)
  {
    forall k ensures k in ["a", "b"] <==> IsDue(w, k) {
      assert k == "a" || k == "b" || CallOf(w, k) == NO_CALL;
    }
    forall k | DueBy(w, k, w.now) ensures k in ["a", "b"] {
      assert IsDue(w, k);
    }
  }

  /** The first operations of a drain that finds a and b due. */
  lemma {:induction false} DrainReads(w: World)
    requires BothDue(w)
    ensures Plays(w, DrainDue(BATCH), [ReadClock] + [ReadKeys(["a", "b"])] + [ReadIdentity],
                  Sweeper(w, DrainDue(BATCH), Looking(Round(w.now, ["a", "b"], 0, 0))))
  {
    var job := DrainDue(BATCH);
    BothAreRead(w);
    PlaysNothing(w, job);
    PlaysOn(w, job, [], Begin(w, job), ReadClock);
    assert [] + [ReadClock] == [ReadClock];
    PlaysOn(w, job, [ReadClock], Sweeper(w, job, Listing(w.now)), ReadKeys(["a", "b"]));
    PlaysOn(w, job, [ReadClock] + [ReadKeys(["a", "b"])],
      Sweeper(w, job, Visiting(Round(w.now, ["a", "b"], 0, 0))), ReadIdentity);
  }

  const SETTLE_A := On("a", SettleOp(Owner(TOKEN, "p1"), ExecutionDeadline))

  /** The settle script finishes a and takes its membership; b is as it was. */
  lemma {:induction false} SettlesA(w: World)
    requires DueNow(w, "a")
    ensures Possible(w, SETTLE_A) && Observes(w, SETTLE_A)
    ensures var n := Apply(w, SETTLE_A);
            n.now == w.now && CallOf(n, "a").member.None? && CallOf(n, "b") == CallOf(w, "b")
  {
  }

  /** The first replica settles a. */
  lemma {:induction false} DrainOne(w: World) returns (acts: seq<Act>, n: Sweeper)
    requires BothDue(w)
    ensures Plays(w, DrainDue(BATCH), acts, n) && n.phase.Visiting? && n.world == Apply(w, SETTLE_A)
  {
    var job, read := DrainDue(BATCH), [ReadClock] + [ReadKeys(["a", "b"])] + [ReadIdentity];
    var r := Round(w.now, ["a", "b"], 0, 0);
    DrainReads(w);
    PlaysOn(w, job, read, Sweeper(w, job, Looking(r)), ReadMembership);
    PlaysOn(w, job, read + [ReadMembership], Sweeper(w, job, Settling(r, OwnerBy("p1"))), RunScript);
    acts, n := read + [ReadMembership] + [RunScript], Next(Sweeper(w, job, Settling(r, OwnerBy("p1"))), RunScript);
  }

  /** The second has read a's identity when that happens, and fails. */
  lemma {:induction false} DrainTwo(w: World) returns (acts: seq<Act>, n: Sweeper)
    requires BothDue(w)
    ensures Plays(w, DrainDue(BATCH), acts, n) && n.phase.Failed? && n.world == Apply(w, SETTLE_A)
  {
    var job, read := DrainDue(BATCH), [ReadClock] + [ReadKeys(["a", "b"])] + [ReadIdentity];
    var r := Round(w.now, ["a", "b"], 0, 0);
    DrainReads(w);
    SettlesA(w);
    PlaysOn(w, job, read, Sweeper(w, job, Looking(r)), Other(SETTLE_A));
    PlaysOn(w, job, read + [Other(SETTLE_A)], Sweeper(Apply(w, SETTLE_A), job, Looking(r)), ReadMembership);
    acts, n := read + [Other(SETTLE_A)] + [ReadMembership], Sweeper(Apply(w, SETTLE_A), job, Failed(r));
  }

  /** Two drains of the same registry, one of which failed with a call still overdue. */
  ghost predicate Collision(ops: seq<Op>, w: World, one: seq<Act>, m: Sweeper, two: seq<Act>, n: Sweeper) {
    && Leads(INITIAL, ops, w) && Sound(w)
    && InIndexOrder(w, ["a", "b"]) && Drainable(w, ["a", "b"], BATCH)
    && Plays(w, DrainDue(BATCH), one, m) && m.phase.Visiting?
    && Plays(w, DrainDue(BATCH), two, n) && n.phase.Failed?
    && m.world == n.world && OverdueAt(n.world, "b", w.now)
  }

  /**
   * Two replicas drain at the same time. Both read a and b due; the first settles
   * a; the second, which had already read a's identity, finds no membership and
   * fails with b still overdue, although each drain alone would have settled
   * both.
   */
  lemma {:induction false} TwoDrainsCollide()
    returns (ops: seq<Op>, w: World, one: seq<Act>, m: Sweeper, two: seq<Act>, n: Sweeper)
    ensures Collision(ops, w, one, m, two, n)
  {
    ops, w := TwoCallsDue();
    BothAreRead(w);
    SettlesA(w);
    one, m := DrainOne(w);
    two, n := DrainTwo(w);
  }

  // ---------------------------------------------------------------------
  // A cleanup races with a new claim
  // ---------------------------------------------------------------------

  /** The record of a claimed call has expired while its index entries remain. */
  ghost predicate Leftover(w: World) {
    && Sound(w) && w.now == 660001 && Serves(w, "p1", 1000001) && Serves(w, "p2", 2000001) && Handed(w, 1)
    && Only(w, {"a"})
    && var c := CallOf(w, "a");
    && c.record.None? && c.due == Some(50001) && c.member == Some(OwnerBy("p1")) && c.listed == {OwnerBy("p1")}
  }

  lemma {:induction false} CallExpires() returns (ops: seq<Op>, w: World)
    ensures Leads(INITIAL, ops, w) && Leftover(w)
  {
    var start, w0 := Starts(1000000, 2000000);
    var w1 := OpensCall(w0, "a", LONG, 0);
    w := Expires(w0, w1);
    LeadsOn(INITIAL, start, w0, OpenOps(w0, "a", LONG), w1);
    LeadsOn(INITIAL, start + OpenOps(w0, "a", LONG), w1, [Tick(660000)] + [On("a", ExpireKey)], w);
    ops := start + OpenOps(w0, "a", LONG) + ([Tick(660000)] + [On("a", ExpireKey)]);
    ReachesSound(ops, w, {"a"});
  }

  lemma {:induction false} Expires(w0: World, w1: World) returns (w: World)
    requires w0.now == 1 && CallOf(w0, "a") == NO_CALL && Same(w0, w1, "a") && CallOf(w1, "a") == OpenedCall(w0, "a", LONG)
    ensures Leads(w1, [Tick(660000)] + [On("a", ExpireKey)], w)
    ensures w.now == 660001 && w.catalog == w1.catalog && w.requests == w1.requests
    ensures forall k :: k != "a" ==> CallOf(w, k) == CallOf(w1, k)
    ensures var c := CallOf(w, "a");
            && c.record.None? && c.due == Some(50001) && c.member == Some(OwnerBy("p1")) && c.listed == {OwnerBy("p1")}
  {
    var late := Apply(w1, Tick(660000));
    assert CallOf(late, "a") == OpenedCall(w0, "a", LONG);
    assert {} + {OwnerBy("p1")} == {OwnerBy("p1")};
    w := Apply(late, On("a", ExpireKey));
    LeadsOne(w1, Tick(660000));
    LeadsThen(w1, [Tick(660000)], late, On("a", ExpireKey));
  }

  /** The drain finds the expired call due and its record gone. */
  lemma {:induction false} DrainFindsNothing(w: World)
    requires Leftover(w)
    ensures Plays(w, DrainDue(BATCH), [ReadClock] + [ReadKeys(["a"])] + [ReadIdentity],
                  Sweeper(w, DrainDue(BATCH), Cleaning(Round(w.now, ["a"], 0, 0))))
  {
    var job := DrainDue(BATCH);
    forall k | DueBy(w, k, w.now) ensures k in ["a"] {
      assert k == "a" || CallOf(w, k) == NO_CALL;
    }
    PlaysNothing(w, job);
    PlaysOn(w, job, [], Begin(w, job), ReadClock);
    assert [] + [ReadClock] == [ReadClock];
    PlaysOn(w, job, [ReadClock], Sweeper(w, job, Listing(w.now)), ReadKeys(["a"]));
    PlaysOn(w, job, [ReadClock] + [ReadKeys(["a"])], Sweeper(w, job, Visiting(Round(w.now, ["a"], 0, 0))), ReadIdentity);
  }

  const ANEW := Terms("p1", 1000001, 30000, 660000)

  /**
   * A drain sees no record and goes to clean up; meanwhile the identity is
   * admitted and claimed anew; the cleanup then takes the new claim out of the
   * indexes, and no sweep will ever settle it.
   */
  lemma {:induction false} CleanupRacesWithNewClaim()
    returns (ops: seq<Op>, w: World, acts: seq<Act>, m: Sweeper, n: Sweeper)
    ensures Leads(INITIAL, ops, w) && Sound(w)
    ensures Plays(w, DrainDue(BATCH), acts, m) && AllIndexed(m.world)
    ensures Plays(w, DrainDue(BATCH), acts + [RunScript], n) && !AllIndexed(n.world)
  {
    ops, w := CallExpires();
    var job, read := DrainDue(BATCH), [ReadClock] + [ReadKeys(["a"])] + [ReadIdentity];
    DrainFindsNothing(w);
    var e := OpensCall(w, "a", ANEW, 1);
    m := Sweeper(e, job, Cleaning(Round(w.now, ["a"], 0, 0)));
    PlaysOthers(w, job, read, m.(world := w), OpenOps(w, "a", ANEW), e);
    acts := read + Others(OpenOps(w, "a", ANEW));
    LeadsOn(INITIAL, ops, w, OpenOps(w, "a", ANEW), e);
    ReachesSound(ops + OpenOps(w, "a", ANEW), e, {"a"});
    PlaysOn(w, job, acts, m, RunScript);
    n := Next(m, RunScript);
    CleanupUnlists(e, "a");
  }

  /** The cleanup leaves the new claim without membership. */
  lemma {:induction false} CleanupUnlists(w: World, key: string)
    requires InFlight(CallOf(w, key)) && Retained(CallOf(w, key), w.now)
    ensures !AllIndexed(Apply(w, On(key, CleanupOp(None))))
  {
    var n := Apply(w, On(key, CleanupOp(None)));
    assert CallOf(n, key).member.None?;
    assert !IndexesOk(CallOf(n, key), n.now);
  }

  // ---------------------------------------------------------------------
  // A release blocked by an earlier window
  // ---------------------------------------------------------------------

  const SECOND := Terms("p2", 2000001, 30000, 660000)
  const RESULT := Payload(TOKEN, "a", Success("done"))

  /** Finished under p2, and listed under p1 since the window before. */
  ghost predicate Outlived(w: World) {
    Sound(w) && Only(w, {"a"}) &&
    var c := CallOf(w, "a");
    IsTerminal(c) && c.member.None? && c.listed == {OwnerBy("p1")}
  }

  /** After p1's window expired, p2 claims the identity anew and finishes it. */
  lemma {:induction false} FinishedUnderSecondLease() returns (ops: seq<Op>, w: World)
    ensures Leads(INITIAL, ops, w) && Outlived(w)
  {
    var first, w0 := CallExpires();
    var w1 := OpensCall(w0, "a", SECOND, 1);
    var complete := On("a", CompleteOp(ProviderFor("a", "p2", RequestOf(w0)), RESULT));
    Completes(w0, w1);
    w := Apply(w1, complete);
    LeadsOn(INITIAL, first, w0, OpenOps(w0, "a", SECOND), w1);
    LeadsThen(INITIAL, first + OpenOps(w0, "a", SECOND), w1, complete);
    ops := first + OpenOps(w0, "a", SECOND) + [complete];
    ReachesSound(ops, w, {"a"});
  }

  lemma {:induction false} Completes(w0: World, w1: World)
    requires w0.now == 660001 && Serves(w0, "p2", 2000001) && Same(w0, w1, "a") && CallOf(w0, "a").listed == {OwnerBy("p1")}
    requires CallOf(w1, "a") == OpenedCall(w0, "a", SECOND)
    ensures var op := On("a", CompleteOp(ProviderFor("a", "p2", RequestOf(w0)), RESULT));
            && Possible(w1, op) && Same(w0, Apply(w1, op), "a")
            && var c := CallOf(Apply(w1, op), "a"); IsTerminal(c) && c.due.None? && c.member.None? && c.listed == {OwnerBy("p1")}
  {
    assert Authorized(w1, ProviderFor("a", "p2", RequestOf(w0)));
    assert ({OwnerBy("p1")} + {OwnerBy("p2")}) - {OwnerBy("p2")} == {OwnerBy("p1")};
  }

  /** Then the release of p1, with nobody else at work, fails on that call. */
  lemma {:induction false} ReleaseCanFail() returns (ops: seq<Op>, w: World, n: Sweeper)
    ensures Leads(INITIAL, ops, w) && Sound(w) && n.phase.Failed?
    ensures Plays(w, ReleaseLease(OwnerBy("p1")), [Swap(w.now)] + [ReadKeys(["a"])] + [ReadIdentity] + [ReadMembership], n)
  {
    ops, w := FinishedUnderSecondLease();
    n := ReleaseFails(w);
  }

  lemma {:induction false} ReleaseFails(w: World) returns (n: Sweeper)
    requires Outlived(w)
    ensures n.phase.Failed?
    ensures Plays(w, ReleaseLease(OwnerBy("p1")), [Swap(w.now)] + [ReadKeys(["a"])] + [ReadIdentity] + [ReadMembership], n)
  {
    var job := ReleaseLease(OwnerBy("p1"));
    var r := Round(w.now, ["a"], 0, 0);
    PlaysNothing(w, job);
    PlaysOn(w, job, [], Begin(w, job), Swap(w.now));
    assert [] + [Swap(w.now)] == [Swap(w.now)];
    var e := Next(Begin(w, job), Swap(w.now)).world;
    forall k ensures k in ["a"] <==> OwnerBy("p1") in CallOf(e, k).listed {
      assert CallOf(e, k) == CallOf(w, k);
      assert k == "a" || CallOf(w, k) == NO_CALL;
    }
    PlaysOn(w, job, [Swap(w.now)], Sweeper(e, job, Listing(w.now)), ReadKeys(["a"]));
    PlaysOn(w, job, [Swap(w.now)] + [ReadKeys(["a"])], Sweeper(e, job, Visiting(r)), ReadIdentity);
    PlaysOn(w, job, [Swap(w.now)] + [ReadKeys(["a"])] + [ReadIdentity], Sweeper(e, job, Looking(r)), ReadMembership);
    n := Sweeper(e, job, Failed(r));
  }

  // ---------------------------------------------------------------------
  // A drain stops before an overdue call
  // ---------------------------------------------------------------------

  function Name(i: nat): string {
    seq(i + 1, _ => 'k')
  }

  function Names(n: nat): (names: seq<string>)
    ensures |names| == n && forall i :: 0 <= i < n ==> names[i] == Name(i)
  {
    seq(n, i requires i >= 0 => Name(i))
  }

  /** Claimed by p1 and without a result, retained until 660001, with these times. */
  predicate Waits(w: World, key: string, deadline: nat, due: nat) {
    var c := CallOf(w, key);
    && InFlight(c) && OwnerOf(c) == OwnerBy("p1") && c.member == Some(OwnerBy("p1")) && OwnerBy("p1") in c.listed
    && c.record.value.field == "tools" && c.record.value.expiresAt == 660001
    && c.due == Some(due) && c.record.value.deadline == deadline
  }

  /** Its deadline is far away, but its lease was to end at 45001. */
  predicate Slow(w: World, key: string) {
    Waits(w, key, 500001, 45001)
  }

  const SLOW := Terms("p1", 45001, 500000, 660000)

  ghost predicate SlowCalls(w: World, n: nat) {
    && (forall i: nat :: i < n ==> Slow(w, Name(i)))
    && (forall k :: k !in Names(n) ==> CallOf(w, k) == NO_CALL)
  }

  /** Any number of slow calls, claimed under a lease that ends long before their deadlines. */
  lemma {:induction false} ManyCalls(n: nat) returns (ops: seq<Op>, w: World)
    requires n < MAX_QUEUED_CALLS
    ensures Leads(INITIAL, ops, w)
    ensures w.now == 1 && Serves(w, "p1", 45001) && Handed(w, n) && SlowCalls(w, n)
  {
    if n == 0 {
      ops, w := Starts(45000, 45000);
    } else {
      var before, init := ManyCalls(n - 1);
      var key := Name(n - 1);
      assert key !in Names(n - 1) by {
        assert forall i: nat :: i < n - 1 ==> |Name(i)| != |key|;
      }
      w := OpensCall(init, key, SLOW, n - 1);
      ops := before + OpenOps(init, key, SLOW);
      LeadsOn(INITIAL, before, init, OpenOps(init, key, SLOW), w);
      OneMoreCall(init, w, n);
    }
  }

  lemma {:induction false} OneMoreCall(init: World, w: World, n: nat)
    requires n > 0 && init.now == 1 && SlowCalls(init, n - 1) && Name(n - 1) !in Names(n - 1)
    requires Same(init, w, Name(n - 1)) && CallOf(w, Name(n - 1)) == OpenedCall(init, Name(n - 1), SLOW)
    ensures SlowCalls(w, n)
  {
    forall i: nat | i < n ensures Slow(w, Name(i)) {
      if i < n - 1 {
        assert |Name(i)| != |Name(n - 1)|;
        assert Slow(init, Name(i));
      }
    }
    assert Names(n) == Names(n - 1) + [Name(n - 1)];
  }

  const URGENT := Terms("p1", 1000001, 50000, 660000)

  /** The lease is renewed, an urgent call is claimed, and its deadline passes. */
  lemma {:induction false} UrgentCall(w0: World, n: nat) returns (ops: seq<Op>, w: World)
    requires Inv(w0) && w0.now == 1 && Serves(w0, "p1", 45001) && Handed(w0, n) && SlowCalls(w0, n) && n < MAX_QUEUED_CALLS
    ensures Leads(w0, ops, w)
    ensures w.now == 50001 && Serves(w, "p1", 1000001) && Waits(w, "z", 50001, 50001)
    ensures forall k :: k != "z" ==> CallOf(w, k) == CallOf(w0, k)
  {
    var renew := RegisterBy("p1", 1000000);
    var w1 := Apply(w0, renew);
    RenewedServes(w0);
    ZIsNoName(n);
    var w2 := OpensCall(w1, "z", URGENT, n);
    var open := OpenOps(w1, "z", URGENT);
    w := Apply(w2, Tick(50000));
    LeadsOne(w0, renew);
    LeadsOn(w0, [renew], w1, open, w2);
    LeadsThen(w0, [renew] + open, w2, Tick(50000));
    ops := [renew] + open + [Tick(50000)];
    TimePasses(w1, w2, w);
  }

  lemma {:induction false} TimePasses(w1: World, w2: World, w: World)
    requires w1.now == 1 && CallOf(w1, "z") == NO_CALL && w == Apply(w2, Tick(50000))
    requires Same(w1, w2, "z") && CallOf(w2, "z") == OpenedCall(w1, "z", URGENT)
    ensures w.now == 50001 && w.catalog == w1.catalog && Waits(w, "z", 50001, 50001)
    ensures forall k :: k != "z" ==> CallOf(w, k) == CallOf(w1, k)
  {
    assert CallOf(w, "z") == OpenedCall(w1, "z", URGENT);
  }

  lemma {:induction false} ZIsNoName(n: nat)
    ensures "z" !in Names(n)
  {
    assert forall i: nat :: i < n ==> Name(i)[0] == 'k';
  }

  lemma {:induction false} RenewedServes(w: World)
    requires Inv(w) && w.now == 1 && Serves(w, "p1", 45001)
    ensures var n := Apply(w, RegisterBy("p1", 1000000));
            && n.now == 1 && Serves(n, "p1", 1000001) && n.requests == w.requests && n.calls == w.calls
  {
    var e := w.catalog["tools"];
    assert Catalog.Valid("tools", e);
    assert "p1" in Catalog.Prune(e, 1).leases && Catalog.Live(Catalog.Prune(e, 1).leases["p1"], 1);
  }

  /** The registry of the example: slow calls, and one urgent call past its deadline. */
  ghost predicate SlowAndUrgent(w: World, limit: nat) {
    && w.now == 50001 && Serves(w, "p1", 1000001) && Waits(w, "z", 50001, 50001)
    && (forall i: nat :: i < limit ==> Slow(w, Name(i)))
    && (forall k :: k != "z" && k !in Names(limit) ==> CallOf(w, k) == NO_CALL)
  }

  /** In index order: the slow calls, due since their old lease ended, then the urgent one. */
  lemma {:induction false} UrgentIsLast(w: World, limit: nat)
    requires SlowAndUrgent(w, limit)
    ensures InIndexOrder(w, Names(limit) + ["z"])
  {
    var keys := Names(limit) + ["z"];
    assert forall i: nat :: i < limit ==> |Name(i)| == i + 1 && Name(i)[0] == 'k';
    forall i, j | 0 <= i < j < |keys| ensures keys[i] != keys[j] && Score(w, keys[i]) <= Score(w, keys[j]) {
      assert keys[i] == Name(i) && Slow(w, Name(i));
      if j < limit {
        assert keys[j] == Name(j) && Slow(w, Name(j));
      }
    }
    forall k ensures k in keys <==> IsDue(w, k) {
      if k in Names(limit) {
        var i :| 0 <= i < limit && Names(limit)[i] == k;
        assert Slow(w, Name(i));
      }
      assert k in keys <==> k in Names(limit) || k == "z";
    }
  }

  /**
   * A drain can leave an overdue call to the next tick: the first batch, full of
   * calls whose lease was renewed, settles nothing, so the drain stops, and the
   * overdue call behind it is not visited. This happens for every batch size the
   * queue bound admits, the tracker's 128 among them.
   */
  lemma {:induction false} DrainCanLeaveOverdueCall(limit: nat) returns (ops: seq<Op>, w: World, keys: seq<string>)
    requires 0 < limit < MAX_QUEUED_CALLS
    ensures Leads(INITIAL, ops, w) && Sound(w) && InIndexOrder(w, keys)
    ensures !NothingOverdue(Drain(w, keys, limit))
  {
    ops, w := SlowThenUrgent(limit);
    keys := Names(limit) + ["z"];
    UrgentIsLast(w, limit);
    SlowAndUrgentAreSound(ops, w, limit);
    FirstBatchSettlesNothing(w, limit);
    DrainStops(w, Names(limit), ["z"], limit);
    ZIsNoName(limit);
    assert Distinct(Names(limit)) by { SplitIsDistinct(Names(limit), ["z"], ""); }
    SweepIsLocal(w, Names(limit), ExecutionDeadline, None, "z");
    var end := Drain(w, keys, limit);
    assert InFlight(CallOf(end, "z")) && Retained(CallOf(end, "z"), end.now) && !BeforeDeadline(CallOf(end, "z"), end.now);
  }

  lemma {:induction false} SlowThenUrgent(limit: nat) returns (ops: seq<Op>, w: World)
    requires 0 < limit < MAX_QUEUED_CALLS
    ensures Leads(INITIAL, ops, w) && SlowAndUrgent(w, limit)
  {
    var first, w0 := ManyCalls(limit);
    InitialHolds();
    EveryRunKeepsInv(INITIAL, first);
    var more;
    more, w := UrgentCall(w0, limit);
    LeadsOn(INITIAL, first, w0, more, w);
    ops := first + more;
    forall i: nat | i < limit ensures Slow(w, Name(i)) {
      assert Name(i) != "z" by { assert Name(i)[0] == 'k'; }
      assert Slow(w0, Name(i));
    }
  }

  lemma {:induction false} SlowAndUrgentAreSound(ops: seq<Op>, w: World, limit: nat)
    requires Leads(INITIAL, ops, w) && SlowAndUrgent(w, limit)
    ensures Sound(w)
  {
    var keys := set k | k in Names(limit) + ["z"];
    forall k | k in keys ensures IndexesOk(CallOf(w, k), w.now) {
      if k != "z" {
        var i :| 0 <= i < limit && Names(limit)[i] == k;
        assert Slow(w, Name(i));
      }
    }
    ReachesSound(ops, w, keys);
  }

  lemma {:induction false} FirstBatchSettlesNothing(w: World, limit: nat)
    requires SlowAndUrgent(w, limit)
    ensures Finishing(w, Names(limit)) == {}
  {
    forall k | k in Names(limit) ensures !Settles(w, CallOf(w, k)) {
      var i :| 0 <= i < limit && Names(limit)[i] == k;
      assert Slow(w, Name(i));
      assert StillWorking(w, CallOf(w, k));
    }
  }
}
