/**
 * What a sweep achieves in every interleaving. Whatever anybody does, a call the
 * sweep is there to settle either lies ahead of it, was never read, or has its
 * result; so a release that succeeds leaves nothing owed, and a drain leaves only
 * what it did not reach (registry/call_admission.go:723-787,
 * registry/call_settlement.go:83-106, registry/service.go:278-296).
 */
module SweepDebts {
  import Catalog
  import opened Records
  import opened CallProtocol
  import opened CallInvariants
  import opened CallTheorems
  import opened Settlement
  import opened Sweeps

  /**
   * A call the sweep is there to settle: claimed, retained, without a result,
   * and past its deadline as of the reading, or claimed by the released lease.
   */
  predicate Debt(w: World, job: Job, at: nat, key: string) {
    var c := CallOf(w, key);
    && InFlight(c) && Retained(c, w.now)
    && match job
       case DrainDue(_) => c.record.value.deadline <= at
       case ReleaseLease(owner) => OwnerOf(c) == owner
  }

  /** The reading lies in the past, and a released lease is gone. */
  predicate Fenced(w: World, job: Job, at: nat) {
    match job
    case DrainDue(_) => at <= w.now
    case ReleaseLease(owner) => LeaseGone(w, owner)
  }

  lemma {:induction false} LeaseStaysGone(w: World, op: Op, owner: Owner)
    requires Possible(w, op) && LeaseGone(w, owner)
    requires !Renews(ReleaseLease(owner), Other(op))
    ensures LeaseGone(Apply(w, op), owner)
  {
  }

  lemma {:induction false} SwapRemovesLease(w: World, owner: Owner, at: nat)
    ensures LeaseGone(Apply(w, CatalogSwap(owner.token.toolset, Catalog.Release(owner.token, owner.lease), at)), owner)
  {
  }

  /** No claim creates a debt: it would come before the deadline, under a live lease. */
  lemma {:induction false} ClaimMakesNoDebt(w: World, p: Provider, job: Job, at: nat)
    requires Inv(w) && Fenced(w, job, at) && GrantsExecution(w, p)
    ensures job.DrainDue? ==> at < CallOf(w, p.key).record.value.deadline
    ensures job.ReleaseLease? ==> job.owner != Owner(p.providerToken, p.lease)
  {
    assert Catalog.Valid(p.toolset, w.catalog[p.toolset]);
  }

  /** Whatever anybody does, debts only get fewer. */
  lemma {:induction false} DebtsOnlyShrink(w: World, op: Op, job: Job, at: nat, key: string)
    requires Inv(w) && Possible(w, op) && Fenced(w, job, at) && Debt(Apply(w, op), job, at, key)
    ensures Debt(w, job, at, key)
  {
    if op.On? && op.key == key {
      DebtShrinksOn(w, key, op.op, job, at);
    } else {
      assert CallOf(Apply(w, op), key) == CallOf(w, key);
    }
  }

  lemma {:induction false} DebtShrinksOn(w: World, key: string, op: CallOp, job: Job, at: nat)
    requires Inv(w) && PossibleOn(CallOf(w, key), key, op) && Fenced(w, job, at)
    requires Debt(Apply(w, On(key, op)), job, at, key)
    ensures Debt(w, job, at, key)
  {
    assert CallOk(key, CallOf(w, key), w.now);
    if op.ClaimOp? && GrantsExecution(w, op.provider) {
      ClaimMakesNoDebt(w, op.provider, job, at);
    } else if !op.ExpireKey? {
      EveryMoveIsListed(w, key, op);
    }
  }

  /** The settle script pays a debt, whichever lease index it was given. */
  lemma {:induction false} ScriptSettlesDebt(w: World, key: string, index: Owner, job: Job, at: nat)
    requires Inv(w) && Fenced(w, job, at) && Debt(w, job, at, key)
    ensures !Debt(Apply(w, On(key, SettleOp(index, CauseOf(job)))), job, at, key)
    ensures Settles(w, CallOf(w, key))
  {
    assert CallOk(key, CallOf(w, key), w.now);
  }

  /** The keys of the round the sweep has yet to deal with. */
  function Ahead(p: Phase): seq<string>
    requires !p.Swapping? && !p.Reading? && !p.Listing? && p.round.next <= |p.round.keys|
  {
    var r := p.round;
    if p.Visiting? || p.Looking? || p.Settling? then r.keys[r.next..]
    else if r.next < |r.keys| then r.keys[r.next + 1..]
    else []
  }

  /** A full batch may leave due calls unread. */
  predicate Unread(job: Job, r: Round, key: string) {
    job.DrainDue? && |r.keys| >= job.limit && key !in r.keys
  }

  /** What the sweep was there to settle and nobody has settled lies ahead of it, or was never read. */
  ghost predicate DebtsAhead(m: Sweeper)
    requires HasRound(m.phase) && m.phase.round.next <= |m.phase.round.keys|
  {
    forall k :: Debt(m.world, m.job, m.phase.round.at, k) ==> k in Ahead(m.phase) || Unread(m.job, m.phase.round, k)
  }

  ghost predicate SweepOk(m: Sweeper) {
    && (m.phase.Listing? ==> Fenced(m.world, m.job, m.phase.at))
    && (HasRound(m.phase) ==>
          && Fenced(m.world, m.job, m.phase.round.at)
          && Distinct(m.phase.round.keys) && m.phase.round.next <= |m.phase.round.keys|
          && (InRound(m.phase) || m.phase.Failed? ==> m.phase.round.next < |m.phase.round.keys|)
          && (m.phase.Succeeded? ==> m.phase.round.next == |m.phase.round.keys|)
          && DebtsAhead(m))
  }

  lemma {:induction false} FenceStays(w: World, op: Op, job: Job, at: nat)
    requires Possible(w, op) && Fenced(w, job, at) && !Renews(job, Other(op))
    ensures Fenced(Apply(w, op), job, at)
  {
    if job.ReleaseLease? {
      LeaseStaysGone(w, op, job.owner);
    }
  }

  lemma {:induction false} OtherKeeps(m: Sweeper, op: Op)
    requires Sound(m.world) && SweepOk(m) && Enabled(m, Other(op))
    requires Renews(m.job, Other(op)) ==> m.phase.Swapping?
    ensures SweepOk(Next(m, Other(op)))
  {
    var n := Next(m, Other(op));
    if m.phase.Listing? {
      FenceStays(m.world, op, m.job, m.phase.at);
    } else if HasRound(m.phase) {
      FenceStays(m.world, op, m.job, m.phase.round.at);
      forall k | Debt(n.world, m.job, m.phase.round.at, k) ensures Debt(m.world, m.job, m.phase.round.at, k) {
        DebtsOnlyShrink(m.world, op, m.job, m.phase.round.at, k);
      }
    }
  }

  /** Every debt is in the keys the sweep reads, unless its batch is full. */
  lemma {:induction false} DebtIsRead(m: Sweeper, keys: seq<string>, key: string)
    requires Sound(m.world) && Enabled(m, ReadKeys(keys)) && Debt(m.world, m.job, m.phase.at, key)
    ensures key in keys || Unread(m.job, Round(m.phase.at, keys, 0, 0), key)
  {
    assert IndexesOk(CallOf(m.world, key), m.world.now);
  }

  lemma {:induction false} ReadKeysKeeps(m: Sweeper, keys: seq<string>)
    requires Sound(m.world) && SweepOk(m) && Enabled(m, ReadKeys(keys))
    ensures SweepOk(Next(m, ReadKeys(keys)))
  {
    var n := Next(m, ReadKeys(keys));
    forall k | Debt(m.world, m.job, m.phase.at, k)
      ensures k in keys || Unread(m.job, Round(m.phase.at, keys, 0, 0), k)
    {
      DebtIsRead(m, keys, k);
    }
    assert keys[0..] == keys;
  }

  /** Reading finds a debt with its record and its membership. */
  lemma {:induction false} ReadCallKeeps(m: Sweeper, act: Act)
    requires Sound(m.world) && SweepOk(m) && Enabled(m, act) && (act.ReadIdentity? || act.ReadMembership?)
    ensures SweepOk(Next(m, act))
  {
    var n, r := Next(m, act), m.phase.round;
    assert IndexesOk(CallOf(m.world, KeyOf(m.phase)), m.world.now);
    forall k | Debt(n.world, n.job, r.at, k) ensures k in Ahead(n.phase) || Unread(n.job, r, k) {
      assert k in Ahead(m.phase) || Unread(m.job, r, k);
      AheadSplits(r, k);
    }
  }

  /** What is still owed after the script was owed before, and is not the call it ran on. */
  lemma {:induction false} ScriptMovesOn(m: Sweeper, key: string)
    requires Sound(m.world) && SweepOk(m) && Enabled(m, RunScript)
    requires Debt(Apply(m.world, OpOf(m, RunScript).value), m.job, m.phase.round.at, key)
    ensures var r := m.phase.round; key in r.keys[r.next + 1..] || Unread(m.job, r, key)
  {
    var r, op := m.phase.round, OpOf(m, RunScript).value;
    DebtsOnlyShrink(m.world, op, m.job, r.at, key);
    AheadSplits(r, key);
    if key == KeyOf(m.phase) && m.phase.Settling? {
      ScriptSettlesDebt(m.world, key, m.phase.index, m.job, r.at);
    }
  }

  lemma {:induction false} ScriptKeeps(m: Sweeper)
    requires Sound(m.world) && SweepOk(m) && Enabled(m, RunScript)
    ensures SweepOk(Next(m, RunScript))
  {
    var n, r := Next(m, RunScript), m.phase.round;
    FenceStays(m.world, OpOf(m, RunScript).value, m.job, r.at);
    if HasRound(n.phase) {
      forall k | Debt(n.world, n.job, r.at, k) ensures k in Ahead(n.phase) || Unread(n.job, r, k) {
        ScriptMovesOn(m, k);
        assert r.next + 1 == |r.keys| ==> r.keys[r.next + 1..] == [];
      }
    }
  }

  lemma {:induction false} StepKeepsSweep(m: Sweeper, act: Act)
    requires Sound(m.world) && SweepOk(m) && Enabled(m, act)
    requires Renews(m.job, act) ==> m.phase.Swapping?
    ensures SweepOk(Next(m, act))
  {
    match act {
      case Other(op) => OtherKeeps(m, op);
      case Swap(at) => SwapRemovesLease(m.world, m.job.owner, at);
      case FindGone =>
      case ReadClock =>
      case ReadKeys(keys) => ReadKeysKeeps(m, keys);
      case ReadIdentity => ReadCallKeeps(m, act);
      case ReadMembership => ReadCallKeeps(m, act);
      case RunScript => ScriptKeeps(m);
    }
  }

  /** In every interleaving, at every moment: what is owed lies ahead of the sweep or was never read. */
  lemma {:induction false} DebtsStayAhead(m: Sweeper, acts: seq<Act>)
    requires Sound(m.world) && SweepOk(m) && IsSweep(m, acts) && NoRace(m, acts) && NotRenewed(m, acts)
    ensures Sound(After(m, acts).world) && SweepOk(After(m, acts)) && After(m, acts).job == m.job
    decreases |acts|
  {
    if acts != [] {
      var init, act := acts[..|acts| - 1], acts[|acts| - 1];
      DebtsStayAhead(m, init);
      StepKeepsSound(After(m, init), act);
      StepKeepsSweep(After(m, init), act);
    }
  }

  /**
   * Releasing a provider: in every interleaving in which the lease is not
   * registered again, a release that succeeds leaves none of its retained calls
   * without a result, whoever settled them.
   */
  lemma {:induction false} ReleaseLeavesNothingOwed(m: Sweeper, acts: seq<Act>)
    requires Sound(m.world) && m.job.ReleaseLease? && m == Begin(m.world, m.job)
    requires IsSweep(m, acts) && NoRace(m, acts) && NotRenewed(m, acts) && After(m, acts).phase.Succeeded?
    ensures NothingOwedBy(After(m, acts).world, m.job.owner)
  {
    DebtsStayAhead(m, acts);
    var n := After(m, acts);
    forall k ensures Settlement.Finished(n.world, k, m.job.owner) {
      assert !Debt(n.world, n.job, n.phase.round.at, k);
    }
  }

  /** A claimed, retained call without a result whose deadline had passed at this reading. */
  predicate OverdueAt(w: World, key: string, at: nat) {
    var c := CallOf(w, key);
    InFlight(c) && Retained(c, w.now) && c.record.value.deadline <= at
  }

  /** Unread because the last batch was full, or behind the key the sweep failed on. */
  predicate NotReached(m: Sweeper, key: string)
    requires m.phase.Succeeded? || m.phase.Failed?
  {
    var r := m.phase.round;
    Unread(m.job, r, key) || (m.phase.Failed? && r.next < |r.keys| && key in r.keys[r.next + 1..])
  }

  /**
   * The drain, in every interleaving. When it ends, every call overdue at its
   * last clock reading is one it did not get to: unread because the last batch
   * was full, or behind the key it failed on. So it leaves no call overdue at
   * that reading exactly when others settled the ones it did not get to; a drain
   * that ends with a short batch leaves none.
   */
  lemma {:induction false} DrainLeavesOnlyUnvisited(m: Sweeper, acts: seq<Act>)
    requires Sound(m.world) && m.job.DrainDue? && m == Begin(m.world, m.job)
    requires IsSweep(m, acts) && NoRace(m, acts) && (After(m, acts).phase.Succeeded? || After(m, acts).phase.Failed?)
    ensures OnlyUnvisitedOverdue(After(m, acts))
    ensures ShortBatch(After(m, acts)) ==> forall k :: !OverdueAt(After(m, acts).world, k, After(m, acts).phase.round.at)
  {
    NoLeaseToRenew(m, acts);
    DebtsStayAhead(m, acts);
    var n := After(m, acts);
    forall k | OverdueAt(n.world, k, n.phase.round.at)
      ensures k in Ahead(n.phase) || Unread(n.job, n.phase.round, k)
    {
      assert Debt(n.world, n.job, n.phase.round.at, k);
    }
  }

  /** What is overdue at the last clock reading is what the sweep did not reach. */
  ghost predicate OnlyUnvisitedOverdue(m: Sweeper)
    requires m.phase.Succeeded? || m.phase.Failed?
  {
    forall k :: OverdueAt(m.world, k, m.phase.round.at) ==> NotReached(m, k)
  }

  /** The drain ended because there were fewer due calls than it may visit. */
  predicate ShortBatch(m: Sweeper) {
    m.job.DrainDue? && m.phase.Succeeded? && |m.phase.round.keys| < m.job.limit
  }

  lemma {:induction false} NoLeaseToRenew(m: Sweeper, acts: seq<Act>)
    requires IsSweep(m, acts) && m.job.DrainDue?
    ensures NotRenewed(m, acts)
    decreases |acts|
  {
    if acts != [] {
      NoLeaseToRenew(m, acts[..|acts| - 1]);
    }
  }
}
