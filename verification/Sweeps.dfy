/**
 * Sweeps among other replicas. Reading the clock, reading the keys, reading a
 * call's identity, reading its membership and running a script are separate
 * Redis operations (registry/call_admission.go:723-787, 805-848;
 * registry/call_settlement.go:83-106; registry/service.go:278-296). Between any
 * two of them the other replicas, providers and the clock may do anything the
 * protocol allows, sweeps of their own included. SweepDebts says what a drain and
 * a provider release achieve in every interleaving, SweepFailures why they fail.
 */
module Sweeps {
  import opened Basics
  import Catalog
  import opened Records
  import opened CallProtocol
  import opened CallInvariants
  import opened CallTheorems
  import opened Settlement

  /** The tracker's drain of due calls, or the release of one exact provider lease. */
  datatype Job = DrainDue(limit: nat) | ReleaseLease(owner: Owner)

  /** The keys one round read, as of clock reading `at`, and how far it has come. */
  datatype Round = Round(at: nat, keys: seq<string>, next: nat, settled: nat)

  /** What the sweep does next: take the lease out of the catalog, read the clock, read keys, or work on the round's next key. */
  datatype Phase =
    | Swapping
    | Reading
    | Listing(at: nat)
    | Visiting(round: Round)
    | Cleaning(round: Round)
    | Looking(round: Round)
    | Settling(round: Round, index: Owner)
    | Succeeded(round: Round)
    | Failed(round: Round)

  datatype Sweeper = Sweeper(world: World, job: Job, phase: Phase)

  /** One Redis operation: the sweep's own, or anything by anybody else. */
  datatype Act =
    | Other(op: Op)
    | Swap(at: nat)
    | FindGone
    | ReadClock
    | ReadKeys(keys: seq<string>)
    | ReadIdentity
    | ReadMembership
    | RunScript

  function Begin(w: World, job: Job): Sweeper {
    Sweeper(w, job, if job.DrainDue? then Reading else Swapping)
  }

  function CauseOf(job: Job): Cause {
    if job.DrainDue? then ExecutionDeadline else LeaseReleased
  }

  function FallbackOf(job: Job): Option<Owner> {
    if job.DrainDue? then None else Some(job.owner)
  }

  predicate InRound(p: Phase) {
    p.Visiting? || p.Cleaning? || p.Looking? || p.Settling?
  }

  predicate HasRound(p: Phase) {
    InRound(p) || p.Succeeded? || p.Failed?
  }

  /** The key the sweep is working on. */
  function KeyOf(p: Phase): string
    requires InRound(p) && p.round.next < |p.round.keys|
  {
    p.round.keys[p.round.next]
  }

  /** The catalog does not hold this exact lease, expired or not. */
  predicate LeaseGone(w: World, owner: Owner) {
    var name := owner.token.toolset;
    !(name in w.catalog && w.catalog[name].token == owner.token && owner.lease in w.catalog[name].leases)
  }

  /** A drain reads another batch after one that settled as many calls as it may visit. */
  function Advance(job: Job, r: Round): Phase {
    if r.next < |r.keys| then Visiting(r)
    else if job.DrainDue? && r.settled >= job.limit then Reading
    else Succeeded(r)
  }

  predicate DueBy(w: World, key: string, at: nat) {
    CallOf(w, key).due.Some? && CallOf(w, key).due.value <= at
  }

  /** The earliest due calls, at most `limit` of them; fewer only if there are no more. */
  ghost predicate IsBatch(w: World, at: nat, keys: seq<string>, limit: nat) {
    && Distinct(keys) && |keys| <= limit
    && (forall k :: k in keys ==> DueBy(w, k, at))
    && (forall i, j :: 0 <= i < j < |keys| ==> Score(w, keys[i]) <= Score(w, keys[j]))
    && (forall k :: DueBy(w, k, at) && k !in keys ==>
          |keys| == limit && forall i :: 0 <= i < |keys| ==> Score(w, keys[i]) <= Score(w, k))
  }

  ghost predicate IsReply(m: Sweeper, at: nat, keys: seq<string>) {
    match m.job
    case DrainDue(limit) => IsBatch(m.world, at, keys, limit)
    case ReleaseLease(owner) => Distinct(keys) && forall k :: k in keys <==> owner in CallOf(m.world, k).listed
  }

  ghost predicate Enabled(m: Sweeper, act: Act) {
    match act
    case Other(op) => Possible(m.world, op)
    case Swap(at) => m.job.ReleaseLease? && m.phase.Swapping? && at <= m.world.now
    case FindGone => m.job.ReleaseLease? && m.phase.Swapping? && LeaseGone(m.world, m.job.owner)
    case ReadClock => m.job.DrainDue? && m.phase.Reading?
    case ReadKeys(keys) => m.phase.Listing? && IsReply(m, m.phase.at, keys)
    case ReadIdentity => m.phase.Visiting? && m.phase.round.next < |m.phase.round.keys|
    case ReadMembership => m.phase.Looking? && m.phase.round.next < |m.phase.round.keys|
    case RunScript => (m.phase.Cleaning? || m.phase.Settling?) && m.phase.round.next < |m.phase.round.keys|
  }

  /** The protocol operation the act performs, if it writes. */
  ghost function OpOf(m: Sweeper, act: Act): Option<Op>
    requires Enabled(m, act)
  {
    match act
    case Other(op) => Some(op)
    case Swap(at) =>
      var owner := m.job.owner;
      Some(CatalogSwap(owner.token.toolset, Catalog.Release(owner.token, owner.lease), at))
    case RunScript =>
      Some(On(KeyOf(m.phase), if m.phase.Cleaning? then CleanupOp(FallbackOf(m.job))
                              else SettleOp(m.phase.index, CauseOf(m.job))))
    case _ => None
  }

  ghost function NextPhase(m: Sweeper, act: Act): Phase
    requires Enabled(m, act)
  {
    match act
    case Other(_) => m.phase
    case Swap(at) => Listing(at)
    case FindGone => Listing(m.world.now)
    case ReadClock => Listing(m.world.now)
    case ReadKeys(keys) => Advance(m.job, Round(m.phase.at, keys, 0, 0))
    case ReadIdentity =>
      if IsAdmitted(CallOf(m.world, KeyOf(m.phase))) then Looking(m.phase.round) else Cleaning(m.phase.round)
    case ReadMembership =>
      (match CallOf(m.world, KeyOf(m.phase)).member
       case Some(index) => Settling(m.phase.round, index)
       case None => Failed(m.phase.round))
    case RunScript =>
      var r := m.phase.round;
      var committed := m.phase.Settling? && Settles(m.world, CallOf(m.world, KeyOf(m.phase)));
      Advance(m.job, r.(next := r.next + 1, settled := r.settled + if committed then 1 else 0))
  }

  ghost function Next(m: Sweeper, act: Act): Sweeper
    requires Enabled(m, act)
  {
    var w := match OpOf(m, act) case Some(op) => Apply(m.world, op) case None => m.world;
    Sweeper(w, m.job, NextPhase(m, act))
  }

  // ---------------------------------------------------------------------
  // Runs
  // ---------------------------------------------------------------------

  /** A run of the sweep among everything else. */
  ghost predicate IsSweep(m: Sweeper, acts: seq<Act>)
    decreases |acts|, 0
  {
    acts == [] || (IsSweep(m, acts[..|acts| - 1]) && Enabled(After(m, acts[..|acts| - 1]), acts[|acts| - 1]))
  }

  ghost function After(m: Sweeper, acts: seq<Act>): Sweeper
    requires IsSweep(m, acts)
    decreases |acts|, 1
  {
    if acts == [] then m else Next(After(m, acts[..|acts| - 1]), acts[|acts| - 1])
  }

  /** No cleanup, of this sweep or another, races with a new claim. */
  ghost predicate NoRace(m: Sweeper, acts: seq<Act>)
    requires IsSweep(m, acts)
    decreases |acts|
  {
    acts == [] ||
    (&& NoRace(m, acts[..|acts| - 1])
     && var n, act := After(m, acts[..|acts| - 1]), acts[|acts| - 1];
     && (OpOf(n, act).Some? ==> !CleanupRaces(n.world, OpOf(n, act).value)))
  }

  predicate Renews(job: Job, act: Act) {
    && job.ReleaseLease? && act.Other? && act.op.CatalogSwap? && act.op.action.Register?
    && act.op.action.token == job.owner.token && act.op.action.key == job.owner.lease
  }

  /** The released lease is not registered again once the catalog swap took it away. */
  ghost predicate NotRenewed(m: Sweeper, acts: seq<Act>)
    requires IsSweep(m, acts)
    decreases |acts|
  {
    acts == [] ||
    (&& NotRenewed(m, acts[..|acts| - 1])
     && (Renews(m.job, acts[|acts| - 1]) ==> After(m, acts[..|acts| - 1]).phase.Swapping?))
  }

  ghost predicate Sound(w: World) {
    Inv(w) && AllIndexed(w)
  }

  lemma {:induction false} OwnOpIsPossible(m: Sweeper, act: Act)
    requires Enabled(m, act) && OpOf(m, act).Some?
    ensures Possible(m.world, OpOf(m, act).value)
  {
  }

  lemma {:induction false} StepKeepsSound(m: Sweeper, act: Act)
    requires Sound(m.world) && Enabled(m, act)
    requires OpOf(m, act).Some? ==> !CleanupRaces(m.world, OpOf(m, act).value)
    ensures Sound(Next(m, act).world)
  {
    if OpOf(m, act).Some? {
      OwnOpIsPossible(m, act);
      StepKeepsInv(m.world, OpOf(m, act).value);
      IndexesKeptExactlyWithoutRace(m.world, OpOf(m, act).value);
    }
  }

  lemma {:induction false} AheadSplits(r: Round, key: string)
    requires r.next < |r.keys|
    ensures key in r.keys[r.next..] <==> key == r.keys[r.next] || key in r.keys[r.next + 1..]
  {
    assert r.keys[r.next..] == [r.keys[r.next]] + r.keys[r.next + 1..];
  }

  // ---------------------------------------------------------------------
  // Sweeps are protocol runs
  // ---------------------------------------------------------------------

  ghost function OpsOf(m: Sweeper, acts: seq<Act>): seq<Op>
    requires IsSweep(m, acts)
    decreases |acts|
  {
    if acts == [] then []
    else
      var init, act := acts[..|acts| - 1], acts[|acts| - 1];
      OpsOf(m, init) + (match OpOf(After(m, init), act) case Some(op) => [op] case None => [])
  }

  /** A sweep writes only through protocol operations, so every theorem about runs holds of it. */
  lemma {:induction false} SweepIsProtocolRun(m: Sweeper, acts: seq<Act>)
    requires IsSweep(m, acts)
    ensures IsRun(m.world, OpsOf(m, acts)) && Run(m.world, OpsOf(m, acts)) == After(m, acts).world
    decreases |acts|
  {
    if acts != [] {
      var init, act := acts[..|acts| - 1], acts[|acts| - 1];
      var n := After(m, init);
      SweepIsProtocolRun(m, init);
      if OpOf(n, act).Some? {
        var op := OpOf(n, act).value;
        OwnOpIsPossible(n, act);
        assert [op][1..] == [];
        assert IsRun(n.world, [op]) && Run(n.world, [op]) == Apply(n.world, op) by {
          assert IsRun(Apply(n.world, op), []) && Run(Apply(n.world, op), []) == Apply(n.world, op);
        }
        RunConcat(m.world, OpsOf(m, init), [op]);
      } else {
        assert OpsOf(m, acts) == OpsOf(m, init);
      }
    }
  }

  lemma {:induction false} SweepStep(m: Sweeper, acts: seq<Act>, act: Act)
    requires IsSweep(m, acts) && Enabled(After(m, acts), act)
    ensures IsSweep(m, acts + [act]) && After(m, acts + [act]) == Next(After(m, acts), act)
  {
    assert (acts + [act])[..|acts|] == acts;
  }
}
