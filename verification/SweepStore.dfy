/**
 * One replica's sweep loops on the shared store (registry/call_admission.go:
 * 723-848, registry/call_settlement.go:83-106, registry/service.go:278-296).
 * Before each of its Redis operations the others may perform any of what they
 * have pending, and any of its operations may be refused because its context was
 * canceled or Redis failed. Every loop is proved to be a run of Sweeps, so what
 * that module proves of all interleavings holds of it; and when nobody interferes
 * it is the plain sweep of Settlement.
 */
module SweepStore {
  import opened Basics
  import Catalog
  import opened Records
  import opened CallProtocol
  import opened Settlement
  import opened Sweeps
  import opened SweepDebts
  import CallStore
  import CatalogStore

  /** A loop ran to its end, failed on a call without membership, or was cut short. */
  datatype End = Completed | Broken | Interrupted

  class Replica {
    const store: CallStore.Store
    /** What everybody else is still going to do. */
    var pending: seq<Op>
    /** Where the current sweep began, and every Redis operation since. */
    ghost var start: Sweeper
    ghost var acts: seq<Act>

    ghost predicate Valid()
      reads this, store
    {
      store.Valid() && IsSweep(start, acts) && After(start, acts).world == store.world
    }

    ghost function State(): Sweeper
      requires Valid()
      reads this, store
    {
      After(start, acts)
    }

    constructor (store: CallStore.Store, pending: seq<Op>)
      requires store.Valid()
      ensures Valid() && this.store == store && this.pending == pending
    {
      this.store, this.pending := store, pending;
      start, acts := Sweeper(store.world, DrainDue(BATCH), Reading), [];
    }

    /** Notes an operation of ours that only reads. */
    ghost method Note(act: Act)
      requires Valid() && Enabled(State(), act) && OpOf(State(), act).None?
      modifies this`acts
      ensures Valid() && acts == old(acts) + [act] && State() == Next(old(State()), act)
    {
      SweepStep(start, acts, act);
      acts := acts + [act];
    }

    /** Notes an operation that the store has just performed. */
    ghost method NoteDone(act: Act)
      requires store.Valid() && IsSweep(start, acts) && Enabled(After(start, acts), act)
      requires store.world == Next(After(start, acts), act).world
      modifies this`acts
      ensures Valid() && acts == old(acts) + [act] && State() == Next(old(After(start, acts)), act)
    {
      SweepStep(start, acts, act);
      acts := acts + [act];
    }

    /** The others perform some of what they have pending. */
    method Others()
      requires Valid()
      modifies this`pending, this`acts, store
      ensures Valid() && State() == old(State()).(world := store.world)
      ensures old(acts) <= acts && store.now >= old(store.now) && |pending| <= |old(pending)|
      ensures |pending| == |old(pending)| ==> pending == old(pending) && store.world == old(store.world)
    {
      var n :| 0 <= n <= |pending|;
      while n > 0
        invariant Valid() && State() == old(State()).(world := store.world)
        invariant old(acts) <= acts && store.now >= old(store.now) && 0 <= n <= |pending| <= |old(pending)|
        invariant |pending| == |old(pending)| ==> pending == old(pending) && store.world == old(store.world)
      {
        PerformNext();
        n := n - 1;
      }
    }

    /** The next pending operation, if the protocol allows it now. */
    method PerformNext()
      requires Valid() && pending != []
      modifies this`pending, this`acts, store
      ensures Valid() && State() == old(State()).(world := store.world)
      ensures old(acts) <= acts && store.now >= old(store.now) && pending == old(pending)[1..]
    {
      var op := pending[0];
      pending := pending[1..];
      if store.Allowed(op) {
        assert Possible(store.world, op) by {
          assert op.On? ==> store.CallAt(op.key) == CallOf(store.world, op.key);
        }
        store.Perform(op);
        NoteDone(Other(op));
      }
    }

    /** HGET tool_use_id: an admitted record has one. */
    method FindIdentity(key: string) returns (found: bool)
      requires Valid() && State().phase.Visiting?
      requires State().phase.round.next < |State().phase.round.keys| && key == KeyOf(State().phase)
      modifies this`pending, this`acts, store
      ensures Valid() && old(acts) <= acts && |pending| <= |old(pending)| && State().job == old(State().job)
      ensures var r := old(State().phase.round); State().phase == if found then Looking(r) else Cleaning(r)
      ensures |pending| == |old(pending)| ==>
                pending == old(pending) && store.world == old(store.world) && found == IsAdmitted(CallOf(store.world, key))
    {
      Others();
      assert store.CallAt(key) == CallOf(store.world, key);
      found := key in store.records && store.records[key].Admitted?;
      Note(ReadIdentity);
    }

    /** HGET of the lease index that membership names. */
    method FindMembership(key: string) returns (index: Option<Owner>)
      requires Valid() && State().phase.Looking?
      requires State().phase.round.next < |State().phase.round.keys| && key == KeyOf(State().phase)
      modifies this`pending, this`acts, store
      ensures Valid() && old(acts) <= acts && |pending| <= |old(pending)| && State().job == old(State().job)
      ensures var r := old(State().phase.round);
              State().phase == if index.Some? then Settling(r, index.value) else Failed(r)
      ensures |pending| == |old(pending)| ==>
                pending == old(pending) && store.world == old(store.world) && index == CallOf(store.world, key).member
    {
      Others();
      assert store.CallAt(key) == CallOf(store.world, key);
      index := CallStore.Lookup(store.membership, key);
      Note(ReadMembership);
    }

    /** The cleanup script, for the job's fallback index. */
    method CleanUp(key: string, fallback: Option<Owner>)
      requires Valid() && State().phase.Cleaning? && fallback == FallbackOf(State().job)
      requires State().phase.round.next < |State().phase.round.keys| && key == KeyOf(State().phase)
      modifies this`pending, this`acts, store
      ensures Valid() && old(acts) <= acts && |pending| <= |old(pending)| && State().job == old(State().job)
      ensures |pending| == |old(pending)| ==>
                pending == old(pending) && store.world == Apply(old(store.world), On(key, CleanupOp(fallback)))
      ensures var r := old(State().phase.round); State().phase == Advance(State().job, r.(next := r.next + 1))
    {
      Others();
      store.CleanupMember(key, fallback);
      NoteDone(RunScript);
    }

    /** The settle script, under the index read from membership. */
    method RunSettle(key: string, index: Owner, cause: Cause) returns (status: nat)
      requires Valid() && State().phase.Settling? && index == State().phase.index && cause == CauseOf(State().job)
      requires State().phase.round.next < |State().phase.round.keys| && key == KeyOf(State().phase)
      modifies this`pending, this`acts, store
      ensures Valid() && old(acts) <= acts && |pending| <= |old(pending)| && State().job == old(State().job)
      ensures |pending| == |old(pending)| ==>
                && pending == old(pending) && store.world == Apply(old(store.world), On(key, SettleOp(index, cause)))
                && status == if Settles(old(store.world), CallOf(old(store.world), key)) then 1 else 0
      ensures var r := old(State().phase.round);
              State().phase == Advance(State().job, r.(next := r.next + 1, settled := r.settled + status))
    {
      Others();
      status := store.SettleClaim(key, index, cause);
      NoteDone(RunScript);
    }

    /**
     * One round of either sweep loop: read the identity, clean up when there is
     * none, otherwise read membership and settle under the index it names.
     */
    method VisitCall(key: string, cause: Cause, fallback: Option<Owner>) returns (end: End, status: nat)
      requires Valid() && State().phase.Visiting? && cause == CauseOf(State().job) && fallback == FallbackOf(State().job)
      requires State().phase.round.next < |State().phase.round.keys| && key == KeyOf(State().phase)
      modifies this`pending, this`acts, store
      ensures Valid() && State().job == old(State().job)
      ensures old(acts) <= acts && |pending| <= |old(pending)|
      ensures var r := old(State().phase.round);
              match end
              case Completed => State().phase == Advance(State().job, r.(next := r.next + 1, settled := r.settled + status))
              case Broken => State().phase == Failed(r)
              case Interrupted => InRound(State().phase)
      ensures |pending| == |old(pending)| && !end.Interrupted? ==>
                var w := old(store.world);
                && pending == old(pending) && (end.Completed? <==> Visitable(CallOf(w, key)))
                && store.world == Visit(w, key, cause, fallback)
                && status == if end.Completed? && Settles(w, CallOf(w, key)) then 1 else 0
    {
      var stop: bool := *;
      if stop {
        return Interrupted, 0;
      }
      var found := FindIdentity(key);
      stop := *;
      if stop {
        return Interrupted, 0;
      }
      if !found {
        CleanUp(key, fallback);
        return Completed, 0;
      }
      end, status := SettleMember(key, cause);
    }

    /** The second half of a visit: read membership and settle under the index it names. */
    method SettleMember(key: string, cause: Cause) returns (end: End, status: nat)
      requires Valid() && State().phase.Looking? && cause == CauseOf(State().job)
      requires State().phase.round.next < |State().phase.round.keys| && key == KeyOf(State().phase)
      modifies this`pending, this`acts, store
      ensures Valid() && State().job == old(State().job)
      ensures old(acts) <= acts && |pending| <= |old(pending)|
      ensures var r := old(State().phase.round);
              match end
              case Completed => State().phase == Advance(State().job, r.(next := r.next + 1, settled := r.settled + status))
              case Broken => State().phase == Failed(r)
              case Interrupted => InRound(State().phase)
      ensures |pending| == |old(pending)| && !end.Interrupted? ==>
                var w, member := old(store.world), CallOf(old(store.world), key).member;
                && pending == old(pending) && (end.Completed? <==> member.Some?)
                && store.world == (if member.Some? then Apply(w, On(key, SettleOp(member.value, cause))) else w)
                && status == if end.Completed? && Settles(w, CallOf(w, key)) then 1 else 0
    {
      var index := FindMembership(key);
      if index.None? {
        return Broken, 0;
      }
      var stop: bool := *;
      if stop {
        return Interrupted, 0;
      }
      status := RunSettle(key, index.value, cause);
      end := Completed;
    }

    /** Visits the keys of a round in order and stops at the first that fails. */
    method VisitAll(keys: seq<string>, ghost at: nat, cause: Cause, fallback: Option<Owner>)
      returns (end: End, settled: nat)
      requires Valid() && Distinct(keys) && State().phase == Advance(State().job, Round(at, keys, 0, 0))
      requires cause == CauseOf(State().job) && fallback == FallbackOf(State().job)
      modifies this`pending, this`acts, store
      ensures Valid() && State().job == old(State().job)
      ensures old(acts) <= acts && |pending| <= |old(pending)|
      ensures match end
              case Completed => State().phase == Advance(State().job, Round(at, keys, |keys|, settled))
              case Broken => State().phase.Failed?
              case Interrupted => InRound(State().phase)
      ensures |pending| == |old(pending)| && !end.Interrupted? ==>
                && pending == old(pending)
                && (end.Completed? <==> forall k :: k in keys ==> Visitable(CallOf(old(store.world), k)))
                && (end.Completed? ==> store.world == Sweep(old(store.world), keys, cause, fallback))
                && (end.Completed? ==> settled == |Finishing(old(store.world), keys)|)
    {
      ghost var before, job := store.world, State().job;
      end, settled := Completed, 0;
      for i := 0 to |keys|
        invariant Valid() && end.Completed? && State().job == job && old(acts) <= acts && |pending| <= |old(pending)|
        invariant State().phase == Advance(job, Round(at, keys, i, settled))
        invariant |pending| == |old(pending)| ==>
                    pending == old(pending) && Alone(before, store.world, keys, i, cause, fallback, settled)
      {
        ghost var w := store.world;
        var status;
        end, status := VisitCall(keys[i], cause, fallback);
        if |pending| == |old(pending)| && !end.Interrupted? {
          AloneNext(before, w, keys, i, cause, fallback, settled, status);
        }
        if !end.Completed? {
          return;
        }
        settled := settled + status;
      }
      assert keys[..|keys|] == keys;
    }

    /** Nobody interfered: the first i keys have been swept as if in one piece. */
    static ghost predicate Alone(
      w: World, n: World, keys: seq<string>, i: nat, cause: Cause, fallback: Option<Owner>, settled: nat)
      requires i <= |keys|
    {
      && n == Sweep(w, keys[..i], cause, fallback) && settled == |Finishing(w, keys[..i])|
      && forall j :: 0 <= j < i ==> Visitable(CallOf(w, keys[j]))
    }

    static lemma {:induction false} AloneNext(
      w: World, n: World, keys: seq<string>, i: nat, cause: Cause, fallback: Option<Owner>, settled: nat, status: nat)
      requires i < |keys| && Distinct(keys) && Alone(w, n, keys, i, cause, fallback, settled)
      requires status == if Visitable(CallOf(n, keys[i])) && Settles(n, CallOf(n, keys[i])) then 1 else 0
      ensures Visitable(CallOf(n, keys[i])) <==> Visitable(CallOf(w, keys[i]))
      ensures Visitable(CallOf(w, keys[i])) ==>
                Alone(w, Visit(n, keys[i], cause, fallback), keys, i + 1, cause, fallback, settled + status)
    {
      SweepNext(w, keys, i, cause, fallback);
    }

    method ReadTime(limit: nat) returns (at: nat)
      requires Valid() && State().phase.Reading? && State().job == DrainDue(limit)
      modifies this`pending, this`acts, store
      ensures Valid() && State().job == old(State().job) && State().phase == Listing(at)
      ensures old(acts) <= acts && |pending| <= |old(pending)|
      ensures |pending| == |old(pending)| ==>
                pending == old(pending) && store.world == old(store.world) && at == store.world.now
    {
      Others();
      at := store.now;
      Note(ReadClock);
    }

    /** Reads the earliest calls due by the clock reading. */
    method ReadBatch(at: nat, limit: nat) returns (keys: seq<string>, ghost rest: seq<string>)
      requires Valid() && State().phase == Listing(at) && State().job == DrainDue(limit)
      modifies this`pending, this`acts, store
      ensures Valid() && State().job == old(State().job) && State().phase == Advance(State().job, Round(at, keys, 0, 0))
      ensures Distinct(keys) && old(acts) <= acts && |pending| <= |old(pending)|
      ensures |pending| == |old(pending)| ==>
                && pending == old(pending) && store.world == old(store.world) && |keys| == Min(limit, |keys + rest|)
                && (at == store.world.now ==> InIndexOrder(store.world, keys + rest))
    {
      Others();
      var due := store.ReadDue(at);
      keys := due[..Min(limit, |due|)];
      rest := due[|keys|..];
      FirstAreBatch(store.world, at, due, limit);
      Note(ReadKeys(keys));
      assert due == keys + rest;
    }

    /** The first keys of the full reply are a batch. */
    static lemma {:induction false} FirstAreBatch(w: World, at: nat, due: seq<string>, limit: nat)
      requires Distinct(due) && (forall k :: k in due <==> DueBy(w, k, at))
      requires forall i, j :: 0 <= i < j < |due| ==> Score(w, due[i]) <= Score(w, due[j])
      ensures IsBatch(w, at, due[..Min(limit, |due|)], limit)
    {
      var keys := due[..Min(limit, |due|)];
      assert due == keys + due[|keys|..];
      forall k | DueBy(w, k, at) && k !in keys
        ensures |keys| == limit && forall i :: 0 <= i < |keys| ==> Score(w, keys[i]) <= Score(w, k)
      {
        var tail := due[|keys|..];
        assert k in tail;
        var j :| 0 <= j < |tail| && tail[j] == k;
        assert due[|keys| + j] == k;
      }
    }

    /** One batch of the drain. */
    method SettleLostClaims(limit: nat) returns (end: End, settled: nat, ghost keys: seq<string>, ghost rest: seq<string>)
      requires Valid() && State().phase.Reading? && State().job == DrainDue(limit)
      modifies this`pending, this`acts, store
      ensures Valid() && State().job == old(State().job)
      ensures old(acts) <= acts && |pending| <= |old(pending)|
      ensures match end
              case Completed => if settled >= limit then State().phase.Reading? else State().phase.Succeeded?
              case Broken => State().phase.Failed?
              case Interrupted => true
      ensures |pending| == |old(pending)| && !end.Interrupted? ==>
                && pending == old(pending)
                && InIndexOrder(old(store.world), keys + rest) && |keys| == Min(limit, |keys + rest|)
                && (end.Completed? <==> forall k :: k in keys ==> Visitable(CallOf(old(store.world), k)))
                && (end.Completed? ==> store.world == Sweep(old(store.world), keys, ExecutionDeadline, None))
                && (end.Completed? ==> settled == |Finishing(old(store.world), keys)|)
    {
      var stop: bool := *;
      if stop {
        return Interrupted, 0, [], [];
      }
      var at := ReadTime(limit);
      stop := *;
      if stop {
        return Interrupted, 0, [], [];
      }
      var batch;
      batch, rest := ReadBatch(at, limit);
      keys := batch;
      end, settled := VisitAll(batch, at, ExecutionDeadline, None);
    }

    /**
     * Drains batches until one settles fewer calls than it may visit
     * (registry/call_settlement.go:83-106). It ends as the interleaving it ran in
     * does. At every end, a call overdue at its last clock reading is one it has
     * ahead or did not read; undisturbed, it is the drain of `order`, the calls
     * due at the start in index order.
     */
    method Settle(limit: nat) returns (end: End, ghost order: seq<string>)
      requires Valid() && limit > 0
      modifies this, store
      ensures Valid() && start == Begin(old(store.world), DrainDue(limit))
      ensures (end.Completed? ==> State().phase.Succeeded?) && (end.Broken? ==> State().phase.Failed?)
      ensures Sound(old(store.world)) && NoRace(start, acts) ==> SweepOk(State())
      ensures Sound(old(store.world)) && NoRace(start, acts) && !end.Interrupted? ==>
                OnlyUnvisitedOverdue(State())
      ensures |pending| == |old(pending)| && !end.Interrupted? ==>
                && pending == old(pending)
                && (end.Completed? ==>
                      InIndexOrder(old(store.world), order) && store.world == Drain(old(store.world), order, limit))
                && (Sound(old(store.world)) ==>
                      end.Completed? && (DueKeys(store.world) == {} <==> Drainable(old(store.world), order, limit)))
    {
      ghost var before := store.world;
      start, acts := Begin(before, DrainDue(limit)), [];
      ghost var done: seq<string> := [];
      assert forall rest: seq<string> :: done + rest == rest;
      while true
        invariant Valid() && start == Begin(before, DrainDue(limit)) && State().job == DrainDue(limit) && State().phase.Reading?
        invariant |pending| <= |old(pending)|
        invariant |pending| == |old(pending)| ==>
                    pending == old(pending) && Resumes(before, done, store.world, limit) && (Sound(before) ==> Sound(store.world))
        decreases |pending|, |DueKeys(store.world)|
      {
        ghost var w, left, keys, rest := store.world, |pending|, [], [];
        var settled;
        end, settled, keys, rest := SettleLostClaims(limit);
        order := done + (keys + rest);
        if |pending| == |old(pending)| && !end.Interrupted? {
          if Sound(w) {
            DueIsVisitable(w, keys + rest, |keys|);
            assert (keys + rest)[..|keys|] == keys;
          }
          if end.Completed? && settled < limit {
            QuietStop(before, done, w, keys, rest, limit);
          } else if end.Completed? {
            QuietRound(before, done, w, keys, rest, limit);
          }
        }
        if !end.Completed? || settled < limit {
          DrainEnds(limit, end);
          return;
        }
        if |pending| == left {
          FullBatchShrinksDue(w, keys, rest, limit);
        }
        done := done + keys;
      }
    }

    /** What the interleaving says of the drain that ends here. */
    lemma {:induction false} DrainEnds(limit: nat, end: End)
      requires Valid() && start == Begin(start.world, DrainDue(limit))
      requires (end.Completed? ==> State().phase.Succeeded?) && (end.Broken? ==> State().phase.Failed?)
      ensures Sound(start.world) && NoRace(start, acts) ==> SweepOk(State())
      ensures Sound(start.world) && NoRace(start, acts) && !end.Interrupted? ==>
                OnlyUnvisitedOverdue(State())
    {
      if Sound(start.world) && NoRace(start, acts) {
        NoLeaseToRenew(start, acts);
        DebtsStayAhead(start, acts);
        if !end.Interrupted? {
          DrainLeavesOnlyUnvisited(start, acts);
        }
      }
    }

    /** Undisturbed, the last batch ends the drain of all that was due. */
    static lemma {:induction false} QuietStop(before: World, done: seq<string>, w: World, keys: seq<string>, rest: seq<string>, limit: nat)
      requires limit > 0 && Resumes(before, done, w, limit) && InIndexOrder(w, keys + rest)
      requires |keys| == Min(limit, |keys + rest|) && |Finishing(w, keys)| < limit
      ensures var order, n := done + (keys + rest), Sweep(w, keys, ExecutionDeadline, None);
              && InIndexOrder(before, order) && n == Drain(before, order, limit)
              && (Sound(before) ==> (DueKeys(n) == {} <==> Drainable(before, order, limit)))
    {
      DrainStops(w, keys, rest, limit);
      if Sound(before) {
        DrainIsCompleteExactly(before, done + (keys + rest), limit);
      }
    }

    /** Undisturbed, a full batch leaves the rest of the drain to do. */
    static lemma {:induction false} QuietRound(before: World, done: seq<string>, w: World, keys: seq<string>, rest: seq<string>, limit: nat)
      requires limit > 0 && Resumes(before, done, w, limit) && InIndexOrder(w, keys + rest)
      requires |keys| == Min(limit, |keys + rest|) && |Finishing(w, keys)| >= limit
      requires forall k :: k in keys ==> Visitable(CallOf(w, k))
      ensures Resumes(before, done + keys, Sweep(w, keys, ExecutionDeadline, None), limit)
      ensures Sound(w) ==> Sound(Sweep(w, keys, ExecutionDeadline, None))
    {
      DrainResumes(before, done, w, keys, rest, limit);
      if Sound(w) {
        SweepKeeps(w, keys, ExecutionDeadline, None);
      }
    }

    /** Visits every call the lease index lists. */
    method SettleLostClaimsForLease(owner: Owner) returns (end: End, ghost keys: seq<string>)
      requires Valid() && State().phase.Listing? && State().job == ReleaseLease(owner)
      modifies this`pending, this`acts, store
      ensures Valid() && State().job == old(State().job)
      ensures old(acts) <= acts && |pending| <= |old(pending)|
      ensures (end.Completed? ==> State().phase.Succeeded?) && (end.Broken? ==> State().phase.Failed?)
      ensures |pending| == |old(pending)| && !end.Interrupted? ==>
                && pending == old(pending)
                && Distinct(keys) && (forall k :: k in keys <==> owner in CallOf(old(store.world), k).listed)
                && (end.Completed? <==> forall k :: k in keys ==> Visitable(CallOf(old(store.world), k)))
                && (end.Completed? ==> store.world == Sweep(old(store.world), keys, LeaseReleased, Some(owner)))
    {
      var stop: bool := *;
      if stop {
        return Interrupted, [];
      }
      Others();
      var listed := store.ReadLeaseIndex(owner);
      keys := listed;
      ghost var at := State().phase.at;
      Note(ReadKeys(listed));
      var settled;
      end, settled := VisitAll(listed, at, LeaseReleased, Some(owner));
    }

    /**
     * The catalog's release loop (registry/catalog.go:336-389): read the record,
     * read the clock, edit a copy, swap it in if nobody wrote meanwhile. When it
     * returns, the lease has been taken out or was found gone.
     */
    method ReleaseInCatalog(owner: Owner) returns (ok: bool)
      requires Valid() && State().phase.Swapping? && State().job == ReleaseLease(owner)
      modifies this`pending, this`acts, store
      ensures Valid() && State().job == old(State().job) && old(acts) <= acts && |pending| <= |old(pending)|
      ensures ok ==> State().phase.Listing?
      ensures |pending| == |old(pending)| ==>
                pending == old(pending) && forall k :: CallOf(store.world, k) == CallOf(old(store.world), k)
    {
      ghost var job := State().job;
      while true
        invariant Valid() && State().job == job && (State().phase.Swapping? || State().phase.Listing?)
        invariant old(acts) <= acts && |pending| <= |old(pending)|
        invariant |pending| == |old(pending)| ==> pending == old(pending) && store.world == old(store.world)
        decreases |pending|
      {
        var stop: bool := *;
        if stop {
          return false;
        }
        ghost var left := |pending|;
        var raw, t, changed := ReadForRelease(owner);
        if !changed {
          return true;
        }
        ok := CommitRelease(owner, raw, t);
        if ok {
          return;
        }
      }
    }

    /** The record, a clock reading after it, and whether a release would change it. */
    method ReadForRelease(owner: Owner) returns (raw: Option<Catalog.Entry>, t: nat, changed: bool)
      requires Valid() && State().job == ReleaseLease(owner) && (State().phase.Swapping? || State().phase.Listing?)
      modifies this`pending, this`acts, store
      ensures Valid() && State().job == old(State().job) && old(acts) <= acts && |pending| <= |old(pending)|
      ensures State().phase.Swapping? || State().phase.Listing?
      ensures !changed ==> State().phase.Listing?
      ensures changed ==> raw.Some? && t <= store.now
      ensures |pending| == |old(pending)| ==>
                && pending == old(pending) && store.world == old(store.world)
                && raw == CallStore.Lookup(store.catalog, owner.token.toolset)
    {
      Others();
      raw := CallStore.Lookup(store.catalog, owner.token.toolset);
      t, changed := store.now, false;
      if State().phase.Swapping? && LeaseGone(store.world, owner) {
        Note(FindGone);
      }
      if raw.None? || raw.value.token != owner.token {
        return;
      }
      Others();
      t := store.now;
      var next;
      next, changed := CatalogStore.CatalogMap.ReleaseEdit(raw.value, t, owner.token, owner.lease);
    }

    /** Swaps the release in if the record is still the one it was based on. */
    method CommitRelease(owner: Owner, raw: Option<Catalog.Entry>, t: nat) returns (ok: bool)
      requires Valid() && State().job == ReleaseLease(owner) && (State().phase.Swapping? || State().phase.Listing?)
      requires raw.Some? && t <= store.now
      modifies this`pending, this`acts, store
      ensures Valid() && State().job == old(State().job) && old(acts) <= acts && |pending| <= |old(pending)|
      ensures State().phase.Swapping? || State().phase.Listing?
      ensures ok ==> State().phase.Listing?
      ensures !ok && raw == old(CallStore.Lookup(store.catalog, owner.token.toolset)) ==> |pending| < |old(pending)|
      ensures |pending| == |old(pending)| ==>
                pending == old(pending) && forall k :: CallOf(store.world, k) == CallOf(old(store.world), k)
      ensures |pending| == |old(pending)| && !ok ==> store.world == old(store.world)
    {
      var name := owner.token.toolset;
      Others();
      ok := CallStore.Lookup(store.catalog, name) == raw;
      if ok {
        ghost var w, swapping := store.world, State().phase.Swapping?;
        var action := Catalog.Release(owner.token, owner.lease);
        store.SwapCatalog(name, action, t);
        if swapping {
          NoteDone(Swap(t));
        } else {
          NoteDone(Other(CatalogSwap(name, action, t)));
        }
        assert forall k :: CallOf(store.world, k) == CallOf(w, k);
      }
    }

    /**
     * Releases one exact provider lease and settles its calls
     * (registry/service.go:278-296). When it completes and the lease was not
     * registered again after it was taken out or found gone, no retained call
     * claimed by that lease is without a result, whatever the others did.
     * Undisturbed, it completes exactly when every call the index lists is absent
     * or has membership.
     */
    method ReleaseProvider(owner: Owner) returns (end: End)
      requires Valid()
      modifies this, store
      ensures Valid() && start == Begin(old(store.world), ReleaseLease(owner))
      ensures (end.Completed? ==> State().phase.Succeeded?) && (end.Broken? ==> State().phase.Failed?)
      ensures Sound(old(store.world)) && NoRace(start, acts) && NotRenewed(start, acts) ==>
                SweepOk(State()) && (end.Completed? ==> NothingOwedBy(store.world, owner))
      ensures |pending| == |old(pending)| && !end.Interrupted? ==>
                (end.Completed? <==>
                 forall k :: owner in CallOf(old(store.world), k).listed ==> Visitable(CallOf(old(store.world), k)))
    {
      ghost var before := store.world;
      start, acts := Begin(before, ReleaseLease(owner)), [];
      end := Interrupted;
      var ok := ReleaseInCatalog(owner);
      if ok {
        ghost var keys;
        end, keys := SettleLostClaimsForLease(owner);
      }
      if Sound(before) && NoRace(start, acts) && NotRenewed(start, acts) {
        DebtsStayAhead(start, acts);
        if end.Completed? {
          ReleaseLeavesNothingOwed(start, acts);
        }
      }
    }
  }
}
