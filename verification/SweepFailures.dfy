/**
 * Why a sweep fails: a visit that finds no membership
 * (registry/call_admission.go:805-812). Somebody else took it meanwhile, or a
 * lease index listed the call without it.
 */
module SweepFailures {
  import opened Basics
  import opened Records
  import opened CallProtocol
  import opened CallInvariants
  import opened CallTheorems
  import opened Settlement
  import opened Sweeps

  /**
   * A visit that finds no membership fails, and leaves nothing owed: the call
   * has its result, was never claimed, or its record is gone or past retention.
   */
  lemma {:induction false} FailedVisitOwesNothing(m: Sweeper, act: Act)
    requires Sound(m.world) && InRound(m.phase) && Enabled(m, act) && m.phase.round.next < |m.phase.round.keys|
    ensures Next(m, act).phase.Failed? <==>
            act == ReadMembership && CallOf(m.world, KeyOf(m.phase)).member.None?
    ensures Next(m, act).phase.Failed? ==>
            var c := CallOf(m.world, KeyOf(m.phase));
            !InFlight(c) || !Retained(c, m.world.now)
  {
    assert IndexesOk(CallOf(m.world, KeyOf(m.phase)), m.world.now);
  }

  /** This key lies ahead of the sweep, in a round it is working on or has failed in. */
  predicate Awaits(p: Phase, key: string) {
    HasRound(p) && p.round.next < |p.round.keys| && key in p.round.keys[p.round.next..]
  }

  /** Act n, by somebody else, took the call's membership while the sweep had the call ahead. */
  ghost predicate TakenBy(m: Sweeper, acts: seq<Act>, n: nat, key: string) {
    n < |acts| && IsSweep(m, acts[..n]) && TakesFrom(After(m, acts[..n]), acts[n], key)
  }

  ghost predicate TakesFrom(m: Sweeper, act: Act, key: string) {
    && act.Other? && Enabled(m, act) && Awaits(m.phase, key)
    && CallOf(m.world, key).member.Some? && CallOf(Next(m, act).world, key).member.None?
  }

  /** The sweep read the key at act n without membership: the index listed it although nobody works on it. */
  ghost predicate ReadBare(m: Sweeper, acts: seq<Act>, n: nat, key: string) {
    && n < |acts| && acts[n].ReadKeys? && key in acts[n].keys && IsSweep(m, acts[..n])
    && CallOf(After(m, acts[..n]).world, key).member.None?
  }

  lemma {:induction false} SweepPrefix(m: Sweeper, acts: seq<Act>, n: nat)
    requires IsSweep(m, acts) && n <= |acts|
    ensures IsSweep(m, acts[..n])
    decreases |acts|
  {
    if n < |acts| {
      SweepPrefix(m, acts[..|acts| - 1], n);
      assert acts[..|acts| - 1][..n] == acts[..n];
    } else {
      assert acts[..n] == acts;
    }
  }

  predicate RoundOk(p: Phase) {
    HasRound(p) ==> Distinct(p.round.keys) && p.round.next <= |p.round.keys|
  }

  lemma {:induction false} RoundsStayOk(m: Sweeper, acts: seq<Act>)
    requires Sound(m.world) && RoundOk(m.phase) && IsSweep(m, acts) && NoRace(m, acts)
    ensures Sound(After(m, acts).world) && RoundOk(After(m, acts).phase) && After(m, acts).job == m.job
    decreases |acts|
  {
    if acts != [] {
      RoundsStayOk(m, acts[..|acts| - 1]);
      StepKeepsSound(After(m, acts[..|acts| - 1]), acts[|acts| - 1]);
    }
  }

  lemma {:induction false} BehindIsAnother(r: Round, key: string)
    requires Distinct(r.keys) && r.next < |r.keys| && key in r.keys[r.next + 1..]
    ensures key != r.keys[r.next]
  {
    var i :| 0 <= i < |r.keys[r.next + 1..]| && r.keys[r.next + 1..][i] == key;
    assert r.keys[r.next + 1 + i] == key;
  }

  /** The script leaves the keys behind it as they were. */
  lemma {:induction false} ScriptSparesOthers(m: Sweeper, key: string)
    requires RoundOk(m.phase) && Enabled(m, RunScript) && Awaits(Next(m, RunScript).phase, key)
    ensures Awaits(m.phase, key) && CallOf(Next(m, RunScript).world, key) == CallOf(m.world, key)
  {
    AheadSplits(m.phase.round, key);
    BehindIsAnother(m.phase.round, key);
  }

  /** A drain reads only calls with membership, since the deadline index and membership agree. */
  lemma {:induction false} DueHasMembership(m: Sweeper, keys: seq<string>, key: string)
    requires Sound(m.world) && Enabled(m, ReadKeys(keys)) && Awaits(Next(m, ReadKeys(keys)).phase, key)
    ensures key in keys && (m.job.DrainDue? ==> CallOf(m.world, key).member.Some?)
  {
    assert keys[0..] == keys;
    assert IndexesOk(CallOf(m.world, key), m.world.now);
  }

  /** One act: a call the sweep awaits without membership was so before, has just been read so, or was just taken. */
  lemma {:induction false} MembershipStep(m: Sweeper, act: Act, key: string)
    requires Sound(m.world) && RoundOk(m.phase) && Enabled(m, act)
    requires Awaits(Next(m, act).phase, key) && CallOf(Next(m, act).world, key).member.None?
    ensures || (Awaits(m.phase, key) && CallOf(m.world, key).member.None?)
            || (Awaits(m.phase, key) && CallOf(m.world, key).member.Some? && act.Other?)
            || (m.job.ReleaseLease? && act.ReadKeys? && key in act.keys && CallOf(m.world, key).member.None?)
  {
    match act {
      case RunScript => ScriptSparesOthers(m, key);
      case ReadKeys(keys) => DueHasMembership(m, keys, key);
      case _ =>
    }
  }

  /**
   * Why a visit fails. A call the sweep still has ahead lacks membership only if
   * somebody else took it meanwhile, by settling, completing or cleaning up; or,
   * for a release, if the lease index listed it without membership to begin with,
   * left there by an expiry or by a settle script under an outdated index.
   */
  lemma {:induction false} MissingMembershipHasCause(m: Sweeper, acts: seq<Act>, key: string) returns (n: nat)
    requires Sound(m.world) && !HasRound(m.phase) && IsSweep(m, acts) && NoRace(m, acts)
    requires Awaits(After(m, acts).phase, key) && CallOf(After(m, acts).world, key).member.None?
    ensures TakenBy(m, acts, n, key) || (m.job.ReleaseLease? && ReadBare(m, acts, n, key))
    decreases |acts|
  {
    var last := |acts| - 1;
    var init := acts[..last];
    var before := After(m, init);
    RoundsStayOk(m, init);
    MembershipStep(before, acts[last], key);
    if Awaits(before.phase, key) && CallOf(before.world, key).member.None? {
      n := MissingMembershipHasCause(m, init, key);
      CauseStays(m, acts, n, key);
    } else {
      n := last;
      CauseIsLast(m, acts, key);
    }
  }

  /** A cause within the first acts is one within all. */
  lemma {:induction false} CauseStays(m: Sweeper, acts: seq<Act>, n: nat, key: string)
    requires acts != []
    ensures TakenBy(m, acts[..|acts| - 1], n, key) ==> TakenBy(m, acts, n, key)
    ensures ReadBare(m, acts[..|acts| - 1], n, key) ==> ReadBare(m, acts, n, key)
  {
    var init := acts[..|acts| - 1];
    if n < |init| {
      assert init[..n] == acts[..n] && init[n] == acts[n];
    }
  }

  /** The last act took the membership, or read the key without it. */
  lemma {:induction false} CauseIsLast(m: Sweeper, acts: seq<Act>, key: string)
    requires IsSweep(m, acts) && acts != [] && CallOf(After(m, acts).world, key).member.None?
    ensures var last, before := |acts| - 1, After(m, acts[..|acts| - 1]);
            && (Awaits(before.phase, key) && CallOf(before.world, key).member.Some? && acts[last].Other? ==>
                  TakenBy(m, acts, last, key))
            && (acts[last].ReadKeys? && key in acts[last].keys && CallOf(before.world, key).member.None? ==>
                  ReadBare(m, acts, last, key))
  {
    assert acts[..|acts|] == acts;
  }

  /** The sweep's next operation, a membership read, makes it fail. */
  ghost predicate FailsNext(m: Sweeper, acts: seq<Act>) {
    && IsSweep(m, acts) && Enabled(After(m, acts), ReadMembership)
    && Next(After(m, acts), ReadMembership).phase.Failed?
  }

  /** At act n somebody else took the membership of the call the sweep is working on. */
  ghost predicate LostToOther(m: Sweeper, acts: seq<Act>, n: nat)
    requires FailsNext(m, acts)
  {
    TakenBy(m, acts, n, KeyOf(After(m, acts).phase))
  }

  /** A drain fails only because somebody else took the membership of a call it had read. */
  lemma {:induction false} DrainFailsOnlyThroughOthers(m: Sweeper, acts: seq<Act>) returns (n: nat)
    requires Sound(m.world) && m.job.DrainDue? && m == Begin(m.world, m.job)
    requires FailsNext(m, acts) && NoRace(m, acts)
    ensures LostToOther(m, acts, n)
  {
    var p := After(m, acts).phase;
    RoundsStayOk(m, acts);
    assert p.round.keys[p.round.next..][0] == KeyOf(p);
    n := MissingMembershipHasCause(m, acts, KeyOf(p));
  }

  /** No operation of the run leaves an outdated listing behind. */
  ghost predicate TidySweep(m: Sweeper, acts: seq<Act>)
    requires IsSweep(m, acts)
    decreases |acts|
  {
    acts == [] ||
    (&& TidySweep(m, acts[..|acts| - 1])
     && var n, act := After(m, acts[..|acts| - 1]), acts[|acts| - 1];
     && (OpOf(n, act).Some? ==> !Untidy(n.world, OpOf(n, act).value)))
  }

  /** A tidy run is free of races, and keeps every listing exact at every moment. */
  lemma {:induction false} TidyKeepsListings(m: Sweeper, acts: seq<Act>)
    requires Sound(m.world) && AllListed(m.world) && IsSweep(m, acts) && TidySweep(m, acts)
    ensures NoRace(m, acts) && Sound(After(m, acts).world) && AllListed(After(m, acts).world) && After(m, acts).job == m.job
    decreases |acts|
  {
    if acts != [] {
      var init, act := acts[..|acts| - 1], acts[|acts| - 1];
      TidyKeepsListings(m, init);
      var n := After(m, init);
      StepKeepsSound(n, act);
      if OpOf(n, act).Some? {
        OwnOpIsPossible(n, act);
        ListingKeptExactlyWhenTidy(n.world, OpOf(n, act).value);
      }
    }
  }

  lemma {:induction false} TidyPrefix(m: Sweeper, acts: seq<Act>, n: nat)
    requires IsSweep(m, acts) && TidySweep(m, acts) && n <= |acts|
    ensures IsSweep(m, acts[..n]) && TidySweep(m, acts[..n])
    decreases |acts|
  {
    if n < |acts| {
      TidyPrefix(m, acts[..|acts| - 1], n);
      assert acts[..|acts| - 1][..n] == acts[..n];
    } else {
      assert acts[..n] == acts;
    }
  }

  /** With exact listings, whatever a lease index lists has its membership. */
  lemma {:induction false} ListedIsVisitable(w: World, key: string, owner: Owner)
    requires AllListed(w) && owner in CallOf(w, key).listed
    ensures CallOf(w, key).member == Some(owner) && Visitable(CallOf(w, key))
  {
    assert ListedExactly(CallOf(w, key), w.now);
  }

  /**
   * On a tidy run a release, too, fails only because somebody else took the
   * membership of a call it had read.
   */
  lemma {:induction false} ReleaseFailsOnlyThroughOthers(m: Sweeper, acts: seq<Act>) returns (n: nat)
    requires Sound(m.world) && AllListed(m.world) && m.job.ReleaseLease? && m == Begin(m.world, m.job)
    requires FailsNext(m, acts) && TidySweep(m, acts)
    ensures LostToOther(m, acts, n)
  {
    TidyKeepsListings(m, acts);
    var p := After(m, acts).phase;
    assert p.round.keys[p.round.next..][0] == KeyOf(p);
    n := MissingMembershipHasCause(m, acts, KeyOf(p));
    ReadIsNotBare(m, acts, n, KeyOf(p));
  }

  lemma {:induction false} ReadHasMembership(m: Sweeper, keys: seq<string>, key: string)
    requires AllListed(m.world) && m.job.ReleaseLease? && Enabled(m, ReadKeys(keys)) && key in keys
    ensures CallOf(m.world, key).member.Some?
  {
    ListedIsVisitable(m.world, key, m.job.owner);
  }

  /** On a tidy run a release never reads a listed call without membership. */
  lemma {:induction false} ReadIsNotBare(m: Sweeper, acts: seq<Act>, n: nat, key: string)
    requires Sound(m.world) && AllListed(m.world) && m.job.ReleaseLease? && IsSweep(m, acts) && TidySweep(m, acts)
    ensures !ReadBare(m, acts, n, key)
  {
    if n < |acts| && acts[n].ReadKeys? && key in acts[n].keys {
      SweepPrefix(m, acts, n + 1);
      assert acts[..n + 1][..n] == acts[..n];
      TidyPrefix(m, acts, n);
      TidyKeepsListings(m, acts[..n]);
      ReadHasMembership(After(m, acts[..n]), acts[n].keys, key);
    }
  }
}
