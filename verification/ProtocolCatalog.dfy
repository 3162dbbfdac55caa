/**
 * The catalog inside the protocol: every run of the whole registry is, seen from
 * one toolset's record, a run of CatalogRuns. So what that module proves of one
 * record holds of every protocol run.
 */
module ProtocolCatalog {
  import opened Basics
  import Catalog
  import CatalogRuns
  import opened CallProtocol
  import CallTheorems

  function EntryOf(w: World, name: string): Option<Catalog.Entry> {
    if name in w.catalog then Some(w.catalog[name]) else None
  }

  function MomentOf(w: World, name: string): CatalogRuns.Moment {
    CatalogRuns.Moment(w.now, EntryOf(w, name))
  }

  /** What an operation is, seen from one toolset's record. */
  function EventsOf(op: Op, name: string): (evs: seq<CatalogRuns.Event>)
    ensures |evs| <= 1
  {
    match op
    case Tick(elapsed) => [CatalogRuns.Tick(elapsed)]
    case CatalogSwap(n, action, at) => if n == name then [CatalogRuns.Do(action, at)] else []
    case _ => []
  }

  function CatalogView(ops: seq<Op>, name: string): seq<CatalogRuns.Event> {
    if ops == [] then [] else CatalogView(ops[..|ops| - 1], name) + EventsOf(ops[|ops| - 1], name)
  }

  lemma {:induction false} StepRefinesCatalog(w: World, op: Op, name: string)
    requires Possible(w, op)
    ensures var evs, m := EventsOf(op, name), MomentOf(w, name);
            if evs == [] then MomentOf(Apply(w, op), name) == m
            else CatalogRuns.Possible(name, m, evs[0]) && MomentOf(Apply(w, op), name) == CatalogRuns.Next(m, evs[0])
  {
    if op.CatalogSwap? && op.name == name && name in w.catalog {
      assert Catalog.Step(Some(w.catalog[name]), op.action, op.at).Some?;
    }
  }

  lemma {:induction false} PrefixRuns(ops: seq<Op>, i: nat)
    requires IsRun(INITIAL, ops) && i <= |ops|
    ensures IsRun(INITIAL, ops[..i]) && IsRun(Run(INITIAL, ops[..i]), ops[i..])
    ensures Run(INITIAL, ops) == Run(Run(INITIAL, ops[..i]), ops[i..])
  {
    assert ops == ops[..i] + ops[i..];
    CallTheorems.RunConcat(INITIAL, ops[..i], ops[i..]);
  }

  /** The protocol drives each catalog record only through the record's own events. */
  lemma {:induction false} ProtocolRefinesCatalog(ops: seq<Op>, name: string)
    requires IsRun(INITIAL, ops)
    ensures CatalogRuns.IsRun(name, 0, CatalogView(ops, name))
    ensures CatalogRuns.Run(0, CatalogView(ops, name)) == MomentOf(Run(INITIAL, ops), name)
  {
    if ops != [] {
      var n := |ops| - 1;
      var init, last := ops[..n], ops[n];
      PrefixRuns(ops, n);
      assert ops[n..] == [last] && [last][1..] == [];
      var w := Run(INITIAL, init);
      assert Run(w, [last]) == Apply(w, last) by { assert Run(Apply(w, last), []) == Apply(w, last); }
      ProtocolRefinesCatalog(init, name);
      StepRefinesCatalog(w, last, name);
      var view, evs := CatalogView(init, name), EventsOf(last, name);
      if evs == [] {
        assert view + evs == view;
      } else {
        assert view + evs == view + [evs[0]];
        assert (view + [evs[0]])[..|view|] == view;
      }
    }
  }

  /** The view of a prefix is a prefix of the view, and its moment is the prefix's. */
  lemma {:induction false} ViewPrefix(ops: seq<Op>, name: string, i: nat)
    requires i <= |ops|
    ensures CatalogView(ops[..i], name) <= CatalogView(ops, name)
    decreases |ops|
  {
    if i < |ops| {
      ViewPrefix(ops[..|ops| - 1], name, i);
      assert ops[..|ops| - 1][..i] == ops[..i];
    } else {
      assert ops[..i] == ops;
    }
  }

  /** The moment of the record after the first i operations, as an index into its events. */
  function Index(ops: seq<Op>, name: string, i: nat): nat
    requires i <= |ops|
  {
    |CatalogView(ops[..i], name)|
  }

  lemma PrefixMoment(view: seq<CatalogRuns.Event>, prefix: seq<CatalogRuns.Event>)
    requires prefix <= view
    ensures CatalogRuns.At(0, view, |prefix|) == CatalogRuns.Run(0, prefix)
  {
    assert view[..|prefix|] == prefix;
  }

  lemma {:induction false} MomentAt(ops: seq<Op>, name: string, i: nat)
    requires IsRun(INITIAL, ops) && i <= |ops|
    ensures Index(ops, name, i) <= |CatalogView(ops, name)|
    ensures CatalogRuns.At(0, CatalogView(ops, name), Index(ops, name, i)) == MomentOf(Run(INITIAL, ops[..i]), name)
  {
    ViewPrefix(ops, name, i);
    PrefixRuns(ops, i);
    ProtocolRefinesCatalog(ops[..i], name);
    PrefixMoment(CatalogView(ops, name), CatalogView(ops[..i], name));
  }

  lemma {:induction false} IndexMonotone(ops: seq<Op>, name: string, i: nat, j: nat)
    requires i <= j <= |ops|
    ensures Index(ops, name, i) <= Index(ops, name, j)
  {
    ViewPrefix(ops[..j], name, i);
    assert ops[..j][..i] == ops[..i];
  }

  /** Every event between two prefixes is an operation between them. */
  lemma {:induction false} EventIsOperation(ops: seq<Op>, name: string, i: nat, j: nat, m: nat) returns (n: nat)
    requires i < j <= |ops| && Index(ops, name, i) <= m < Index(ops, name, j)
    ensures i <= n < j && m < |CatalogView(ops, name)| && EventsOf(ops[n], name) == [CatalogView(ops, name)[m]]
    decreases j
  {
    ViewPrefix(ops, name, j);
    ViewPrefix(ops, name, j - 1);
    assert ops[..j][..j - 1] == ops[..j - 1] && ops[..j][j - 1] == ops[j - 1];
    if m < Index(ops, name, j - 1) {
      n := EventIsOperation(ops, name, i, j - 1, m);
    } else {
      n := j - 1;
      assert CatalogView(ops[..j], name)[m] == EventsOf(ops[j - 1], name)[0];
    }
  }

  /** The operation is an action of the lease's holder on its own lease. */
  predicate TouchedBy(op: Op, name: string, token: Catalog.Token, key: string) {
    op.CatalogSwap? && op.name == name && Catalog.Touches(op.action, token, key)
  }

  /**
   * Exclusive generations on every protocol run: while a lease is unexpired and
   * its holder has not touched it again, no other token holds the record.
   */
  lemma {:induction false} LeaseKeepsItsGeneration(ops: seq<Op>, name: string, i: nat, j: nat, key: string)
    requires IsRun(INITIAL, ops) && i <= j <= |ops|
    requires var a := EntryOf(Run(INITIAL, ops[..i]), name);
             && a.Some? && key in a.value.leases && Catalog.Live(a.value.leases[key], Run(INITIAL, ops[..j]).now)
             && forall n :: i <= n < j ==> !TouchedBy(ops[n], name, a.value.token, key)
    ensures var a, b := EntryOf(Run(INITIAL, ops[..i]), name), EntryOf(Run(INITIAL, ops[..j]), name);
            b.Some? && b.value.token == a.value.token && key in b.value.leases && b.value.leases[key] == a.value.leases[key]
  {
    ProtocolRefinesCatalog(ops, name);
    MomentAt(ops, name, i);
    MomentAt(ops, name, j);
    IndexMonotone(ops, name, i, j);
    UntouchedEvents(ops, name, i, j, EntryOf(Run(INITIAL, ops[..i]), name).value.token, key);
    CatalogRuns.LeaseKeepsItsGeneration(name, 0, CatalogView(ops, name), Index(ops, name, i), Index(ops, name, j), key);
  }

  lemma {:induction false} UntouchedEvents(ops: seq<Op>, name: string, i: nat, j: nat, token: Catalog.Token, key: string)
    requires i <= j <= |ops| && Index(ops, name, j) <= |CatalogView(ops, name)|
    requires forall n :: i <= n < j ==> !TouchedBy(ops[n], name, token, key)
    ensures forall m :: Index(ops, name, i) <= m < Index(ops, name, j) && CatalogView(ops, name)[m].Do? ==>
              !Catalog.Touches(CatalogView(ops, name)[m].action, token, key)
  {
    var view := CatalogView(ops, name);
    forall m | Index(ops, name, i) <= m < Index(ops, name, j) && view[m].Do?
      ensures !Catalog.Touches(view[m].action, token, key)
    {
      var n := EventIsOperation(ops, name, i, j, m);
      assert !TouchedBy(ops[n], name, token, key);
    }
  }

  /** On every protocol run a superseded (token, epoch) never becomes current again. */
  lemma {:induction false} IdentityNeverReturns(ops: seq<Op>, name: string, i: nat, j: nat, k: nat)
    requires IsRun(INITIAL, ops) && i <= j <= k <= |ops|
    requires EntryOf(Run(INITIAL, ops[..i]), name).Some? && EntryOf(Run(INITIAL, ops[..j]), name).Some?
    requires Catalog.Identity(EntryOf(Run(INITIAL, ops[..i]), name).value) !=
             Catalog.Identity(EntryOf(Run(INITIAL, ops[..j]), name).value)
    ensures EntryOf(Run(INITIAL, ops[..k]), name).Some?
    ensures Catalog.Identity(EntryOf(Run(INITIAL, ops[..k]), name).value) !=
            Catalog.Identity(EntryOf(Run(INITIAL, ops[..i]), name).value)
  {
    ProtocolRefinesCatalog(ops, name);
    MomentAt(ops, name, i);
    MomentAt(ops, name, j);
    MomentAt(ops, name, k);
    IndexMonotone(ops, name, i, j);
    IndexMonotone(ops, name, j, k);
    CatalogRuns.IdentityNeverReturns(name, 0, CatalogView(ops, name),
      Index(ops, name, i), Index(ops, name, j), Index(ops, name, k));
  }

  /** On every protocol run a healthy record attests its pong and the membership since, with the exact condition. */
  lemma {:induction false} HealthIsAttested(ops: seq<Op>, name: string, ms: nat, rest: nat, threshold: nat) returns (r: nat, i: nat)
    requires IsRun(INITIAL, ops) && CatalogRuns.PongsReadFirst(0, CatalogView(ops, name))
    requires var w := Run(INITIAL, ops);
             EntryOf(w, name).Some? && w.now <= ms && Catalog.Healthy(EntryOf(w, name).value, ms, rest, threshold)
    ensures CatalogRuns.Attested(0, CatalogView(ops, name), r, i, EntryOf(Run(INITIAL, ops), name).value,
                                 Catalog.Nanos(ms, rest), threshold)
  {
    ProtocolRefinesCatalog(ops, name);
    r, i := CatalogRuns.HealthImpliesContinuousMembership(name, 0, CatalogView(ops, name), ms, rest, threshold);
  }
}
