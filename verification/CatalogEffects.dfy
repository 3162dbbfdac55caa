/**
 * What each catalog action does to the record (registry/catalog.go:140-429,
 * 544-600), stated on the entry before and the entry after.
 */
module CatalogEffects {
  import opened Basics
  import opened Catalog
  import CatalogRuns

  /** Only expired leases went, and no other lease but this one changed. */
  ghost predicate OthersKept(e: Entry, n: Entry, t: nat, key: string) {
    forall k :: k != key ==>
      && (k in n.leases ==> k in e.leases && n.leases[k] == e.leases[k])
      && (k in e.leases && Live(e.leases[k], t) ==> k in n.leases)
  }

  /** The generation, its state and the tombstones are as before. */
  predicate SameOffice(e: Entry, n: Entry) {
    n.token == e.token && n.state == e.state && n.retired == e.retired
  }

  /** Membership was not interrupted: epoch and pong stay. */
  predicate SameEpoch(e: Entry, n: Entry) {
    n.epoch == e.epoch && n.lastPong == e.lastPong
  }

  /** A new membership epoch has begun, and no pong counts for it yet. */
  predicate LaterEpoch(e: Entry, n: Entry) {
    n.epoch > e.epoch && n.lastPong == 0
  }

  /** Pruning ends the epoch exactly when the last non-draining leases have expired. */
  lemma PruneEndsMembership(e: Entry, t: nat)
    ensures var n := Step(Some(e), PruneOnly, t).value;
            && SameOffice(e, n)
            && (forall k :: k in n.leases <==> k in e.leases && Live(e.leases[k], t))
            && (forall k :: k in n.leases ==> n.leases[k] == e.leases[k])
            && (if (exists k :: k in e.leases && !e.leases[k].draining) && !Routable(e, t)
                then n.epoch == e.epoch + 1 && n.lastPong == 0 else SameEpoch(e, n))
  {
    var p := e.(leases := Unexpired(e.leases, t));
    if Routable(e, t) {
      var k :| k in e.leases && !e.leases[k].draining && Live(e.leases[k], t);
      assert k in p.leases;
    }
    if Routable(p, t) {
      var k :| k in p.leases && !p.leases[k].draining && Live(p.leases[k], t);
      assert k in e.leases;
    }
  }

  /**
   * Registering under the current generation gives the provider a fresh lease
   * that is not draining. Epoch and pong survive exactly when another provider
   * was routable at the reading.
   */
  lemma RegisterRenews(e: Entry, t: nat, token: Token, key: string, duration: nat)
    requires e.token == token && token !in e.retired && duration > 0
    ensures var n := Step(Some(e), Register(token, key, duration), t).value;
            && SameOffice(e, n) && OthersKept(e, n, t, key)
            && key in n.leases && n.leases[key] == Lease(t + duration, false)
            && (if Routable(e, t) then SameEpoch(e, n) else LaterEpoch(e, n))
  {
    var p := Prune(e, t);
    if Routable(e, t) {
      var k :| k in e.leases && !e.leases[k].draining && Live(e.leases[k], t);
      assert k in Unexpired(e.leases, t) && Routable(p, t);
    }
    if Routable(p, t) {
      CatalogRuns.PruneKeepsRoutable(e, t);
    }
  }

  /** A first registration, and one that replaces a generation without live leases, starts a generation. */
  lemma RegisterReplaces(o: Option<Entry>, t: nat, token: Token, key: string, duration: nat)
    requires o.Some? ==> o.value.token != token && token !in o.value.retired &&
                         forall k :: k in o.value.leases ==> !Live(o.value.leases[k], t)
    ensures Step(o, Register(token, key, duration), t) ==
            Some(Entry(Active, token, map[key := Lease(t + duration, false)],
                       if o.Some? then o.value.retired + {o.value.token} else {}, 1, 0))
  {
    if o.Some? {
      assert Unexpired(o.value.leases, t) == map[];
    }
  }

  /** A tombstoned token is refused outright, another one waits until every live lease is gone. */
  lemma RegisterIsRefused(e: Entry, t: nat, token: Token, key: string, duration: nat)
    requires token in e.retired || (token != e.token && exists k :: k in e.leases && Live(e.leases[k], t))
    ensures var n := Step(Some(e), Register(token, key, duration), t).value;
            && SameOffice(e, n) && n.leases.Keys <= e.leases.Keys
            && (forall k :: k in n.leases ==> n.leases[k] == e.leases[k])
            && (forall k :: k in e.leases && Live(e.leases[k], t) ==> k in n.leases)
  {
    if token !in e.retired {
      var k :| k in e.leases && Live(e.leases[k], t);
      assert k in Unexpired(e.leases, t);
    }
  }

  /**
   * Draining a live lease takes it out of routing and keeps it alive for at
   * least the drain's duration; nothing else changes, except that losing the last
   * routable lease starts an epoch.
   */
  lemma DrainTakesOutOfRouting(e: Entry, t: nat, token: Token, key: string, duration: nat)
    requires e.token == token && key in e.leases && Live(e.leases[key], t)
    ensures var n := Step(Some(e), Drain(token, key, duration), t).value;
            && SameOffice(e, n) && n.leases.Keys == e.leases.Keys
            && n.leases[key].draining && n.leases[key].expiresAt == Max(e.leases[key].expiresAt, t + duration)
            && (forall k :: k in e.leases && k != key ==> n.leases[k] == e.leases[k])
            && (if Routable(e, t) && !Routable(n, t) then n.epoch == e.epoch + 1 && n.lastPong == 0 else SameEpoch(e, n))
            && (Routable(n, t) <==> exists k :: k in e.leases && k != key && !e.leases[k].draining && Live(e.leases[k], t))
  {
    var n := Step(Some(e), Drain(token, key, duration), t).value;
    if Routable(n, t) {
      var k :| k in n.leases && !n.leases[k].draining && Live(n.leases[k], t);
      assert k in e.leases && k != key && !e.leases[k].draining && Live(e.leases[k], t);
    }
    if k :| k in e.leases && k != key && !e.leases[k].draining && Live(e.leases[k], t) {
      assert k in n.leases && !n.leases[k].draining && Live(n.leases[k], t);
    }
  }

  /** A drain that comes too late, or from another generation, drains nothing. */
  lemma DrainOfNothing(e: Entry, t: nat, token: Token, key: string, duration: nat)
    requires e.token != token || key !in e.leases || !Live(e.leases[key], t)
    ensures var n := Step(Some(e), Drain(token, key, duration), t).value;
            if e.token == token && key in e.leases then n == Prune(e, t) else n == e
  {
  }

  /** Releasing takes exactly this lease out; losing the last routable one starts an epoch. */
  lemma ReleaseTakesLeaseOut(e: Entry, t: nat, token: Token, key: string)
    requires e.token == token
    ensures var n := Step(Some(e), Release(token, key), t).value;
            && SameOffice(e, n) && OthersKept(e, n, t, key) && key !in n.leases
            && (Routable(e, t) && Routable(n, t) ==> SameEpoch(e, n))
            && (Routable(e, t) && !Routable(n, t) ==> LaterEpoch(e, n))
  {
    var p, n := Prune(e, t), Step(Some(e), Release(token, key), t).value;
    if Routable(e, t) {
      var k :| k in e.leases && !e.leases[k].draining && Live(e.leases[k], t);
      assert k in Unexpired(e.leases, t) && Routable(p, t);
      CatalogRuns.PruneKeepsRoutable(e, t);
    }
  }

  /** Retiring tombstones the generation and leaves its leases to finish their work. */
  lemma RetireTombstones(e: Entry, t: nat, token: Token)
    requires e.token == token && (e.state == Retired <==> e.token in e.retired)
    ensures Step(Some(e), Retire(token), t) == Some(e.(state := Retired, retired := e.retired + {token}))
  {
    if e.state == Retired {
      assert e.retired + {token} == e.retired;
    }
  }

  /** Nobody but the current generation retires or releases anything. */
  lemma OthersCannotRetire(e: Entry, t: nat, token: Token, key: string)
    requires e.token != token
    ensures Step(Some(e), Retire(token), t) == Some(e) && Step(Some(e), Release(token, key), t) == Some(e)
  {
  }

  /**
   * A pong answered by a live, routable lease of the current generation and epoch
   * is recorded once nothing is left to prune; the record never goes back in time.
   */
  lemma PongIsRecorded(e: Entry, t: nat, key: string, nanos: nat)
    requires e.state == Active && !HasExpired(e, t)
    requires key in e.leases && !e.leases[key].draining && Live(e.leases[key], t)
    ensures Step(Some(e), Pong(e.token, e.epoch, key, nanos), t) ==
            Some(e.(lastPong := if e.lastPong > Nanos(t, nanos) then e.lastPong else Nanos(t, nanos)))
  {
  }

  /** A pong from an absent, draining or expired lease changes nothing. */
  lemma PongIsRefused(e: Entry, t: nat, token: Token, epoch: nat, key: string, nanos: nat)
    requires key !in e.leases || e.leases[key].draining || !Live(e.leases[key], t) || e.state == Retired
    ensures Step(Some(e), Pong(token, epoch, key, nanos), t) == Some(e)
  {
  }

  // ---------------------------------------------------------------------
  // Drained providers on runs
  // ---------------------------------------------------------------------

  predicate RegistersKey(ev: CatalogRuns.Event, key: string) {
    ev.Do? && ev.action.Register? && ev.action.key == key
  }

  /** The provider is not offered for routing, whatever the time. */
  predicate NotOffered(o: Option<Entry>, key: string) {
    o.Some? && key in o.value.leases ==> o.value.leases[key].draining
  }

  lemma NotOfferedStays(o: Option<Entry>, a: Action, t: nat, key: string)
    requires NotOffered(o, key) && !(a.Register? && a.key == key)
    ensures NotOffered(Step(o, a, t), key)
  {
  }

  /**
   * A drained provider stays out of routing: from the drain on, until its key
   * registers again, it is never among the routable leases, at any reading.
   */
  lemma {:induction false} DrainedStaysOut(name: string, start: nat, evs: seq<CatalogRuns.Event>, n: nat, j: nat, t: nat)
    requires CatalogRuns.IsRun(name, start, evs) && n < j <= |evs|
    requires evs[n].Do? && evs[n].action.Drain?
    requires var o := CatalogRuns.At(start, evs, n).entry;
             && o.Some? && o.value.token == evs[n].action.token && evs[n].action.key in o.value.leases
             && Live(o.value.leases[evs[n].action.key], evs[n].at)
    requires forall m :: n < m < j ==> !RegistersKey(evs[m], evs[n].action.key)
    ensures NotOffered(CatalogRuns.At(start, evs, j).entry, evs[n].action.key)
    ensures var o := CatalogRuns.At(start, evs, j).entry;
            o.Some? ==> evs[n].action.key !in RoutableLeases(o.value, t)
    decreases j
  {
    CatalogRuns.AtNext(start, evs, j - 1);
    var o := CatalogRuns.At(start, evs, j - 1).entry;
    if j == n + 1 {
      DrainTakesOutOfRouting(o.value, evs[n].at, evs[n].action.token, evs[n].action.key, evs[n].action.duration);
    } else {
      DrainedStaysOut(name, start, evs, n, j - 1, t);
      if evs[j - 1].Do? {
        NotOfferedStays(o, evs[j - 1].action, evs[j - 1].at, evs[n].action.key);
      }
    }
  }
}
