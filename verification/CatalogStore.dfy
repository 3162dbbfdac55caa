/**
 * The catalog's retry loops: read the record, read the clock, edit a copy, and
 * swap it in only if nobody else wrote meanwhile. Other replicas may write
 * anything valid between any two of those operations. Each loop takes effect
 * only as atomic steps of the record that was current at the swap, and stops as
 * soon as the other replicas stop writing (registry/catalog.go).
 */
module CatalogStore {
  import opened Basics
  import opened Catalog
  import CatalogRuns
  import CatalogEffects

  const MIN_LEASE_MS: nat := 45000
  const MAX_LEASE_MS: nat := 86400000

  /** What somebody else does: any valid write after some time, or an event of a run of this catalog. */
  datatype Foreign = Overwrite(entry: Entry, elapsed: nat) | Lawful(event: CatalogRuns.Event)

  /** One swap of ours: decided on clock reading `at`, committed at `commit`. */
  datatype Write = Write(before: Option<Entry>, action: Action, at: nat, commit: nat, after: Option<Entry>)

  predicate Atomic(w: Write) {
    w.after == Step(w.before, w.action, w.at) && w.at <= w.commit
  }

  datatype RegisterResult =
    | Registered(entry: Entry)
    | AdmissionRetired
    | AdmissionBlocked
    | InvalidDuration

  datatype RetireResult = RetireOk | RetireConflict

  datatype HealthResult = NotFound | Health(healthy: bool, providers: nat)

  lemma CountsDecide(e: Entry, t: nat)
    ensures |NonDraining(e)| > 0 <==> HasNonDraining(e)
    ensures |RoutableLeases(e, t)| > 0 <==> Routable(e, t)
  {
    if HasNonDraining(e) {
      var k :| k in e.leases && !e.leases[k].draining;
      assert k in NonDraining(e);
    }
    if Routable(e, t) {
      var k :| k in e.leases && !e.leases[k].draining && Live(e.leases[k], t);
      assert k in RoutableLeases(e, t);
    }
  }

  method CountNonDraining(e: Entry) returns (count: nat)
    ensures count == |NonDraining(e)|
  {
    ghost var all := NonDraining(e);
    var rest := e.leases.Keys;
    count := 0;
    assert all * rest == all;
    while rest != {}
      invariant rest <= e.leases.Keys && count + |all * rest| == |all|
      decreases |rest|
    {
      var k :| k in rest;
      assert all * (rest - {k}) == (all * rest) - {k};
      if !e.leases[k].draining {
        assert k in all * rest;
        count := count + 1;
      }
      rest := rest - {k};
    }
  }

  method CountRoutable(e: Entry, t: nat) returns (count: nat)
    ensures count == |RoutableLeases(e, t)|
    ensures count > 0 <==> Routable(e, t)
  {
    ghost var all := RoutableLeases(e, t);
    var rest := e.leases.Keys;
    count := 0;
    assert all * rest == all;
    while rest != {}
      invariant rest <= e.leases.Keys && count + |all * rest| == |all|
      decreases |rest|
    {
      var k :| k in rest;
      assert all * (rest - {k}) == (all * rest) - {k};
      if !e.leases[k].draining && Live(e.leases[k], t) {
        assert k in all * rest;
        count := count + 1;
      }
      rest := rest - {k};
    }
    CountsDecide(e, t);
  }

  /** Deletes expired leases one by one and reports whether any was deleted. */
  method PruneExpired(e: Entry, t: nat) returns (p: Entry, changed: bool)
    ensures p == Prune(e, t) && changed == HasExpired(e, t)
  {
    p, changed := e, false;
    var had := CountNonDraining(e);
    var rest := e.leases.Keys;
    while rest != {}
      invariant rest <= e.leases.Keys
      invariant p == e.(leases := p.leases)
      invariant forall k :: k in p.leases <==> k in e.leases && (k in rest || Live(e.leases[k], t))
      invariant forall k :: k in p.leases ==> p.leases[k] == e.leases[k]
      invariant changed <==> exists k :: k in e.leases && k !in rest && !Live(e.leases[k], t)
      decreases |rest|
    {
      var k :| k in rest;
      if !Live(e.leases[k], t) {
        p := p.(leases := p.leases - {k});
        changed := true;
      }
      rest := rest - {k};
    }
    assert p.leases == Unexpired(e.leases, t);
    var left := CountRoutable(p, t);
    CountsDecide(e, t);
    if had > 0 && left == 0 {
      p := p.(epoch := p.epoch + 1, lastPong := 0);
    }
  }

  class CatalogMap {
    const name: string
    var entry: Option<Entry>
    var now: nat
    /** What the other replicas are still going to write. */
    var pending: seq<Foreign>
    /** Every value the record has held, and every swap of ours. */
    ghost var held: seq<Option<Entry>>
    ghost var log: seq<Write>
    /** The record's whole run, for as long as the others wrote only as this catalog does. */
    const began: nat
    ghost var evs: seq<CatalogRuns.Event>
    ghost var lawful: bool

    ghost predicate Valid()
      reads this
    {
      && (entry.Some? ==> Catalog.Valid(name, entry.value))
      && (forall i :: 0 <= i < |pending| && pending[i].Overwrite? ==> Catalog.Valid(name, pending[i].entry))
      && |held| > 0 && held[|held| - 1] == entry
      && (lawful ==> IsHistory())
    }

    /** The events so far are a run that ended in the current record. */
    ghost predicate IsHistory()
      reads this
    {
      && CatalogRuns.IsRun(name, began, evs) && CatalogRuns.PongsReadFirst(began, evs)
      && CatalogRuns.Run(began, evs) == CatalogRuns.Moment(now, entry)
    }

    constructor (name: string, now: nat, pending: seq<Foreign>)
      requires forall i :: 0 <= i < |pending| && pending[i].Overwrite? ==> Catalog.Valid(name, pending[i].entry)
      ensures Valid() && entry == None && this.now == now && this.pending == pending
      ensures held == [None] && log == [] && lawful && evs == [] && began == now
    {
      this.name, this.now, this.pending, this.began := name, now, pending, now;
      entry := None;
      held, log, evs, lawful := [None], [], [], true;
    }

    /** Other replicas write some of what they have pending. */
    method Others()
      requires Valid()
      modifies this`entry, this`now, this`pending, this`held, this`evs, this`lawful
      ensures Valid() && now >= old(now) && |pending| <= |old(pending)|
      ensures entry != old(entry) ==> |pending| < |old(pending)|
      ensures old(held) <= held && old(evs) <= evs && (lawful ==> old(lawful))
    {
      var n :| 0 <= n <= |pending|;
      while n > 0
        invariant Valid() && now >= old(now) && 0 <= n <= |pending| <= |old(pending)|
        invariant entry != old(entry) ==> |pending| < |old(pending)|
        invariant old(held) <= held && old(evs) <= evs && (lawful ==> old(lawful))
      {
        var next := pending[0];
        pending := pending[1..];
        match next {
          case Overwrite(written, elapsed) =>
            entry, now := Some(written), now + elapsed;
            held := held + [entry];
            lawful := false;
          case Lawful(event) => Happen(event);
        }
        n := n - 1;
      }
    }

    /** An event by another replica that runs this catalog, if it can happen now. */
    method Happen(event: CatalogRuns.Event)
      requires Valid()
      modifies this`entry, this`now, this`held, this`evs, this`lawful
      ensures Valid() && now >= old(now) && old(held) <= held && old(evs) <= evs && (lawful ==> old(lawful))
    {
      var m := CatalogRuns.Moment(now, entry);
      if CatalogRuns.Possible(name, m, event) {
        var n := CatalogRuns.Next(m, event);
        if event.Do? {
          StepKeepsValid(name, entry, event.action, event.at);
        }
        lawful := lawful && CatalogRuns.ReadFirst(began, evs + [event], |evs|);
        Extend(event, m);
        entry, now := n.entry, n.now;
        held, evs := held + [entry], evs + [event];
      }
    }

    /** One more event of the run. */
    ghost method Extend(event: CatalogRuns.Event, m: CatalogRuns.Moment)
      ensures lawful && IsHistory() && m == CatalogRuns.Moment(now, entry) && CatalogRuns.Possible(name, m, event) &&
              CatalogRuns.ReadFirst(began, evs + [event], |evs|) ==>
                && CatalogRuns.IsRun(name, began, evs + [event]) && CatalogRuns.PongsReadFirst(began, evs + [event])
                && CatalogRuns.Run(began, evs + [event]) == CatalogRuns.Next(m, event)
    {
      if lawful && IsHistory() {
        CatalogRuns.RunExtends(name, began, evs, event);
      }
    }

    /** Reads the authoritative record. */
    method Read() returns (raw: Option<Entry>)
      requires Valid()
      modifies this`entry, this`now, this`pending, this`held, this`evs, this`lawful
      ensures Valid() && raw == entry && now >= old(now) && |pending| <= |old(pending)|
      ensures old(held) <= held && old(evs) <= evs && (lawful ==> old(lawful))
    {
      Others();
      raw := entry;
    }

    /** Reads Redis TIME, some while after the record was read. */
    method Clock() returns (t: nat)
      requires Valid()
      modifies this`entry, this`now, this`pending, this`held, this`evs, this`lawful
      ensures Valid() && t == now && now >= old(now) && |pending| <= |old(pending)|
      ensures entry != old(entry) ==> |pending| < |old(pending)|
      ensures old(held) <= held && old(evs) <= evs && (lawful ==> old(lawful))
    {
      Others();
      t := now;
    }

    /** Exact compare-and-swap; `a` and `at` say which action it performs, `r` when a pong's identity was read. */
    method TestAndSet(test: Option<Entry>, next: Entry, ghost a: Action, ghost at: nat, ghost r: nat)
      returns (updated: bool)
      requires Valid() && Legal(name, a)
      requires Step(test, a, at) == Some(next) && at <= now
      requires a.Pong? && lawful ==> r <= |evs| && CatalogRuns.ReadAt(began, evs, r, a, at)
      modifies this`entry, this`now, this`pending, this`held, this`log, this`evs, this`lawful
      ensures Valid() && now >= old(now) && |pending| <= |old(pending)|
      ensures old(evs) <= evs && (lawful ==> old(lawful))
      ensures updated ==>
                entry == Some(next) && old(held) < held &&
                held[|held| - 2] == test &&
                log == old(log) + [Write(test, a, at, now, Some(next))]
      ensures !updated ==>
                log == old(log) && entry != test && old(held) <= held &&
                (old(entry) == test ==> |pending| < |old(pending)|)
    {
      ghost var before := evs;
      Others();
      updated := entry == test;
      if updated {
        StepKeepsValid(name, test, a, at);
        ghost var event, m := CatalogRuns.Do(a, at), CatalogRuns.Moment(now, entry);
        if a.Pong? && lawful {
          CatalogRuns.ReadStays(began, before, evs, r, a, at);
        }
        Extend(event, m);
        entry := Some(next);
        held := held + [entry];
        log := log + [Write(test, a, at, now, entry)];
        evs := evs + [event];
      }
    }

    /** What our swaps since `mark` did: only atomic steps of these two kinds. */
    ghost predicate OnlySteps(mark: nat, a: Action)
      reads this
    {
      && mark <= |log|
      && forall i :: mark <= i < |log| ==> Atomic(log[i]) && (log[i].action == a || log[i].action == PruneOnly)
    }

    /**
     * The call took effect at one point: a value the record held during the
     * call, on which the action is exactly what it did.
     */
    ghost predicate TookEffect(mark: nat, heldMark: nat, a: Action, p: Write)
      reads this
    {
      && Atomic(p) && p.action == a
      && (exists i :: heldMark <= i < |held| && held[i] == p.before)
      && mark <= |log|
      && (log == log[..mark] + [p] || (log == log[..mark] && p.after == p.before))
    }

    static predicate IsTombstoned(o: Option<Entry>, token: Token) {
      o.Some? && token in o.value.retired
    }

    /** Another generation still has a live lease. */
    static predicate IsBlocked(o: Option<Entry>, t: nat, token: Token) {
      o.Some? && o.value.token != token && exists k :: k in o.value.leases && Live(o.value.leases[k], t)
    }

    /** Register (registry/catalog.go:140-268). */
    method Register(token: Token, key: string, duration: nat) returns (r: RegisterResult, ghost p: Write)
      requires Valid() && token.toolset == name
      modifies this
      ensures Valid() && now >= old(now) && old(log) <= log && old(held) <= held
      ensures r == InvalidDuration <==> !(MIN_LEASE_MS <= duration <= MAX_LEASE_MS)
      ensures r == InvalidDuration ==> log == old(log)
      ensures r != InvalidDuration ==>
                TookEffect(|old(log)|, |old(held)| - 1, Action.Register(token, key, duration), p)
      ensures r.Registered? ==>
                log == old(log) + [p] && p.after == Some(r.entry) && r.entry.token == token &&
                key in r.entry.leases && r.entry.leases[key] == Lease(p.at + duration, false)
      ensures r.AdmissionRetired? ==> log == old(log)
      ensures r.AdmissionRetired? <==> r != InvalidDuration && IsTombstoned(p.before, token)
      ensures r.AdmissionBlocked? <==> r != InvalidDuration && !IsTombstoned(p.before, token) && IsBlocked(p.before, p.at, token)
    {
      ghost var a := Action.Register(token, key, duration);
      if duration < MIN_LEASE_MS || duration > MAX_LEASE_MS {
        p := Write(None, a, 0, 0, Step(None, a, 0));
        return InvalidDuration, p;
      }
      while true
        invariant Valid() && now >= old(now) && log == old(log) && old(held) <= held
        decreases |pending|
      {
        var raw := Read();
        ghost var seen := |held| - 1;
        var t := Clock();
        var next: Option<Entry>;
        next, r := Decide(raw, t, token, key, duration);
        if next.None? {
          p := Write(raw, a, t, now, raw);
          assert held[seen] == p.before;
          return;
        }
        var updated := TestAndSet(raw, next.value, a, t, 0);
        if updated {
          p := log[|log| - 1];
          assert held[|held| - 2] == p.before;
          return;
        }
      }
    }

    /** The edit one round of Register makes to the entry it read, and its answer. */
    static method Decide(raw: Option<Entry>, t: nat, token: Token, key: string, duration: nat)
      returns (next: Option<Entry>, r: RegisterResult)
      ensures r != InvalidDuration
      ensures var after := Step(raw, Action.Register(token, key, duration), t);
              if next.Some? then after == next else after == raw
      ensures r.Registered? ==>
                next == Some(r.entry) && r.entry.token == token &&
                key in r.entry.leases && r.entry.leases[key] == Lease(t + duration, false)
      ensures r.AdmissionRetired? ==> next.None?
      ensures r.AdmissionRetired? <==> IsTombstoned(raw, token)
      ensures r.AdmissionBlocked? <==> !IsTombstoned(raw, token) && IsBlocked(raw, t, token)
    {
      var lease := Lease(t + duration, false);
      if raw.None? {
        var candidate := Fresh(token, key, lease, {});
        return Some(candidate), Registered(candidate);
      }
      var existing, pruned := PruneExpired(raw.value, t);
      if token in existing.retired {
        return None, AdmissionRetired;
      }
      if existing.token == token {
        var routable := CountRoutable(existing, t);
        existing := existing.(leases := existing.leases[key := lease]);
        if routable == 0 {
          existing := existing.(epoch := existing.epoch + 1, lastPong := 0);
        }
        return Some(existing), Registered(existing);
      }
      if existing.leases != map[] {
        BlockedByLiveLease(raw.value, t);
        return if pruned then Some(existing) else None, AdmissionBlocked;
      }
      assert forall k :: k in raw.value.leases && Live(raw.value.leases[k], t) ==> k in existing.leases;
      var candidate := Fresh(token, key, lease, existing.retired + {existing.token});
      return Some(candidate), Registered(candidate);
    }

    static lemma BlockedByLiveLease(e: Entry, t: nat)
      requires Prune(e, t).leases != map[]
      ensures exists k :: k in e.leases && Live(e.leases[k], t)
    {
      var k :| k in Prune(e, t).leases;
    }

    /** DrainProvider (registry/catalog.go:272-332). */
    method DrainProvider(token: Token, key: string, duration: nat) returns (ghost p: Write)
      requires Valid()
      modifies this
      ensures Valid() && now >= old(now) && old(log) <= log && old(held) <= held
      ensures TookEffect(|old(log)|, |old(held)| - 1, Drain(token, key, duration), p)
      ensures HasLiveLease(p.before, p.at, token, key) ==>
                && log == old(log) + [p] && p.after.Some? && key in p.after.value.leases
                && p.after.value.leases[key] == Lease(Max(p.before.value.leases[key].expiresAt, p.at + duration), true)
                && (forall k :: k in p.before.value.leases && k != key ==>
                      k in p.after.value.leases && p.after.value.leases[k] == p.before.value.leases[k])
    {
      ghost var a := Drain(token, key, duration);
      while true
        invariant Valid() && now >= old(now) && log == old(log) && old(held) <= held
        decreases |pending|
      {
        var raw := Read();
        ghost var seen := |held| - 1;
        p := Write(raw, a, now, now, raw);
        if raw.None? || raw.value.token != token || key !in raw.value.leases {
          assert held[seen] == p.before;
          return;
        }
        var t := Clock();
        var next := DrainEdit(raw.value, t, token, key, duration);
        var updated := TestAndSet(raw, next, a, t, 0);
        if updated {
          p := log[|log| - 1];
          if HasLiveLease(raw, t, token, key) {
            CatalogEffects.DrainTakesOutOfRouting(raw.value, t, token, key, duration);
          }
          return;
        }
      }
    }

    /** The generation holds this lease unexpired. */
    static predicate HasLiveLease(o: Option<Entry>, t: nat, token: Token, key: string) {
      o.Some? && o.value.token == token && key in o.value.leases && Live(o.value.leases[key], t)
    }

    /** The edit one round of DrainProvider makes: prune if the lease has expired, else mark it draining. */
    static method DrainEdit(e: Entry, t: nat, token: Token, key: string, duration: nat) returns (next: Entry)
      requires e.token == token && key in e.leases
      ensures Some(next) == Step(Some(e), Drain(token, key, duration), t)
    {
      var lease := e.leases[key];
      if !Live(lease, t) {
        var pruned;
        next, pruned := PruneExpired(e, t);
        return;
      }
      var before := CountRoutable(e, t);
      next := e.(leases := e.leases[key := Lease(Max(lease.expiresAt, t + duration), true)]);
      var after := CountRoutable(next, t);
      if before > 0 && after == 0 {
        next := next.(epoch := next.epoch + 1, lastPong := 0);
      }
    }

    /** ReleaseProvider (registry/catalog.go:336-389). */
    method ReleaseProvider(token: Token, key: string) returns (ghost p: Write)
      requires Valid()
      modifies this
      ensures Valid() && now >= old(now) && old(log) <= log && old(held) <= held
      ensures TookEffect(|old(log)|, |old(held)| - 1, Release(token, key), p)
      ensures p.after.Some? && p.after.value.token == token ==> key !in p.after.value.leases
    {
      ghost var a := Release(token, key);
      while true
        invariant Valid() && now >= old(now) && log == old(log) && old(held) <= held
        decreases |pending|
      {
        var raw := Read();
        ghost var seen := |held| - 1;
        p := Write(raw, a, now, now, raw);
        if raw.None? || raw.value.token != token {
          assert held[seen] == p.before;
          return;
        }
        var t := Clock();
        var next, changed := ReleaseEdit(raw.value, t, token, key);
        if !changed {
          p := Write(raw, a, t, now, raw);
          assert held[seen] == p.before;
          return;
        }
        var updated := TestAndSet(raw, next, a, t, 0);
        if updated {
          p := log[|log| - 1];
          return;
        }
      }
    }

    /** The edit one round of ReleaseProvider makes: prune, and remove the lease if it is still there. */
    static method ReleaseEdit(e: Entry, t: nat, token: Token, key: string) returns (next: Entry, changed: bool)
      requires e.token == token
      ensures Some(next) == Step(Some(e), Release(token, key), t) && (!changed ==> next == e) && key !in next.leases
    {
      var p, pruned := PruneExpired(e, t);
      if key !in p.leases {
        return p, pruned;
      }
      var before := CountRoutable(p, t);
      next, changed := p.(leases := p.leases - {key}), true;
      var after := CountRoutable(next, t);
      if before > 0 && after == 0 {
        next := next.(epoch := next.epoch + 1, lastPong := 0);
      }
    }

    /** Retire (registry/catalog.go:393-429). */
    method Retire(token: Token) returns (r: RetireResult, ghost p: Write)
      requires Valid()
      modifies this
      ensures Valid() && now >= old(now) && old(log) <= log && old(held) <= held
      ensures TookEffect(|old(log)|, |old(held)| - 1, Action.Retire(token), p)
      ensures r == RetireConflict <==> p.before.Some? && p.before.value.token != token
      ensures r == RetireOk && p.before.Some? ==> p.after.Some? && p.after.value.state == Retired
    {
      ghost var a := Action.Retire(token);
      while true
        invariant Valid() && now >= old(now) && log == old(log) && old(held) <= held
        decreases |pending|
      {
        var raw := Read();
        ghost var seen := |held| - 1;
        p := Write(raw, a, now, now, raw);
        assert held[seen] == p.before;
        if raw.None? {
          return RetireOk, p;
        }
        if raw.value.token != token {
          return RetireConflict, p;
        }
        if raw.value.state == Retired {
          return RetireOk, p;
        }
        var next := raw.value.(state := Retired, retired := raw.value.retired + {token});
        var updated := TestAndSet(raw, next, a, now, 0);
        if updated {
          p := log[|log| - 1];
          return RetireOk, p;
        }
      }
    }

    /** The record held this value at moment r, no later than time t. */
    static ghost predicate Seen(began: nat, evs: seq<CatalogRuns.Event>, r: nat, raw: Option<Entry>, t: nat) {
      r <= |evs| && CatalogRuns.At(began, evs, r).entry == raw && CatalogRuns.At(began, evs, r).now <= t
    }

    static lemma SeenLater(
      began: nat, evs: seq<CatalogRuns.Event>, more: seq<CatalogRuns.Event>, r: nat, raw: Option<Entry>, t: nat, u: nat)
      requires evs <= more && t <= u
      ensures Seen(began, evs, r, raw, t) ==> Seen(began, more, r, raw, u)
    {
      if r <= |evs| {
        assert more[..r] == evs[..r];
      }
    }

    /** Reads the record and the clock and swaps out expired leases; `again` asks to start over. */
    method ReadPruned() returns (ready: bool, again: bool, raw: Entry, e: Entry, t: nat, ghost r: nat, ghost i: nat)
      requires Valid()
      modifies this
      ensures Valid() && now >= old(now) && |pending| <= |old(pending)| && old(held) <= held
      ensures log == old(log) || (|log| == |old(log)| + 1 && old(log) <= log && Atomic(log[|old(log)|]) && log[|old(log)|].action == PruneOnly)
      ensures !(ready && again) && (again ==> |pending| < |old(pending)|)
      ensures ready ==> e == Prune(raw, t) && t <= now && (lawful ==> Seen(began, evs, r, Some(raw), t))
      ensures ready && |pending| == |old(pending)| ==> entry == Some(e)
      ensures |old(held)| - 1 <= i < |held| && t <= now
      ensures ready ==> held[i] == Some(raw)
      ensures !ready && !again ==> held[i].None? || Prune(held[i].value, t).leases == map[]
    {
      var read := Read();
      i := |held| - 1;
      ghost var h, u := evs, now;
      r := |evs|;
      assert evs[..r] == evs;
      t := now;
      if read.None? {
        e := Entry(Retired, Token(name, "", ""), map[], {}, 1, 0);
        return false, false, e, e, t, r, i;
      }
      raw := read.value;
      t := Clock();
      SeenLater(began, h, evs, r, read, u, t);
      h := evs;
      var pruned;
      e, pruned := PruneExpired(raw, t);
      ready, again := true, false;
      if pruned {
        var swept := TestAndSet(read, e, PruneOnly, t, 0);
        ready := swept && e.leases != map[];
        again := !swept;
      }
      SeenLater(began, h, evs, r, read, t, t);
    }

    /** Records the pong on the entry `e` left by pruning `raw`, unless it is refused; `open` asks to try again. */
    method CommitPong(raw: Entry, e: Entry, t: nat, token: Token, epoch: nat, key: string, nanos: nat, ghost r: nat)
      returns (recorded: bool, open: bool)
      requires Valid() && e == Prune(raw, t) && t <= now && (lawful ==> Seen(began, evs, r, Some(raw), t))
      modifies this
      ensures Valid() && now >= old(now) && |pending| <= |old(pending)| && old(held) <= held
      ensures !recorded ==> log == old(log)
      ensures recorded || open <==> AcceptsPong(e, t, token, epoch, key)
      ensures !recorded && open && old(entry) == Some(e) ==> |pending| < |old(pending)|
      ensures recorded ==>
                var a := Pong(token, epoch, key, nanos);
                && log == old(log) + [Write(Some(e), a, t, now, Step(Some(e), a, t))]
                && AcceptsPong(e, t, token, epoch, key)
    {
      if e.state != Active || e.token != token || e.epoch != epoch {
        return false, false;
      }
      if key !in e.leases || e.leases[key].draining || !Live(e.leases[key], t) {
        return false, false;
      }
      assert Routable(e, t);
      CatalogRuns.PruneKeepsRoutable(raw, t);
      var next := e.(lastPong := Max(e.lastPong, Nanos(t, nanos)));
      ghost var a := Pong(token, epoch, key, nanos);
      assert !HasExpired(e, t);
      recorded := TestAndSet(Some(e), next, a, t, r);
      open := !recorded;
    }

    /** At this reading the record, once pruned, does not accept the pong. */
    static predicate Refuses(o: Option<Entry>, t: nat, token: Token, epoch: nat, key: string) {
      o.None? || !AcceptsPong(Prune(o.value, t), t, token, epoch, key)
    }

    /**
     * RecordPong (registry/catalog.go:544-600): pruning is its own swap, so the
     * pong is decided on an entry that had nothing left to prune.
     */
    method RecordPong(token: Token, epoch: nat, key: string, nanos: nat) returns (recorded: bool)
      requires Valid()
      modifies this
      ensures Valid() && now >= old(now) && old(log) <= log && old(held) <= held
      ensures OnlySteps(|old(log)|, Pong(token, epoch, key, nanos))
      ensures recorded ==>
                |log| > |old(log)| &&
                var w := log[|log| - 1];
                && w.action == Pong(token, epoch, key, nanos) && w.before.Some? && w.after.Some?
                && AcceptsPong(w.before.value, w.at, token, epoch, key)
                && w.after.value.lastPong >= Nanos(w.at, nanos)
                && w.after.value.lastPong >= w.before.value.lastPong
      ensures !recorded ==>
                forall i :: |old(log)| <= i < |log| ==> log[i].action == PruneOnly
      ensures !recorded ==>
                exists i: nat, t: nat :: |old(held)| - 1 <= i < |held| && t <= now && Refuses(held[i], t, token, epoch, key)
    {
      ghost var a := Pong(token, epoch, key, nanos);
      ghost var mark := |log|;
      recorded := false;
      while true
        invariant Valid() && now >= old(now) && old(log) <= log && old(held) <= held
        invariant mark <= |log|
        invariant forall i :: mark <= i < |log| ==> Atomic(log[i]) && log[i].action == PruneOnly
        invariant !recorded
        decreases |pending|
      {
        var ready, again, raw, e, t;
        ghost var r, i;
        ready, again, raw, e, t, r, i := ReadPruned();
        if !ready && !again {
          assert Refuses(held[i], t, token, epoch, key);
          return;
        }
        if again {
          continue;
        }
        var open;
        recorded, open := CommitPong(raw, e, t, token, epoch, key, nanos, r);
        if recorded || !open {
          assert !recorded ==> Refuses(held[i], t, token, epoch, key);
          return;
        }
      }
    }
    /**
     * healthEntry (registry/catalog.go:604-636): the entry it returns was the
     * stored record, and nothing in it had expired. It is what pruning leaves of
     * a value read before the clock was.
     */
    method HealthEntry() returns (found: bool, e: Entry, t: nat, ghost raw: Entry, ghost m: nat)
      requires Valid()
      modifies this
      ensures Valid() && now >= old(now) && old(log) <= log && old(held) <= held
      ensures OnlySteps(|old(log)|, PruneOnly)
      ensures found ==>
                && e.state == Active && !HasExpired(e, t) && t <= now
                && exists i :: |old(held)| - 1 <= i < |held| && held[i] == Some(e)
      ensures found ==> e == Prune(raw, t) && (lawful ==> Seen(began, evs, m, Some(raw), t))
      ensures !found ==> exists i :: |old(held)| - 1 <= i < |held| && (held[i].None? || held[i].value.state != Active)
    {
      while true
        invariant Valid() && now >= old(now) && log == old(log) && old(held) <= held
        decreases |pending|
      {
        var read := Read();
        ghost var seen, h, u := |held| - 1, evs, now;
        m := |evs|;
        assert evs[..m] == evs;
        t := now;
        if read.None? || read.value.state != Active {
          assert held[seen] == read;
          e := Entry(Retired, Token(name, "", ""), map[], {}, 1, 0);
          return false, e, t, e, m;
        }
        raw := read.value;
        t := Clock();
        SeenLater(began, h, evs, m, read, u, t);
        h := evs;
        var pruned: bool;
        e, pruned := PruneExpired(read.value, t);
        if !pruned {
          assert held[seen] == Some(e);
          return true, e, t, raw, m;
        }
        var updated := TestAndSet(read, e, PruneOnly, t, 0);
        if updated {
          assert held[|held| - 1] == Some(e);
          SeenLater(began, h, evs, m, read, t, t);
          return true, e, t, raw, m;
        }
      }
    }

    /**
     * Health (registry/health_tracker.go:215-238): a positive answer is about a
     * value the record held during the call. If all replicas run this catalog,
     * it attests an accepted pong within the threshold, and membership from the
     * moment that pong's identity was read to the moment `m` at which this call
     * read the record, exactly when registrations committed promptly.
     */
    method Health(token: Token, rest: nat, threshold: nat)
      returns (r: HealthResult, ghost seen: Entry, ghost t: nat, ghost m: nat, ghost p: nat, ghost i: nat)
      requires Valid()
      modifies this
      ensures Valid() && now >= old(now) && old(log) <= log && old(held) <= held
      ensures r.Health? ==>
                && (exists i :: |old(held)| - 1 <= i < |held| && held[i] == Some(seen))
                && seen.token == token && t <= now
                && r.providers == |RoutableLeases(seen, t)|
                && (r.healthy <==> Healthy(seen, t, rest, threshold))
      ensures r.NotFound? ==>
                exists i :: |old(held)| - 1 <= i < |held| &&
                  (held[i].None? || held[i].value.state != Active || held[i].value.token != token)
      ensures r.Health? && r.healthy && lawful ==> Answers(seen, t, rest, threshold, m, p, i)
    {
      var found, e, at;
      ghost var raw;
      found, e, at, raw, m := HealthEntry();
      seen, t, p, i := e, at, 0, 0;
      if !found || e.token != token {
        return NotFound, seen, t, m, p, i;
      }
      var providers := CountRoutable(e, at);
      var healthy := providers > 0 && e.lastPong != 0 && Nanos(at, rest) - e.lastPong <= threshold;
      if healthy && lawful {
        p, i := Attest(raw, e, at, rest, threshold, m);
      }
      return HealthResult.Health(healthy, providers), seen, t, m, p, i;
    }

    /** The run up to the moment the record was read attests the pong and the membership behind the answer. */
    ghost predicate Answers(seen: Entry, t: nat, rest: nat, threshold: nat, m: nat, p: nat, i: nat)
      reads this
    {
      && m <= |evs| && CatalogRuns.At(began, evs, m).now <= t && CatalogRuns.At(began, evs, m).entry.Some?
      && var raw := CatalogRuns.At(began, evs, m).entry.value;
      && Identity(raw) == Identity(seen) && raw.lastPong == seen.lastPong && Routable(raw, t)
      && CatalogRuns.Attested(began, evs[..m], p, i, raw, Nanos(t, rest), threshold)
    }

    lemma Attest(raw: Entry, e: Entry, t: nat, rest: nat, threshold: nat, m: nat) returns (p: nat, i: nat)
      requires lawful && IsHistory() && Seen(began, evs, m, Some(raw), t) && e == Prune(raw, t)
      requires Healthy(e, t, rest, threshold)
      ensures Answers(e, t, rest, threshold, m, p, i)
    {
      CatalogRuns.PruneKeepsRoutable(raw, t);
      CatalogRuns.RunPrefix(name, began, evs, m);
      CatalogRuns.PongsReadFirstPrefix(began, evs, m);
      p, i := CatalogRuns.HealthImpliesContinuousMembership(name, began, evs[..m], t, rest, threshold);
    }
  }
}
