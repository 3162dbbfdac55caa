/**
 * Whole runs of one catalog record: any sequence of actions by any replicas,
 * with time passing between and within them. An action decides on a clock
 * reading `at` taken before its compare-and-swap commits, so `at` may lag the
 * commit time (registry/catalog.go:167-267, 278-331, 341-388, 550-599).
 */
module CatalogRuns {
  import opened Basics
  import opened Catalog

  datatype Event = Tick(elapsed: nat) | Do(action: Action, at: nat)

  datatype Moment = Moment(now: nat, entry: Option<Entry>)

  /** An event that can happen next. */
  predicate Possible(name: string, m: Moment, ev: Event) {
    ev.Do? ==> ev.at <= m.now && Legal(name, ev.action)
  }

  function Next(m: Moment, ev: Event): Moment {
    match ev
    case Tick(d) => m.(now := m.now + d)
    case Do(a, t) => m.(entry := Step(m.entry, a, t))
  }

  /** The moment reached from an empty catalog at time `start`. */
  function Run(start: nat, evs: seq<Event>): Moment {
    if evs == [] then Moment(start, None)
    else Next(Run(start, evs[..|evs| - 1]), evs[|evs| - 1])
  }

  predicate IsRun(name: string, start: nat, evs: seq<Event>) {
    evs == [] ||
    (IsRun(name, start, evs[..|evs| - 1]) &&
     Possible(name, Run(start, evs[..|evs| - 1]), evs[|evs| - 1]))
  }

  /** The moment after the first i events. */
  function At(start: nat, evs: seq<Event>, i: nat): Moment
    requires i <= |evs|
  {
    Run(start, evs[..i])
  }

  lemma AtNext(start: nat, evs: seq<Event>, i: nat)
    requires i < |evs|
    ensures At(start, evs, i + 1) == Next(At(start, evs, i), evs[i])
  {
    assert evs[..i + 1][..i] == evs[..i];
  }

  lemma AtPrefix(start: nat, evs: seq<Event>, n: nat, i: nat)
    requires i <= n <= |evs|
    ensures At(start, evs[..n], i) == At(start, evs, i)
  {
    assert evs[..n][..i] == evs[..i];
  }

  lemma {:induction false} RunPrefix(name: string, start: nat, evs: seq<Event>, n: nat)
    requires IsRun(name, start, evs) && n <= |evs|
    ensures IsRun(name, start, evs[..n])
    ensures n < |evs| ==> Possible(name, At(start, evs, n), evs[n])
  {
    if n < |evs| {
      var init := evs[..|evs| - 1];
      if n < |init| {
        RunPrefix(name, start, init, n);
        assert init[..n] == evs[..n];
      }
    } else {
      assert evs[..n] == evs;
    }
  }

  // ---------------------------------------------------------------------
  // Validity, tombstones and generations
  // ---------------------------------------------------------------------

  /** Every entry any run reaches satisfies the parser's rules. */
  lemma {:induction false} EveryRunStaysValid(name: string, start: nat, evs: seq<Event>)
    requires IsRun(name, start, evs)
    ensures Run(start, evs).entry.Some? ==> Valid(name, Run(start, evs).entry.value)
  {
    if evs != [] {
      var n := |evs| - 1;
      EveryRunStaysValid(name, start, evs[..n]);
      if evs[n].Do? {
        StepKeepsValid(name, Run(start, evs[..n]).entry, evs[n].action, evs[n].at);
      }
    }
  }

  /** Every token the record carried at some moment of the run. */
  function Held(start: nat, evs: seq<Event>): set<Token> {
    (if evs == [] then {} else Held(start, evs[..|evs| - 1])) +
    (var o := Run(start, evs).entry; if o.Some? then {o.value.token} else {})
  }

  /** What a list of tokens held so far says about the record's tombstones. */
  predicate TombstonesMatch(o: Option<Entry>, held: set<Token>) {
    if o.None? then held == {}
    else o.value.retired == (held - {o.value.token}) + (if o.value.state == Retired then {o.value.token} else {})
  }

  lemma TombstonesStayMatched(name: string, o: Option<Entry>, a: Action, t: nat, held: set<Token>)
    requires Legal(name, a) && (o.Some? ==> Valid(name, o.value) && o.value.token in held) && TombstonesMatch(o, held)
    ensures var n := Step(o, a, t);
            TombstonesMatch(n, held + (if n.Some? then {n.value.token} else {}))
  {
    if o.Some? {
      StepKeepsTombstones(name, o.value, a, t);
    }
  }

  /**
   * The tombstones are exactly the tokens that held the record before, together
   * with the current one once it is retired.
   */
  lemma {:induction false} TombstonesAreFormerTokens(name: string, start: nat, evs: seq<Event>)
    requires IsRun(name, start, evs)
    ensures var o := Run(start, evs).entry;
            if o.None? then Held(start, evs) == {}
            else o.value.retired ==
                 (Held(start, evs) - {o.value.token}) +
                 (if o.value.state == Retired then {o.value.token} else {})
  {
    if evs != [] {
      var n := |evs| - 1;
      TombstonesAreFormerTokens(name, start, evs[..n]);
      EveryRunStaysValid(name, start, evs[..n]);
      var o := Run(start, evs[..n]).entry;
      assert TombstonesMatch(o, Held(start, evs[..n]));
      if evs[n].Do? {
        TombstonesStayMatched(name, o, evs[n].action, evs[n].at, Held(start, evs[..n]));
        assert TombstonesMatch(Run(start, evs).entry, Held(start, evs));
      }
    }
  }

  /** From moment i to moment j: the record persists, and tokens and epochs move one way. */
  lemma {:induction false} GenerationsMoveForward(
    name: string, start: nat, evs: seq<Event>, i: nat, j: nat)
    requires IsRun(name, start, evs) && i <= j <= |evs|
    requires At(start, evs, i).entry.Some?
    ensures At(start, evs, i).now <= At(start, evs, j).now
    ensures At(start, evs, j).entry.Some?
    ensures var a, b := At(start, evs, i).entry.value, At(start, evs, j).entry.value;
            && a.retired <= b.retired
            && (a.token == b.token ==> a.epoch <= b.epoch)
            && (a.token != b.token ==> a.token in b.retired)
    decreases j
  {
    if i < j {
      GenerationsMoveForward(name, start, evs, i, j - 1);
      AtNext(start, evs, j - 1);
      RunPrefix(name, start, evs, j - 1);
      EveryRunStaysValid(name, start, evs[..j - 1]);
      if evs[j - 1].Do? {
        var e := At(start, evs, j - 1).entry.value;
        StepKeepsTombstones(name, e, evs[j - 1].action, evs[j - 1].at);
        StepOrdersEpochs(name, e, evs[j - 1].action, evs[j - 1].at);
        StepKeepsValid(name, Some(e), evs[j - 1].action, evs[j - 1].at);
      }
    }
  }

  /** A generation that left office never returns. */
  lemma TokensNeverRepeat(name: string, start: nat, evs: seq<Event>, i: nat, j: nat, k: nat)
    requires IsRun(name, start, evs) && i <= j <= k <= |evs|
    requires At(start, evs, i).entry.Some?
    requires At(start, evs, j).entry.Some?
    requires At(start, evs, i).entry.value.token != At(start, evs, j).entry.value.token
    ensures At(start, evs, k).entry.Some?
    ensures At(start, evs, k).entry.value.token != At(start, evs, i).entry.value.token
  {
    GenerationsMoveForward(name, start, evs, i, j);
    GenerationsMoveForward(name, start, evs, j, k);
    var last := At(start, evs, k).entry.value;
    var t := At(start, evs, i).entry.value.token;
    if last.token == t {
      // t is a tombstone at k, so the record is retired under t; it was already
      // a tombstone at j, where another token was in office.
      OfficeOfTombstone(name, start, evs, j, k, t);
    }
  }

  /** A tombstoned token that is out of office stays out of office. */
  lemma {:induction false} OfficeOfTombstone(
    name: string, start: nat, evs: seq<Event>, j: nat, k: nat, t: Token)
    requires IsRun(name, start, evs) && j <= k <= |evs|
    requires At(start, evs, j).entry.Some?
    requires t in At(start, evs, j).entry.value.retired
    requires At(start, evs, j).entry.value.token != t
    ensures At(start, evs, k).entry.Some?
    ensures At(start, evs, k).entry.value.token != t
    decreases k
  {
    if j < k {
      OfficeOfTombstone(name, start, evs, j, k - 1, t);
      GenerationsMoveForward(name, start, evs, j, k - 1);
      AtNext(start, evs, k - 1);
      RunPrefix(name, start, evs, k - 1);
      EveryRunStaysValid(name, start, evs[..k - 1]);
      if evs[k - 1].Do? {
        StepKeepsTombstones(name, At(start, evs, k - 1).entry.value, evs[k - 1].action, evs[k - 1].at);
        StepKeepsValid(name, At(start, evs, k - 1).entry, evs[k - 1].action, evs[k - 1].at);
      }
    }
  }

  /**
   * Exclusive generations: while a lease written under some token is unexpired
   * and its holder has not touched it again, no other token holds the record.
   */
  lemma {:induction false} LeaseKeepsItsGeneration(
    name: string, start: nat, evs: seq<Event>, i: nat, j: nat, key: string)
    requires IsRun(name, start, evs) && i <= j <= |evs|
    requires At(start, evs, i).entry.Some? && key in At(start, evs, i).entry.value.leases
    requires Live(At(start, evs, i).entry.value.leases[key], At(start, evs, j).now)
    requires forall n :: i <= n < j && evs[n].Do? ==>
               !Touches(evs[n].action, At(start, evs, i).entry.value.token, key)
    ensures At(start, evs, j).entry.Some?
    ensures var a, b := At(start, evs, i).entry.value, At(start, evs, j).entry.value;
            b.token == a.token && key in b.leases && b.leases[key] == a.leases[key]
    decreases j
  {
    if i < j {
      AtNext(start, evs, j - 1);
      LeaseKeepsItsGeneration(name, start, evs, i, j - 1, key);
      RunPrefix(name, start, evs, j - 1);
      EveryRunStaysValid(name, start, evs[..j - 1]);
      if evs[j - 1].Do? {
        LeaseSurvivesStep(name, At(start, evs, j - 1).entry.value, evs[j - 1].action, evs[j - 1].at, key);
      }
    }
  }

  /** A (token, epoch) pair that was superseded never becomes current again. */
  lemma IdentityNeverReturns(name: string, start: nat, evs: seq<Event>, i: nat, j: nat, k: nat)
    requires IsRun(name, start, evs) && i <= j <= k <= |evs|
    requires At(start, evs, i).entry.Some?
    requires At(start, evs, j).entry.Some?
    requires Identity(At(start, evs, i).entry.value) != Identity(At(start, evs, j).entry.value)
    ensures At(start, evs, k).entry.Some?
    ensures Identity(At(start, evs, k).entry.value) != Identity(At(start, evs, i).entry.value)
  {
    GenerationsMoveForward(name, start, evs, i, j);
    GenerationsMoveForward(name, start, evs, j, k);
    if At(start, evs, i).entry.value.token != At(start, evs, j).entry.value.token {
      TokensNeverRepeat(name, start, evs, i, j, k);
    }
  }

  // ---------------------------------------------------------------------
  // Health
  // ---------------------------------------------------------------------

  /** Pruning that leaves a routable lease keeps the identity and the pong. */
  lemma PruneKeepsRoutable(e: Entry, t: nat)
    requires Routable(Prune(e, t), t)
    ensures Identity(Prune(e, t)) == Identity(e) && Prune(e, t).lastPong == e.lastPong && Routable(e, t)
  {
    var k :| k in Prune(e, t).leases && !Prune(e, t).leases[k].draining && Live(Prune(e, t).leases[k], t);
    assert k in e.leases;
    var p := e.(leases := Unexpired(e.leases, t));
    assert k in p.leases && Routable(p, t);
  }

  /** One more event at the end of a run. */
  lemma RunExtends(name: string, start: nat, evs: seq<Event>, ev: Event)
    requires IsRun(name, start, evs) && PongsReadFirst(start, evs)
    ensures Possible(name, Run(start, evs), ev) ==> IsRun(name, start, evs + [ev])
    ensures Run(start, evs + [ev]) == Next(Run(start, evs), ev)
    ensures ReadFirst(start, evs + [ev], |evs|) ==> PongsReadFirst(start, evs + [ev])
  {
    var all := evs + [ev];
    assert all[..|evs|] == evs;
    forall n: nat | n < |evs| ensures ReadFirst(start, all, n) {
      assert ReadFirst(start, evs, n) && all[n] == evs[n];
      AtPrefix(start, all, |evs|, n);
      if r: nat :| r <= n && evs[n].Do? && evs[n].action.Pong? && ReadAt(start, evs, r, evs[n].action, evs[n].at) {
        AtPrefix(start, all, |evs|, r);
        assert ReadAt(start, all, r, all[n].action, all[n].at);
      }
    }
  }

  lemma PongsReadFirstPrefix(start: nat, evs: seq<Event>, m: nat)
    requires PongsReadFirst(start, evs) && m <= |evs|
    ensures PongsReadFirst(start, evs[..m])
  {
    forall n: nat | n < m ensures ReadFirst(start, evs[..m], n) {
      assert ReadFirst(start, evs, n);
      AtPrefix(start, evs, m, n);
      if r: nat :| r <= n && evs[n].Do? && evs[n].action.Pong? && ReadAt(start, evs, r, evs[n].action, evs[n].at) {
        AtPrefix(start, evs, m, r);
        assert ReadAt(start, evs[..m], r, evs[..m][n].action, evs[..m][n].at);
      }
    }
  }

  lemma ReadStays(start: nat, evs: seq<Event>, more: seq<Event>, r: nat, a: Action, at: nat)
    requires a.Pong? && r <= |evs| && evs <= more && ReadAt(start, evs, r, a, at)
    ensures ReadAt(start, more, r, a, at) && ReadAt(start, more + [Do(a, at)], r, a, at)
    ensures ReadFirst(start, more + [Do(a, at)], |more|)
  {
    var all := more + [Do(a, at)];
    assert more[..r] == evs[..r] && all[..r] == evs[..r];
    assert all[|more|] == Do(a, at) && ReadAt(start, all, r, all[|more|].action, all[|more|].at);
  }

  /** Event i is a pong that was recorded for this identity at this time. */
  predicate Recorded(start: nat, evs: seq<Event>, i: nat, e: Entry)
    requires i < |evs|
  {
    && evs[i].Do? && evs[i].action.Pong?
    && e.lastPong == Nanos(evs[i].at, evs[i].action.nanos)
    && (evs[i].action.token, evs[i].action.epoch) == Identity(e)
    && At(start, evs, i).entry.Some?
    && AcceptsPong(At(start, evs, i).entry.value, evs[i].at,
                   evs[i].action.token, evs[i].action.epoch, evs[i].action.key)
  }

  /** Event i recorded e's last pong, and nothing has disturbed identity or pong since. */
  predicate Story(start: nat, evs: seq<Event>, i: nat, e: Entry) {
    && i < |evs|
    && Recorded(start, evs, i, e)
    && forall j :: i < j <= |evs| ==> SamePong(start, evs, j, e)
  }

  predicate SamePong(start: nat, evs: seq<Event>, j: nat, e: Entry)
    requires j <= |evs|
  {
    && At(start, evs, j).entry.Some?
    && Identity(At(start, evs, j).entry.value) == Identity(e)
    && At(start, evs, j).entry.value.lastPong == e.lastPong
  }

  predicate RoutableMoment(start: nat, evs: seq<Event>, j: nat)
    requires j <= |evs|
  {
    At(start, evs, j).entry.Some? && Routable(At(start, evs, j).entry.value, At(start, evs, j).now)
  }

  /** Some lease was routable at every moment from moment r on. */
  predicate MemberSince(start: nat, evs: seq<Event>, r: nat) {
    forall j: nat :: r <= j <= |evs| ==> RoutableMoment(start, evs, j)
  }

  /** Moment r, no later than the pong's clock reading, had the identity the pong is for. */
  predicate ReadAt(start: nat, evs: seq<Event>, r: nat, a: Action, at: nat)
    requires r <= |evs| && a.Pong?
  {
    && At(start, evs, r).entry.Some? && At(start, evs, r).now <= at
    && Identity(At(start, evs, r).entry.value) == (a.token, a.epoch)
  }

  /** The replica that recorded the pong had read the record before it read the clock. */
  predicate ReadFirst(start: nat, evs: seq<Event>, n: nat)
    requires n < |evs|
  {
    evs[n].Do? && evs[n].action.Pong? && At(start, evs, n).entry.Some? &&
    AcceptsPong(At(start, evs, n).entry.value, evs[n].at, evs[n].action.token, evs[n].action.epoch, evs[n].action.key)
    ==> exists r: nat :: r <= n && ReadAt(start, evs, r, evs[n].action, evs[n].at)
  }

  predicate PongsReadFirst(start: nat, evs: seq<Event>) {
    forall n: nat :: n < |evs| ==> ReadFirst(start, evs, n)
  }

  /**
   * A registration that read the clock while some lease was routable commits
   * before the record stops being routable.
   */
  predicate Prompt(m: Moment, ev: Event) {
    ev.Do? && ev.action.Register? && m.entry.Some? && Routable(m.entry.value, ev.at)
    ==> Routable(m.entry.value, m.now)
  }

  predicate PromptFrom(start: nat, evs: seq<Event>, i: nat) {
    forall n: nat :: i <= n < |evs| ==> Prompt(At(start, evs, n), evs[n])
  }

  /** A nonzero pong was either recorded by this event or was already there under the same identity. */
  lemma PongCarriesOver(name: string, o: Option<Entry>, a: Action, t: nat)
    requires Legal(name, a) && (o.Some? ==> Valid(name, o.value))
    requires Step(o, a, t).Some? && Step(o, a, t).value.lastPong != 0
    ensures o.Some?
    ensures var n := Step(o, a, t).value;
            || (n.lastPong == o.value.lastPong && Identity(n) == Identity(o.value))
            || (a.Pong? && AcceptsPong(o.value, t, a.token, a.epoch, a.key) &&
                n.lastPong == Nanos(t, a.nanos) && Identity(n) == (a.token, a.epoch))
  {
    if o.Some? && a.Register? {
      RenewalKeepsPong(o.value, t, a.token, a.key, a.duration);
    }
  }

  /** One prompt event back: if the identity stayed and a lease is routable now, one was routable before. */
  lemma RoutableBackwards(m: Moment, ev: Event)
    requires m.entry.Some? && Prompt(m, ev) && Next(m, ev).entry.Some?
    requires var n := Next(m, ev).entry.value; Identity(n) == Identity(m.entry.value) && Routable(n, Next(m, ev).now)
    ensures Routable(m.entry.value, m.now)
  {
    var n := Next(m, ev).entry.value;
    var k :| k in n.leases && !n.leases[k].draining && Live(n.leases[k], Next(m, ev).now);
    match ev {
      case Tick(_) =>
        assert Live(m.entry.value.leases[k], m.now);
      case Do(a, t) =>
        if a.Register? {
          RenewalKeepsIdentity(m.entry.value, t, a.token, a.key, a.duration);
        } else {
          assert k in m.entry.value.leases && m.entry.value.leases[k] == n.leases[k];
        }
    }
  }

  /** An identity survives a registration only if it found a routable lease, or wrote nothing new. */
  lemma RenewalKeepsIdentity(e: Entry, t: nat, token: Token, key: string, duration: nat)
    ensures var n := RegisterEntry(e, t, token, key, duration);
            Identity(n) == Identity(e) ==>
              Routable(e, t) || forall k :: k in n.leases ==> k in e.leases && n.leases[k] == e.leases[k]
  {
    var p := Prune(e, t);
    if Routable(p, t) {
      var k :| k in p.leases && !p.leases[k].draining && Live(p.leases[k], t);
      assert k in e.leases;
    }
  }

  /** A pong survives a registration only if it found a routable lease, or wrote nothing new. */
  lemma RenewalKeepsPong(e: Entry, t: nat, token: Token, key: string, duration: nat)
    ensures var n := RegisterEntry(e, t, token, key, duration);
            n.lastPong != 0 ==>
              n.lastPong == e.lastPong && Identity(n) == Identity(e) &&
              (Routable(e, t) || forall k :: k in n.leases ==> k in e.leases && n.leases[k] == e.leases[k])
  {
    var p := Prune(e, t);
    if Routable(p, t) {
      var k :| k in p.leases && !p.leases[k].draining && Live(p.leases[k], t);
      assert k in e.leases;
    }
  }

  /** Every recorded pong has its story: who recorded it, and that nothing disturbed it. */
  lemma {:induction false} PongHasStory(name: string, start: nat, evs: seq<Event>) returns (i: nat)
    requires IsRun(name, start, evs)
    requires Run(start, evs).entry.Some? && Run(start, evs).entry.value.lastPong != 0
    ensures Story(start, evs, i, Run(start, evs).entry.value)
  {
    var e := Run(start, evs).entry.value;
    var n := |evs| - 1;
    var m, ev := Run(start, evs[..n]), evs[n];
    assert evs[..|evs|] == evs;
    EveryRunStaysValid(name, start, evs[..n]);
    if ev.Do? {
      PongCarriesOver(name, m.entry, ev.action, ev.at);
    }
    if e.lastPong == m.entry.value.lastPong && Identity(e) == Identity(m.entry.value) {
      i := PongHasStory(name, start, evs[..n]);
      AtPrefix(start, evs, n, i);
      forall j | i < j <= |evs| ensures SamePong(start, evs, j, e) {
        if j <= n {
          AtPrefix(start, evs, n, j);
          assert SamePong(start, evs[..n], j, m.entry.value);
        }
      }
    } else {
      i := n;
    }
  }

  /** From the moment the pong's identity was read, that identity has not changed. */
  lemma IdentitySince(name: string, start: nat, evs: seq<Event>, r: nat, i: nat, e: Entry, j: nat)
    requires IsRun(name, start, evs) && Story(start, evs, i, e) && r <= i && r <= j <= |evs|
    requires ReadAt(start, evs, r, evs[i].action, evs[i].at)
    ensures At(start, evs, j).entry.Some? && Identity(At(start, evs, j).entry.value) == Identity(e)
  {
    if j <= i {
      GenerationsMoveForward(name, start, evs, r, j);
      if Identity(At(start, evs, j).entry.value) != Identity(e) {
        IdentityNeverReturns(name, start, evs, r, j, i);
      }
    } else {
      assert SamePong(start, evs, j, e);
    }
  }

  /** With prompt commits since then, a lease routable at the end was preceded by one at every moment. */
  lemma {:induction false} PromptRunIsRoutable(
    name: string, start: nat, evs: seq<Event>, r: nat, i: nat, e: Entry, j: nat)
    requires IsRun(name, start, evs) && Story(start, evs, i, e) && r <= i && r <= j <= |evs|
    requires ReadAt(start, evs, r, evs[i].action, evs[i].at) && PromptFrom(start, evs, r)
    requires RoutableMoment(start, evs, |evs|)
    ensures RoutableMoment(start, evs, j)
    decreases |evs| - j
  {
    if j < |evs| {
      PromptRunIsRoutable(name, start, evs, r, i, e, j + 1);
      AtNext(start, evs, j);
      IdentitySince(name, start, evs, r, i, e, j);
      IdentitySince(name, start, evs, r, i, e, j + 1);
      RoutableBackwards(At(start, evs, j), evs[j]);
    }
  }

  /** The record as of moment j is routable at instant u, if u falls before the next moment. */
  predicate RoutableAt(start: nat, evs: seq<Event>, j: nat, u: nat)
    requires j < |evs|
  {
    At(start, evs, j).now <= u <= At(start, evs, j + 1).now ==>
      At(start, evs, j).entry.Some? && Routable(At(start, evs, j).entry.value, u)
  }

  /** At every instant since moment r, not only at the moments between events, some lease was routable. */
  ghost predicate Continuous(start: nat, evs: seq<Event>, r: nat) {
    forall j: nat, u: nat :: r <= j < |evs| ==> RoutableAt(start, evs, j, u)
  }

  lemma MembersAreContinuous(start: nat, evs: seq<Event>, r: nat)
    requires r <= |evs| && MemberSince(start, evs, r)
    ensures Continuous(start, evs, r)
  {
    forall j: nat, u: nat | r <= j < |evs| ensures RoutableAt(start, evs, j, u) {
      assert RoutableMoment(start, evs, j) && RoutableMoment(start, evs, j + 1);
      AtNext(start, evs, j);
      if u <= At(start, evs, j + 1).now && evs[j].Tick? {
        RoutableEarlier(At(start, evs, j).entry.value, u, At(start, evs, j + 1).now);
      }
    }
  }

  /**
   * What health promises. If the record is healthy at a clock reading taken at
   * or after its last write, then some event recorded its pong for the current
   * token and epoch, within the staleness threshold; that identity was read
   * before the pong's own clock reading; and some unexpired non-draining lease
   * existed at every instant since it was read exactly when every registration
   * since then committed promptly.
   */
  lemma HealthImpliesContinuousMembership(
    name: string, start: nat, evs: seq<Event>, ms: nat, rest: nat, threshold: nat)
    returns (r: nat, i: nat)
    requires IsRun(name, start, evs) && PongsReadFirst(start, evs)
    requires Run(start, evs).entry.Some? && Run(start, evs).now <= ms
    requires Healthy(Run(start, evs).entry.value, ms, rest, threshold)
    ensures Attested(start, evs, r, i, Run(start, evs).entry.value, Nanos(ms, rest), threshold)
  {
    var e := Run(start, evs).entry.value;
    RoutableEarlier(e, Run(start, evs).now, ms);
    i := PongHasStory(name, start, evs);
    assert evs[..|evs|] == evs;
    assert ReadFirst(start, evs, i);
    r :| r <= i && ReadAt(start, evs, r, evs[i].action, evs[i].at);
    if PromptFrom(start, evs, r) {
      forall j: nat | r <= j <= |evs| ensures RoutableMoment(start, evs, j) {
        PromptRunIsRoutable(name, start, evs, r, i, e, j);
      }
      MembersAreContinuous(start, evs, r);
    }
    if MemberSince(start, evs, r) {
      forall n: nat | r <= n < |evs| ensures Prompt(At(start, evs, n), evs[n]) {
        assert RoutableMoment(start, evs, n);
      }
    }
  }

  /** Event i recorded e's pong within the threshold, its identity was read at moment r, and membership since then. */
  ghost predicate Attested(start: nat, evs: seq<Event>, r: nat, i: nat, e: Entry, nanos: nat, threshold: nat) {
    && Story(start, evs, i, e) && r <= i
    && nanos - Nanos(evs[i].at, evs[i].action.nanos) <= threshold
    && At(start, evs, r).now <= evs[i].at
    && (MemberSince(start, evs, r) <==> PromptFrom(start, evs, r))
    && (PromptFrom(start, evs, r) ==> Continuous(start, evs, r))
  }

  lemma RoutableEarlier(e: Entry, u: nat, t: nat)
    requires Routable(e, t) && u <= t
    ensures Routable(e, u)
  {
    var k :| k in e.leases && !e.leases[k].draining && Live(e.leases[k], t);
    assert Live(e.leases[k], u);
  }

  lemma {:induction false} PossibleStepsRun(name: string, start: nat, evs: seq<Event>)
    requires forall i :: 0 <= i < |evs| ==> Possible(name, At(start, evs, i), evs[i])
    ensures IsRun(name, start, evs)
  {
    if evs != [] {
      var init := evs[..|evs| - 1];
      forall i | 0 <= i < |init| ensures Possible(name, At(start, init, i), init[i]) {
        AtPrefix(start, evs, |evs| - 1, i);
      }
      PossibleStepsRun(name, start, init);
    }
  }

  const LATE_TOKEN := Token("tools", "schema", "r1")
  const REGISTERED := Fresh(LATE_TOKEN, "p1", Lease(45005, false), {})
  const PONGED := REGISTERED.(lastPong := 5000000)
  const RENEWED := PONGED.(leases := map["p1" := Lease(45005, false), "p2" := Lease(100006, false)])

  /** The example's swaps: a registration and its pong at 5, and a renewal decided on a reading at 6. */
  lemma LateSteps()
    ensures Step(None, Register(LATE_TOKEN, "p1", 45000), 5) == Some(REGISTERED)
    ensures Step(Some(REGISTERED), Pong(LATE_TOKEN, 1, "p1", 0), 5) == Some(PONGED)
    ensures Step(Some(PONGED), Register(LATE_TOKEN, "p2", 100000), 6) == Some(RENEWED)
  {
    assert "p1" in REGISTERED.leases && Live(REGISTERED.leases["p1"], 5);
    assert !HasExpired(REGISTERED, 5);
    assert "p1" in PONGED.leases && Live(PONGED.leases["p1"], 6);
    assert !HasExpired(PONGED, 6);
    assert PONGED.leases["p2" := Lease(100006, false)] == RENEWED.leases;
  }

  /**
   * Promptness is needed: a renewal that read the clock while the old lease was
   * live, but committed after it lapsed, keeps the pong across a moment with no
   * routable lease at all.
   */
  lemma LateRenewalHidesAGap()
    ensures exists name, start, evs: seq<Event>, n: nat ::
      && IsRun(name, start, evs) && PongsReadFirst(start, evs) && n < |evs|
      && At(start, evs, n).entry.Some?
      && !Routable(At(start, evs, n).entry.value, At(start, evs, n).now)
      && Run(start, evs).entry.Some?
      && Healthy(Run(start, evs).entry.value, Run(start, evs).now, 0, 100000 * 1000000)
      && Identity(At(start, evs, n).entry.value) == Identity(Run(start, evs).entry.value)
      && At(start, evs, n).entry.value.lastPong == Run(start, evs).entry.value.lastPong
  {
    var evs := [Do(Register(LATE_TOKEN, "p1", 45000), 5), Do(Pong(LATE_TOKEN, 1, "p1", 0), 5), Tick(46000),
                Do(Register(LATE_TOKEN, "p2", 100000), 6)];
    LateSteps();
    assert evs[..0] == [] && evs[..4] == evs;
    AtNext(5, evs, 0);
    AtNext(5, evs, 1);
    AtNext(5, evs, 2);
    AtNext(5, evs, 3);
    assert At(5, evs, 3) == Moment(46005, Some(PONGED)) && Run(5, evs) == Moment(46005, Some(RENEWED));
    PossibleStepsRun("tools", 5, evs);
    assert ReadAt(5, evs, 1, evs[1].action, 5);
    assert Routable(RENEWED, 46005) by { assert Live(RENEWED.leases["p2"], 46005); }
    assert !Routable(PONGED, 46005);
  }
}
