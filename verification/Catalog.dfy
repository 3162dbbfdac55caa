/**
 * The admission catalog: one compare-and-swap record per toolset owns the
 * active generation, its provider leases, its tombstones and its health epoch
 * (registry/catalog.go). This module gives every transition as a function of
 * the entry read and the clock reading it was based on; CatalogRuns proves what
 * whole runs keep, CatalogStore refines the retry loops to these steps.
 */
module Catalog {
  import opened Basics

  /**
   * A registration token hashes the toolset name, its schema and the deployment
   * revision. Hashing is modelled as collision free, so the token is the triple.
   */
  datatype Token = Token(toolset: string, schema: string, revision: string)

  datatype Lease = Lease(expiresAt: nat, draining: bool)

  datatype State = Active | Retired

  datatype Entry = Entry(
    state: State,
    token: Token,
    leases: map<string, Lease>,
    retired: set<Token>,
    epoch: nat,
    lastPong: nat)

  /** The rules a persisted entry must satisfy to be parsed. */
  predicate Valid(name: string, e: Entry) {
    && e.token.toolset == name
    && e.epoch > 0
    && (forall k :: k in e.leases ==> e.leases[k].expiresAt > 0)
    && (e.state == Retired <==> e.token in e.retired)
  }

  predicate Live(l: Lease, t: nat) {
    l.expiresAt > t
  }

  /** Some unexpired, non-draining lease exists at t. */
  predicate Routable(e: Entry, t: nat) {
    exists k :: k in e.leases && !e.leases[k].draining && Live(e.leases[k], t)
  }

  /** Non-draining leases, expired or not. */
  function NonDraining(e: Entry): set<string> {
    set k | k in e.leases && !e.leases[k].draining
  }

  function RoutableLeases(e: Entry, t: nat): set<string> {
    set k | k in e.leases && !e.leases[k].draining && Live(e.leases[k], t)
  }

  predicate HasNonDraining(e: Entry) {
    exists k :: k in e.leases && !e.leases[k].draining
  }

  predicate HasExpired(e: Entry, t: nat) {
    exists k :: k in e.leases && !Live(e.leases[k], t)
  }

  function Unexpired(leases: map<string, Lease>, t: nat): map<string, Lease> {
    map k | k in leases && Live(leases[k], t) :: leases[k]
  }

  /** Starts a new membership epoch, forgetting the last pong. */
  function NewEpoch(e: Entry): Entry {
    e.(epoch := e.epoch + 1, lastPong := 0)
  }

  /** Removes leases expired at t; losing the last routable one starts an epoch. */
  function Prune(e: Entry, t: nat): (p: Entry)
    ensures p.leases == Unexpired(e.leases, t)
    ensures p.token == e.token && p.state == e.state && p.retired == e.retired
    ensures !HasExpired(e, t) ==> p == e
  {
    PruneUnchanged(e, t);
    var p := e.(leases := Unexpired(e.leases, t));
    if HasNonDraining(e) && !Routable(p, t) then NewEpoch(p) else p
  }

  /**
   * A pruning pass that removes nothing leaves epoch and pong alone: every
   * non-draining lease it kept is still routable. The retry loops rely on this
   * when they return without writing.
   */
  lemma PruneUnchanged(e: Entry, t: nat)
    ensures !HasExpired(e, t) ==> Unexpired(e.leases, t) == e.leases
    ensures !HasExpired(e, t) && HasNonDraining(e) ==>
              Routable(e.(leases := Unexpired(e.leases, t)), t)
  {
    var p := e.(leases := Unexpired(e.leases, t));
    if !HasExpired(e, t) && HasNonDraining(e) {
      var k :| k in e.leases && !e.leases[k].draining;
      assert k in p.leases && Live(p.leases[k], t);
    }
  }

  function Fresh(token: Token, key: string, lease: Lease, retired: set<Token>): Entry {
    Entry(Active, token, map[key := lease], retired, 1, 0)
  }

  /** What one compare-and-swap may do to the catalog record. */
  datatype Action =
    | Register(token: Token, key: string, duration: nat)
    | Drain(token: Token, key: string, duration: nat)
    | Release(token: Token, key: string)
    | Retire(token: Token)
    | PruneOnly
    | Pong(token: Token, epoch: nat, key: string, nanos: nat)

  /** Nanoseconds of a clock reading: whole milliseconds plus a remainder. */
  function Nanos(ms: nat, rest: nat): nat {
    ms * 1000000 + rest
  }

  predicate AcceptsPong(e: Entry, t: nat, token: Token, epoch: nat, key: string) {
    && e.state == Active && e.token == token && e.epoch == epoch
    && key in e.leases && !e.leases[key].draining && Live(e.leases[key], t)
  }

  function Renew(p: Entry, t: nat, key: string, duration: nat): Entry {
    var e := p.(leases := p.leases[key := Lease(t + duration, false)]);
    if Routable(p, t) then e else NewEpoch(e)
  }

  /** An edit that may take the last routable lease away. */
  function Fence(before: Entry, after: Entry, t: nat): Entry {
    if Routable(before, t) && !Routable(after, t) then NewEpoch(after) else after
  }

  function RegisterEntry(e: Entry, t: nat, token: Token, key: string, duration: nat): Entry {
    var p := Prune(e, t);
    if token in p.retired then e
    else if p.token == token then Renew(p, t, key, duration)
    else if p.leases != map[] then p
    else Fresh(token, key, Lease(t + duration, false), p.retired + {p.token})
  }

  function DrainEntry(e: Entry, t: nat, token: Token, key: string, duration: nat): Entry {
    if e.token != token || key !in e.leases then e
    else if !Live(e.leases[key], t) then Prune(e, t)
    else
      var drained := Lease(Max(e.leases[key].expiresAt, t + duration), true);
      Fence(e, e.(leases := e.leases[key := drained]), t)
  }

  function ReleaseEntry(e: Entry, t: nat, token: Token, key: string): Entry {
    if e.token != token then e
    else
      var p := Prune(e, t);
      if key in p.leases then Fence(p, p.(leases := p.leases - {key}), t) else p
  }

  function RetireEntry(e: Entry, token: Token): Entry {
    if e.token != token || e.state == Retired then e
    else e.(state := Retired, retired := e.retired + {token})
  }

  /** Pruning and recording a pong are separate swaps; the second needs nothing to prune. */
  function PongEntry(e: Entry, t: nat, a: Action): Entry
    requires a.Pong?
  {
    if !HasExpired(e, t) && AcceptsPong(e, t, a.token, a.epoch, a.key)
    then e.(lastPong := Max(e.lastPong, Nanos(t, a.nanos)))
    else e
  }

  /** The entry after one atomic action decided on the clock reading t. */
  function Step(o: Option<Entry>, a: Action, t: nat): Option<Entry> {
    match o
    case None =>
      if a.Register?
      then Some(Fresh(a.token, a.key, Lease(t + a.duration, false), {}))
      else None
    case Some(e) =>
      Some(match a
        case Register(token, key, duration) => RegisterEntry(e, t, token, key, duration)
        case Drain(token, key, duration) => DrainEntry(e, t, token, key, duration)
        case Release(token, key) => ReleaseEntry(e, t, token, key)
        case Retire(token) => RetireEntry(e, token)
        case PruneOnly => Prune(e, t)
        case Pong(_, _, _, _) => PongEntry(e, t, a))
  }

  /** Requests reach the catalog with the toolset name the token was derived from. */
  predicate Legal(name: string, a: Action) {
    a.Register? ==> a.token.toolset == name && a.duration > 0
  }

  /** Every transition keeps the parser's validity rules. */
  lemma StepKeepsValid(name: string, o: Option<Entry>, a: Action, t: nat)
    requires Legal(name, a)
    requires o.Some? ==> Valid(name, o.value)
    ensures Step(o, a, t).Some? ==> Valid(name, Step(o, a, t).value)
    ensures o.Some? ==> Step(o, a, t).Some?
  {
  }

  /** Tombstones only grow, and a token leaves office only by becoming one. */
  lemma StepKeepsTombstones(name: string, e: Entry, a: Action, t: nat)
    requires Legal(name, a) && Valid(name, e)
    ensures var n := Step(Some(e), a, t).value;
            && e.retired <= n.retired
            && (n.token == e.token || (e.token in n.retired && n.token !in e.retired))
  {
  }

  /** The actions a provider incarnation takes on its own lease. */
  predicate Touches(a: Action, token: Token, key: string) {
    (a.Register? || a.Drain? || a.Release?) && a.token == token && a.key == key
  }

  /**
   * A lease that is unexpired at the clock reading survives every action its
   * holder did not take, and keeps its generation in office.
   */
  lemma LeaseSurvivesStep(name: string, e: Entry, a: Action, t: nat, key: string)
    requires Legal(name, a) && Valid(name, e)
    requires key in e.leases && Live(e.leases[key], t) && !Touches(a, e.token, key)
    ensures var n := Step(Some(e), a, t).value;
            n.token == e.token && key in n.leases && n.leases[key] == e.leases[key]
  {
    assert key in Unexpired(e.leases, t) && key in Prune(e, t).leases && Prune(e, t).token == e.token;
    match a {
      case Register(_, _, _) =>
        assert Prune(e, t).leases != map[];
      case _ =>
    }
  }

  /** Which pair a ping must carry. */
  function Identity(e: Entry): (Token, nat) {
    (e.token, e.epoch)
  }

  /** Within one generation the epoch never goes back, and a pong survives only within an epoch. */
  lemma StepOrdersEpochs(name: string, e: Entry, a: Action, t: nat)
    requires Legal(name, a) && Valid(name, e)
    ensures var n := Step(Some(e), a, t).value;
            && (n.token == e.token ==> e.epoch <= n.epoch)
            && (Identity(n) != Identity(e) ==> n.lastPong == 0)
  {
  }

  /**
   * A ping answered late: a pong carrying any identity but the current one
   * changes nothing.
   */
  lemma StalePongIsIgnored(e: Entry, t: nat, token: Token, epoch: nat, key: string, nanos: nat)
    requires (token, epoch) != Identity(e)
    ensures Step(Some(e), Pong(token, epoch, key, nanos), t) == Some(e)
  {
  }

  /** Health as derived from the record, evaluated at a clock reading (ms, rest). */
  predicate Healthy(e: Entry, ms: nat, rest: nat, threshold: nat) {
    && e.state == Active
    && Routable(e, ms)
    && e.lastPong != 0
    && Nanos(ms, rest) - e.lastPong <= threshold
  }
}
