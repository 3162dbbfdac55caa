/**
 * What the service adds to the scripts' own rules: the ranges it accepts for
 * leases, timeouts and retention, the wait before a republication, and that a
 * provider names only requests it was handed (registry/service.go:173-205,
 * 832-850; registry/catalog.go:146-153; runtime/toolregistry/transport.go:16-30).
 * The theorems hold without these limits; the example runs keep to them.
 */
module ServiceLimits {
  import opened StreamIds
  import opened Records
  import opened CallProtocol
  import CatalogStore

  const MAX_TIMEOUT_MS: nat := 600000
  const MIN_RETENTION_MS: nat := 660000
  const MAX_RETENTION_MS: nat := 86400000

  /** Some consumer of the toolset's stream was handed this request and has not acknowledged it. */
  predicate HandedOut(w: World, toolset: string, request: Id) {
    exists g :: 0 <= g < |StreamOf(w, toolset).groups| && request in StreamOf(w, toolset).groups[g].pending
  }

  /** The operation keeps to the limits of the service. */
  predicate Observes(w: World, op: Op) {
    match op
    case CatalogSwap(_, action, _) =>
      action.Register? ==> CatalogStore.MIN_LEASE_MS <= action.duration <= CatalogStore.MAX_LEASE_MS
    case On(_, EnsureOp(_, _, timeout, ttl)) =>
      1 <= timeout <= MAX_TIMEOUT_MS && MIN_RETENTION_MS <= ttl <= MAX_RETENTION_MS
    case On(_, RejectOp(_, _, _, ttl)) => MIN_RETENTION_MS <= ttl <= MAX_RETENTION_MS
    case On(_, PublishOp(_, _, overload, _)) => overload.Some? ==> overload.value.ms + OVERLOAD_DELAY_MS <= w.now
    case On(_, ClaimOp(p)) => HandedOut(w, p.toolset, p.request)
    case On(_, OverloadOp(p)) => HandedOut(w, p.toolset, p.request)
    case _ => true
  }

  predicate ObservingRun(w: World, ops: seq<Op>)
    decreases |ops|
  {
    ops == [] || (Observes(w, ops[0]) && ObservingRun(Apply(w, ops[0]), ops[1..]))
  }

  /** These operations are a run within the limits that ends in `n`. */
  predicate Leads(w: World, ops: seq<Op>, n: World) {
    IsRun(w, ops) && ObservingRun(w, ops) && Run(w, ops) == n
  }

  lemma {:induction false} LeadsOne(w: World, op: Op)
    requires Possible(w, op) && Observes(w, op)
    ensures Leads(w, [op], Apply(w, op))
  {
    var n := Apply(w, op);
    assert [op][1..] == [];
    assert IsRun(n, []) && ObservingRun(n, []) && Run(n, []) == n;
  }

  lemma {:induction false} LeadsOn(w: World, a: seq<Op>, m: World, b: seq<Op>, n: World)
    requires Leads(w, a, m) && Leads(m, b, n)
    ensures Leads(w, a + b, n)
    decreases |a|
  {
    if a == [] {
      assert a + b == b;
    } else {
      assert (a + b)[1..] == a[1..] + b;
      LeadsOn(Apply(w, a[0]), a[1..], m, b, n);
    }
  }

  lemma {:induction false} LeadsFirst(w: World, ops: seq<Op>, n: World)
    requires Leads(w, ops, n) && ops != []
    ensures Possible(w, ops[0]) && Observes(w, ops[0]) && Leads(Apply(w, ops[0]), ops[1..], n)
  {
  }

  /** One more operation. */
  lemma {:induction false} LeadsThen(w: World, ops: seq<Op>, m: World, op: Op)
    requires Leads(w, ops, m) && Possible(m, op) && Observes(m, op)
    ensures Leads(w, ops + [op], Apply(m, op))
  {
    LeadsOne(m, op);
    LeadsOn(w, ops, m, [op], Apply(m, op));
  }
}
