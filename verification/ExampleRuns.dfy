/**
 * The building blocks of the example runs: providers register and read the
 * toolset's stream, and calls are admitted, published, delivered and claimed,
 * all within the limits of the service.
 */
module ExampleRuns {
  import opened Basics
  import opened StreamIds
  import Catalog
  import RequestStream
  import opened Records
  import opened CallProtocol
  import opened CallInvariants
  import opened ServiceLimits

  const TOKEN := Catalog.Token("tools", "schema", "r1")

  function OwnerBy(lease: string): Owner {
    Owner(TOKEN, lease)
  }

  function DigestOf(key: string): CallDigest {
    CallDigest("tools", key)
  }

  // ---------------------------------------------------------------------
  // The request stream
  // ---------------------------------------------------------------------

  /** One consumer group, which has been handed everything and acknowledged nothing. */
  predicate HandedAll(s: RequestStream.Stream, handed: nat) {
    && |s.groups| == 1 && s.groups[0].last == s.last && |s.groups[0].pending| == handed
    && forall i :: 0 <= i < |s.items| ==> AtOrBefore(s.items[i].id, s.last)
  }

  function RequestOf(w: World): Id {
    NextId(StreamOf(w, "tools").last, w.now)
  }

  lemma {:induction false} NothingReclaimed(items: seq<RequestStream.Item>, bound: Option<Id>)
    ensures RequestStream.Trim(items, bound, {}) == items
  {
    if items != [] {
      NothingReclaimed(items[1..], bound);
    }
  }

  lemma {:induction false} OnlyUnreadIsNext(items: seq<RequestStream.Item>, item: RequestStream.Item, last: Id)
    requires Before(last, item.id) && forall i :: 0 <= i < |items| ==> !Before(last, items[i].id)
    ensures RequestStream.FirstAfter(items + [item], last) == Some(item.id)
  {
    var all := items + [item];
    if items == [] {
      assert all[0] == item;
    } else {
      assert all[1..] == items[1..] + [item];
      OnlyUnreadIsNext(items[1..], item, last);
    }
  }

  /** With room in the queue, a request is appended and then handed out. */
  lemma {:induction false} AppendsAndHandsOut(s: RequestStream.Stream, now: nat, handed: nat)
    requires HandedAll(s, handed) && handed < MAX_QUEUED_CALLS
    ensures !RequestStream.Full(s, MAX_QUEUED_CALLS)
    ensures var id := NextId(s.last, now);
            var d := RequestStream.Step(RequestStream.Append(s, true, now, {}), RequestStream.Deliver(0), MAX_QUEUED_CALLS);
            && HandedAll(d, handed + 1) && d.last == id
            && d.groups[0].pending == s.groups[0].pending + [id]
  {
    var g, item := s.groups[0], RequestStream.Item(NextId(s.last, now), true);
    RequestStream.CountNone(s.items, (i: RequestStream.Item) => Before(g.last, i.id));
    assert s.groups[..0] == [];
    assert RequestStream.GroupBacklog(s.items, s.groups, MAX_QUEUED_CALLS) == handed;
    NothingReclaimed(s.items + [item], RequestStream.TrimId(s.groups));
    OnlyUnreadIsNext(s.items, item, g.last);
  }

  // ---------------------------------------------------------------------
  // Opening a call
  // ---------------------------------------------------------------------

  /** The provider holds a routable lease until `expiry`. */
  predicate Serves(w: World, lease: string, expiry: nat) {
    && "tools" in w.catalog && w.catalog["tools"].state == Catalog.Active && w.catalog["tools"].token == TOKEN
    && lease in w.catalog["tools"].leases && w.catalog["tools"].leases[lease] == Catalog.Lease(expiry, false)
    && w.now < expiry
  }

  predicate Handed(w: World, handed: nat) {
    HandedAll(StreamOf(w, "tools"), handed)
  }

  /** How long a call may run and is retained, and which lease claims it. */
  datatype Terms = Terms(lease: string, expiry: nat, timeout: nat, ttl: nat)

  /** The service would admit a call on these terms. */
  predicate Acceptable(t: Terms) {
    1 <= t.timeout <= MAX_TIMEOUT_MS && MIN_RETENTION_MS <= t.ttl <= MAX_RETENTION_MS
  }

  const HAND_OUT := StreamOp("tools", RequestStream.Deliver(0))

  function ProviderFor(key: string, lease: string, request: Id): Provider {
    Provider("tools", key, TOKEN, TOKEN, lease, request)
  }

  function EnsureCall(key: string, t: Terms): Op {
    On(key, EnsureOp(DigestOf(key), TOKEN, t.timeout, t.ttl))
  }

  function PublishCall(key: string, overload: Option<Id>): Op {
    On(key, PublishOp(DigestOf(key), TOKEN, overload, {}))
  }

  function QueueOps(key: string, t: Terms): seq<Op> {
    [EnsureCall(key, t)] + ([PublishCall(key, None)] + [HAND_OUT])
  }

  function OpenOps(w: World, key: string, t: Terms): seq<Op> {
    QueueOps(key, t) + [On(key, ClaimOp(ProviderFor(key, t.lease, RequestOf(w))))]
  }

  function AdmittedFor(w: World, key: string, t: Terms): (r: Record)
    ensures r.Admitted?
  {
    NewRecord(key, DigestOf(key), TOKEN, w.now + t.timeout, w.now + t.ttl)
  }

  function PublishedFor(w: World, key: string, t: Terms): (r: Record)
    ensures r.Admitted?
  {
    var r := AdmittedFor(w, key, t);
    r.(published := true, publication := Some(RequestOf(w)), claims := {RequestOf(w)})
  }

  function ClaimedFor(w: World, key: string, t: Terms): (r: Record)
    ensures r.Admitted?
  {
    var r := PublishedFor(w, key, t);
    r.(dispatchToken := Some(TOKEN), dispatchLease := Some(t.lease),
       dispatchRequest := Some(RequestOf(w)), dispatchExpires := Some(t.expiry))
  }

  function OpenedCall(w: World, key: string, t: Terms): Call {
    var c := CallOf(w, key);
    Call(Some(ClaimedFor(w, key, t)), c.results, Some(Min(w.now + t.timeout, t.expiry)),
         Some(OwnerBy(t.lease)), c.listed + {OwnerBy(t.lease)})
  }

  /** Only this call and the request streams differ. */
  ghost predicate Same(w: World, n: World, key: string) {
    && n.now == w.now && n.catalog == w.catalog
    && forall k :: k != key ==> CallOf(n, k) == CallOf(w, k)
  }

  lemma {:induction false} EnsureOpens(w: World, key: string, t: Terms)
    requires CallOf(w, key).record.None? && Acceptable(t)
    ensures var n := Apply(w, EnsureCall(key, t));
            && Leads(w, [EnsureCall(key, t)], n) && Same(w, n, key) && n.requests == w.requests
            && CallOf(n, key) == SetRecord(CallOf(w, key), AdmittedFor(w, key, t))
  {
    LeadsOne(w, EnsureCall(key, t));
  }

  /** A publication the record, the catalog and the queue allow is appended, and handed out next. */
  lemma {:induction false} PublishesCall(w: World, key: string, overload: Option<Id>, lease: string, expiry: nat, handed: nat) returns (n: World)
    requires Serves(w, lease, expiry) && Handed(w, handed) && handed < MAX_QUEUED_CALLS
    requires Assigned(CallOf(w, key), DigestOf(key), TOKEN) && BeforeDeadline(CallOf(w, key), w.now)
    requires !CallOf(w, key).record.value.terminal && !AttemptMade(CallOf(w, key).record.value, overload)
    requires Possible(w, PublishCall(key, overload)) && Observes(w, PublishCall(key, overload))
    ensures Leads(w, [PublishCall(key, overload)] + [HAND_OUT], n)
    ensures Same(w, n, key) && Handed(n, handed + 1) && StreamOf(n, "tools").last == RequestOf(w)
    ensures StreamOf(n, "tools").groups[0].pending == StreamOf(w, "tools").groups[0].pending + [RequestOf(w)]
    ensures CallOf(n, key) == SetRecord(CallOf(w, key),
              CallOf(w, key).record.value.(published := true, overload := overload, publication := Some(RequestOf(w)),
                                           claims := CallOf(w, key).record.value.claims + {RequestOf(w)}))
  {
    var s := StreamOf(w, "tools");
    assert lease in w.catalog["tools"].leases;
    assert Catalog.Routable(w.catalog["tools"], w.now);
    AppendsAndHandsOut(s, w.now, handed);
    var m := Apply(w, PublishCall(key, overload));
    assert PublishReplyOf(w, Attempt(key, DigestOf(key), TOKEN, overload)) == Appended(RequestOf(w));
    assert StreamOf(m, "tools") == RequestStream.Append(s, true, w.now, {});
    n := Apply(m, HAND_OUT);
    LeadsOne(w, PublishCall(key, overload));
    LeadsThen(w, [PublishCall(key, overload)], m, HAND_OUT);
  }

  /** From no record to a request a provider has in hand. */
  lemma {:induction false} QueuesCall(w: World, key: string, t: Terms, handed: nat) returns (n: World)
    requires Serves(w, t.lease, t.expiry) && Handed(w, handed) && handed < MAX_QUEUED_CALLS
    requires Acceptable(t) && CallOf(w, key).record.None?
    ensures Leads(w, QueueOps(key, t), n) && Same(w, n, key) && Handed(n, handed + 1)
    ensures StreamOf(n, "tools").groups[0].pending == StreamOf(w, "tools").groups[0].pending + [RequestOf(w)]
    ensures StreamOf(n, "tools").last == RequestOf(w)
    ensures CallOf(n, key) == SetRecord(CallOf(w, key), PublishedFor(w, key, t))
  {
    var a := Apply(w, EnsureCall(key, t));
    EnsureOpens(w, key, t);
    n := PublishesCall(a, key, None, t.lease, t.expiry, handed);
    assert AdmittedFor(w, key, t).claims + {RequestOf(w)} == {RequestOf(w)};
    LeadsOn(w, [EnsureCall(key, t)], a, [PublishCall(key, None)] + [HAND_OUT], n);
  }

  /** From no record to a claimed call. */
  lemma {:induction false} OpensCall(w: World, key: string, t: Terms, handed: nat) returns (n: World)
    requires Serves(w, t.lease, t.expiry) && Handed(w, handed) && handed < MAX_QUEUED_CALLS
    requires Acceptable(t) && CallOf(w, key).record.None?
    ensures Leads(w, OpenOps(w, key, t), n)
    ensures Same(w, n, key) && Handed(n, handed + 1) && CallOf(n, key) == OpenedCall(w, key, t)
    ensures RequestOf(w) in StreamOf(n, "tools").groups[0].pending
  {
    var m := QueuesCall(w, key, t, handed);
    var p := ProviderFor(key, t.lease, RequestOf(w));
    assert HandedOut(m, "tools", RequestOf(w));
    assert GrantsExecution(m, p);
    n := Apply(m, On(key, ClaimOp(p)));
    LeadsThen(w, QueueOps(key, t), m, On(key, ClaimOp(p)));
  }

  // ---------------------------------------------------------------------
  // The start
  // ---------------------------------------------------------------------

  function RegisterBy(lease: string, duration: nat): Op {
    CatalogSwap("tools", Catalog.Register(TOKEN, lease, duration), 1)
  }

  const NEW_GROUP := StreamOp("tools", RequestStream.NewGroup)

  /** No call has any trace but these. */
  ghost predicate Only(w: World, keys: set<string>) {
    forall k :: k !in keys ==> CallOf(w, k) == NO_CALL
  }

  /** Two providers register at time 1 and start to read the stream. */
  lemma {:induction false} Starts(first: nat, second: nat) returns (ops: seq<Op>, w: World)
    requires 45000 <= first <= 86400000 && 45000 <= second <= 86400000
    ensures Leads(INITIAL, ops, w)
    ensures w.now == 1 && Serves(w, "p1", 1 + first) && Serves(w, "p2", 1 + second) && Handed(w, 0) && Only(w, {})
    ensures StreamOf(w, "tools").last == ZERO
  {
    var w1 := Apply(INITIAL, Tick(1));
    var w2 := Apply(w1, RegisterBy("p1", first));
    var e := Catalog.Fresh(TOKEN, "p1", Catalog.Lease(1 + first, false), {});
    assert w2.catalog["tools"] == e;
    assert "p1" in e.leases && !Catalog.HasExpired(e, 1) && Catalog.Routable(e, 1);
    var w3 := Apply(w2, RegisterBy("p2", second));
    w := Apply(w3, NEW_GROUP);
    LeadsOne(INITIAL, Tick(1));
    LeadsThen(INITIAL, [Tick(1)], w1, RegisterBy("p1", first));
    LeadsThen(INITIAL, [Tick(1)] + [RegisterBy("p1", first)], w2, RegisterBy("p2", second));
    LeadsThen(INITIAL, [Tick(1)] + [RegisterBy("p1", first)] + [RegisterBy("p2", second)], w3, NEW_GROUP);
    ops := [Tick(1)] + [RegisterBy("p1", first)] + [RegisterBy("p2", second)] + [NEW_GROUP];
  }

  /** A registry reached within the limits in which only these calls exist is consistent if their index entries agree. */
  lemma {:induction false} ReachesSound(ops: seq<Op>, w: World, keys: set<string>)
    requires Leads(INITIAL, ops, w) && Only(w, keys)
    requires forall k :: k in keys ==> IndexesOk(CallOf(w, k), w.now)
    ensures Inv(w) && AllIndexed(w)
  {
    InitialHolds();
    EveryRunKeepsInv(INITIAL, ops);
    forall k ensures IndexesOk(CallOf(w, k), w.now) {
      assert k in keys || CallOf(w, k) == NO_CALL;
    }
  }
}
