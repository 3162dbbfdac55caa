/**
 * A run from the empty registry, within the limits of the service, to a stored
 * record that a later caller's validation refuses.
 */
module ReplayExamples {
  import opened Basics
  import opened StreamIds
  import opened Records
  import opened CallProtocol
  import opened ReplayValidation
  import opened ServiceLimits
  import opened ExampleRuns

  const TERMS := Terms("p1", 100001, 50000, 660000)

  /** The overload report: the request's retry control is the first event of the result stream. */
  const REPORTED := Id(1, 0)

  function OverloadedRecord(w: World): (r: Record)
    ensures r.Admitted?
  {
    var r := PublishedFor(w, "call", TERMS);
    r.(overloadEvent := Some(REPORTED), overloadDelay := OVERLOAD_DELAY_MS,
       overloadRequests := map[RequestOf(w) := REPORTED])
  }

  lemma {:induction false} ReportsOverload(w: World, m: World) returns (n: World)
    requires w.now == 1 && Serves(w, "p1", 100001) && CallOf(w, "call") == NO_CALL
    requires Same(w, m, "call") && CallOf(m, "call") == SetRecord(NO_CALL, PublishedFor(w, "call", TERMS))
    requires HandedOut(m, "tools", RequestOf(w))
    ensures Leads(m, [On("call", OverloadOp(ProviderFor("call", "p1", RequestOf(w))))] + [Tick(OVERLOAD_DELAY_MS)], n)
    ensures n.now == 251 && n.catalog == w.catalog && n.requests == m.requests
    ensures CallOf(n, "call").record == Some(OverloadedRecord(w))
  {
    var report := On("call", OverloadOp(ProviderFor("call", "p1", RequestOf(w))));
    var e := Apply(m, report);
    assert CallOf(e, "call").record == Some(OverloadedRecord(w));
    n := Apply(e, Tick(OVERLOAD_DELAY_MS));
    LeadsOne(m, report);
    LeadsThen(m, [report], e, Tick(OVERLOAD_DELAY_MS));
    assert CallOf(n, "call") == CallOf(e, "call");
  }

  /** The first request, handed out again, is claimed by the other provider after the call was published again. */
  lemma {:induction false} ClaimsFirstRequest(w: World, n: World, m: World) returns (e: World)
    requires n.now == 251 && Serves(n, "p2", 200001) && Same(n, m, "call")
    requires CallOf(n, "call").record == Some(OverloadedRecord(w)) && w.now == 1
    requires HandedOut(m, "tools", RequestOf(w)) && RequestOf(n) != RequestOf(w)
    requires CallOf(m, "call") == SetRecord(CallOf(n, "call"),
               OverloadedRecord(w).(published := true, overload := Some(REPORTED), publication := Some(RequestOf(n)),
                                    claims := OverloadedRecord(w).claims + {RequestOf(n)}))
    ensures Leads(m, [On("call", ClaimOp(ProviderFor("call", "p2", RequestOf(w))))], e) && e.now == 251
    ensures var c := CallOf(e, "call");
            && IsAdmitted(c) && Retained(c, 251) && c.record.value.digest == DigestOf("call")
            && c.record.value.dispatchToken.Some? && c.record.value.dispatchRequest != c.record.value.publication
            && c.record.value == CallOf(m, "call").record.value.(dispatchToken := Some(TOKEN), dispatchLease := Some("p2"),
                                   dispatchRequest := Some(RequestOf(w)), dispatchExpires := Some(200001))
  {
    var p := ProviderFor("call", "p2", RequestOf(w));
    assert GrantsExecution(m, p);
    LeadsOne(m, On("call", ClaimOp(p)));
    e := Apply(m, On("call", ClaimOp(p)));
  }

  /**
   * With republication the gap is real: a provider reports overload, the call is
   * published again after the retry delay, and another provider, to which the
   * first request was handed again, claims it under that request. The record is
   * reachable, retained and in range, and is refused.
   */
  lemma {:induction false} RepublishedCallCanFailReplay() returns (ops: seq<Op>, w: World)
    ensures Leads(INITIAL, ops, w)
    ensures var c := CallOf(w, "call");
            && IsAdmitted(c) && Retained(c, w.now) && InRange(c.record.value)
            && Attach(c, "call", c.record.value.digest, w.now) == Invalid
  {
    var first, w0, w2 := Overloaded();
    var more;
    more, w := ClaimedAgain(w0, w2);
    LeadsOn(INITIAL, first, w2, more, w);
    ops := first + more;
    assert !DispatchAccepted(CallOf(w, "call").record.value);
  }

  /** The call, published at `w0` and reported overloaded, when the retry delay is over. */
  ghost predicate Delayed(w0: World, w: World) {
    && w0.now == 1 && StreamOf(w0, "tools").last == ZERO && w.now == 251 && Serves(w, "p2", 200001) && Handed(w, 1)
    && StreamOf(w, "tools").groups[0].pending == [RequestOf(w0)] && StreamOf(w, "tools").last == RequestOf(w0)
    && CallOf(w, "call").record == Some(OverloadedRecord(w0))
  }

  lemma {:induction false} Overloaded() returns (ops: seq<Op>, w0: World, w: World)
    ensures Leads(INITIAL, ops, w) && Delayed(w0, w)
  {
    var start;
    start, w0 := Starts(100000, 200000);
    var w1 := QueuesCall(w0, "call", TERMS, 0);
    assert HandedOut(w1, "tools", RequestOf(w0));
    w := ReportsOverload(w0, w1);
    var report := [On("call", OverloadOp(ProviderFor("call", "p1", RequestOf(w0))))] + [Tick(OVERLOAD_DELAY_MS)];
    LeadsOn(INITIAL, start, w0, QueueOps("call", TERMS), w1);
    LeadsOn(INITIAL, start + QueueOps("call", TERMS), w1, report, w);
    ops := start + QueueOps("call", TERMS) + report;
  }

  lemma {:induction false} ClaimedAgain(w0: World, w: World) returns (ops: seq<Op>, e: World)
    requires Delayed(w0, w)
    ensures Leads(w, ops, e) && e.now == 251
    ensures var c := CallOf(e, "call");
            && IsAdmitted(c) && Retained(c, 251) && InRange(c.record.value)
            && c.record.value.digest == DigestOf("call")
            && c.record.value.dispatchToken.Some? && c.record.value.dispatchRequest != c.record.value.publication
  {
    assert OverloadedRecord(w0).overloadRequests[RequestOf(w0)] == REPORTED;
    var m := PublishesCall(w, "call", Some(REPORTED), "p2", 200001, 1);
    assert StreamOf(m, "tools").groups[0].pending[0] == RequestOf(w0);
    assert HandedOut(m, "tools", RequestOf(w0));
    e := ClaimsFirstRequest(w0, w, m);
    ops := [PublishCall("call", Some(REPORTED))] + [HAND_OUT] + [On("call", ClaimOp(ProviderFor("call", "p2", RequestOf(w0))))];
    LeadsOn(w, [PublishCall("call", Some(REPORTED))] + [HAND_OUT], m,
      [On("call", ClaimOp(ProviderFor("call", "p2", RequestOf(w0))))], e);
  }
}
