/**
 * That callers are answered. Callers proves that answers agree; this module
 * says when the routing loop reaches one (registry/service.go:409-520, 668-742,
 * 979-1005), on the caller's own moves and the stored fields.
 */
module CallerAnswers {
  import opened Basics
  import opened StreamIds
  import Catalog
  import RequestStream
  import opened Records
  import opened CallProtocol
  import opened CallInvariants
  import opened ReplayValidation
  import opened Callers
  import CallEffects

  /** The caller makes these moves, and nobody else does anything in between. */
  function Play(w: World, a: Caller, choices: seq<Choice>): (World, Caller)
    decreases |choices|
  {
    if choices == [] then (w, a)
    else Play(MoveWorld(w, a, choices[0]), a.(phase := NextPhase(w, a, choices[0])), choices[1..])
  }

  const GO := Proceed({})

  lemma PlayOne(w: World, a: Caller, x: Choice)
    ensures Play(w, a, [x]) == (MoveWorld(w, a, x), a.(phase := NextPhase(w, a, x)))
  {
    var n, b := MoveWorld(w, a, x), a.(phase := NextPhase(w, a, x));
    assert Play(n, b, []) == (n, b);
  }

  lemma PlayFirst(w: World, a: Caller, x: Choice, ys: seq<Choice>)
    ensures Play(w, a, [x] + ys) == Play(MoveWorld(w, a, x), a.(phase := NextPhase(w, a, x)), ys)
  {
    assert ([x] + ys)[1..] == ys;
  }

  /** A record of this call whose values the validator can represent, claimed under its last request if at all. */
  predicate Readable(w: World, a: Caller) {
    var c := CallOf(w, a.key);
    && c.record.Some? && c.record.value.Admitted? && c.record.value.digest == a.digest
    && w.now < c.record.value.expiresAt
    && InRange(c.record.value) && DispatchedAsPublished(c.record.value)
  }

  /** The terms on record. */
  function TermsOf(w: World, a: Caller): Answer
    requires Readable(w, a)
  {
    var r := CallOf(w, a.key).record.value;
    Admission(r.token, r.deadline, r.expiresAt)
  }

  /** What a caller reading the record takes with it. */
  function HeldOf(w: World, a: Caller): Snapshot
    requires Readable(w, a)
  {
    var r := CallOf(w, a.key).record.value;
    Snapshot(r.token, r.deadline, r.expiresAt, r.published, r.terminal, r.overloadEvent)
  }

  lemma ReadableAttaches(w: World, a: Caller)
    requires Inv(w) && Readable(w, a)
    ensures Attach(CallOf(w, a.key), a.key, a.digest, w.now) == Found(HeldOf(w, a))
  {
    assert CallOk(a.key, CallOf(w, a.key), w.now);
    ReplayAcceptsExactly(w, a.key);
  }

  // ---------------------------------------------------------------------
  // A decided call
  // ---------------------------------------------------------------------

  /** Holding the record's terms, in whatever world it moves next, the caller answers them while they are retained. */
  lemma ReplayingAnswers(w: World, a: Caller, held: Snapshot)
    requires Inv(w) && a.phase == Replaying(held)
    requires var c := CallOf(w, a.key);
             c.record.Some? && c.record.value.Admitted? && w.now < c.record.value.expiresAt
    ensures NextPhase(w, a, GO) == Answered(Admission(held.token, held.deadline, held.expiresAt))
  {
    assert CallOk(a.key, CallOf(w, a.key), w.now);
  }

  /** The caller is about to read the record, as CallTool or RetryTool does in these places. */
  predicate Reads(p: Phase, terminal: bool, token: Catalog.Token) {
    || p.Start? || p.Reattaching? || p.RejectAttaching?
    || (p.RetryStart? && terminal && token == p.expected) || (p.RetryResolving? && terminal)
  }

  /** What reading the record leads to. */
  function AfterReading(p: Phase, reply: AttachReply): Phase {
    match p
    case Start => AfterAttach(reply)
    case RetryStart(expected) => AfterRetryAttach(reply, expected)
    case RetryResolving => AfterRetryResolve(reply)
    case Reattaching => AfterReattach(reply)
    case RejectAttaching => AfterRejectAttach(reply)
    case _ => p
  }

  lemma FoundIsReplayed(p: Phase, held: Snapshot)
    requires Reads(p, held.terminal, held.token) && (held.published || held.terminal)
    ensures AfterReading(p, Found(held)) == Replaying(held)
  {
  }

  lemma ReadingMove(w: World, a: Caller)
    requires a.phase.Start? || a.phase.RetryStart? || a.phase.RetryResolving? || a.phase.Reattaching? || a.phase.RejectAttaching?
    ensures NextPhase(w, a, GO) == AfterReading(a.phase, Attach(CallOf(w, a.key), a.key, a.digest, w.now))
    ensures MoveWorld(w, a, GO) == w
  {
  }

  predicate ReadsRecord(w: World, a: Caller) {
    && Readable(w, a)
    && Reads(a.phase, CallOf(w, a.key).record.value.terminal, CallOf(w, a.key).record.value.token)
    && (CallOf(w, a.key).record.value.published || CallOf(w, a.key).record.value.terminal)
  }

  /** Reading a published or finished record, the caller takes over its terms. */
  lemma DecidedCallIsReplayed(w: World, a: Caller)
    requires Inv(w) && ReadsRecord(w, a)
    ensures NextPhase(w, a, GO) == Replaying(HeldOf(w, a))
    ensures MoveWorld(w, a, GO) == w
  {
    ReadableAttaches(w, a);
    FoundIsReplayed(a.phase, HeldOf(w, a));
    ReadingMove(w, a);
  }

  /** A second call, on any replica, finds a published or finished call and answers its stored terms. */
  lemma DecidedCallIsAnswered(w: World, a: Caller)
    requires Inv(w) && ReadsRecord(w, a)
    ensures Play(w, a, [GO] + [GO]).1.phase == Answered(TermsOf(w, a))
  {
    DecidedCallIsReplayed(w, a);
    PlayFirst(w, a, GO, [GO]);
    HoldingAnswers(w, a.(phase := NextPhase(w, a, GO)));
  }

  lemma HoldingAnswers(w: World, a: Caller)
    requires Inv(w) && a.phase.Replaying?
    requires var c := CallOf(w, a.key);
             c.record.Some? && c.record.value.Admitted? && w.now < c.record.value.expiresAt
    ensures Play(w, a, [GO]).1.phase == Answered(AdmissionOf(a.phase.held))
  {
    ReplayingAnswers(w, a, a.phase.held);
    PlayOne(w, a, GO);
  }

  /** A stored rejection is answered as it is stored. */
  lemma RejectedCallIsAnswered(w: World, a: Caller)
    requires Inv(w) && (a.phase.Start? || a.phase.Reattaching? || a.phase.RejectAttaching?)
    requires var c := CallOf(w, a.key);
             c.record.Some? && c.record.value.Rejected? && c.record.value.digest == a.digest && w.now < c.record.value.expiresAt
    ensures NextPhase(w, a, GO) == Answered(Refusal(CallOf(w, a.key).record.value.kind, CallOf(w, a.key).record.value.message))
  {
    assert CallOk(a.key, CallOf(w, a.key), w.now);
  }

  /** Only another request under the same identity is turned away unanswered. */
  lemma OtherRequestFails(w: World, a: Caller)
    requires a.phase.Start? && CallOf(w, a.key).record.Some? && CallOf(w, a.key).record.value.digest != a.digest
    ensures NextPhase(w, a, GO) == Failed
  {
  }

  // ---------------------------------------------------------------------
  // Routing
  // ---------------------------------------------------------------------

  lemma MissingCallIsRouted(w: World, a: Caller)
    requires a.phase.Start? && CallOf(w, a.key).record.None?
    ensures NextPhase(w, a, GO) == Routing && MoveWorld(w, a, GO) == w
  {
  }

  /** A missing call, and one nobody published yet, is routed. */
  lemma UndecidedCallIsRouted(w: World, a: Caller)
    requires Inv(w) && a.phase.Start?
    requires CallOf(w, a.key).record.Some? ==>
               Readable(w, a) && !CallOf(w, a.key).record.value.published && !CallOf(w, a.key).record.value.terminal
    ensures NextPhase(w, a, GO) == Routing
  {
    if CallOf(w, a.key).record.Some? {
      ReadableAttaches(w, a);
    }
  }

  /** An initial publication that lost its assignment, its time or its provider is routed again. */
  lemma LostPublicationIsRoutedAgain(w: World, a: Caller, held: Snapshot)
    requires a.phase == Publishing(held, None)
    requires var r := CallOf(w, a.key).record;
             || r.None? || !r.value.Admitted? || r.value.digest != a.digest || r.value.token != held.token
             || (!r.value.terminal && !r.value.published &&
                 (r.value.deadline <= w.now || !CallEffects.HasProvider(w, a.digest.toolset, held.token)))
    ensures NextPhase(w, a, GO) == Routing && CallOf(MoveWorld(w, a, GO), a.key) == CallOf(w, a.key)
  {
    CallEffects.PublishLeaves(w, a.key, a.digest, held.token, None, {});
    if CallEffects.HasProvider(w, a.digest.toolset, held.token) {
      assert Catalog.Routable(w.catalog[a.digest.toolset], w.now);
    }
  }

  /** Ensuring a call that somebody else already decided leads to reading that decision; only another request fails. */
  lemma EnsuringExistingReads(w: World, a: Caller)
    requires a.phase.Ensuring? && CallOf(w, a.key).record.Some?
    ensures NextPhase(w, a, GO) == if CallOf(w, a.key).record.value.digest == a.digest then Reattaching else Failed
  {
    CallEffects.EnsureMovesUnpublished(w, a.key, a.digest, a.phase.token, a.phase.timeout, a.phase.ttl);
  }

  /** Somebody else's decision, found when ensuring, is read again: answered if decided, published otherwise. */
  lemma EnsuringMeetsDecision(w: World, a: Caller)
    requires Inv(w) && a.phase.Reattaching? && Readable(w, a)
    ensures var r := CallOf(w, a.key).record.value;
            var held := HeldOf(w, a);
            NextPhase(w, a, GO) == if r.published || r.terminal then Replaying(held) else Publishing(held, None)
  {
    ReadableAttaches(w, a);
  }

  /** The record before a fresh call of this identity: none. */
  predicate FreshCall(w: World, a: Caller, token: Catalog.Token) {
    && CallOf(w, a.key).record.None? && CallOf(w, a.key).results.events == []
    && CallEffects.HasProvider(w, a.digest.toolset, token)
  }

  /** The call is published under what the caller holds, which it is about to answer. */
  predicate Holds(w: World, a: Caller, held: Snapshot) {
    && a.phase == Initializing(held) && w.now < held.expiresAt
    && PublishedUnder(CallOf(w, a.key), a.digest, held.token, held.deadline, held.expiresAt)
  }

  /** So it will be after its next move. */
  predicate WillHold(w: World, a: Caller, held: Snapshot) {
    Holds(MoveWorld(w, a, GO), a.(phase := NextPhase(w, a, GO)), held)
  }

  ghost predicate HasRoom(w: World, a: Caller, token: Catalog.Token, timeout: nat, ttl: nat) {
    && FreshCall(w, a, token) && 0 < timeout < ttl && RequestStream.Inv(StreamOf(w, a.digest.toolset))
    && !RequestStream.AtBound(StreamOf(w, a.digest.toolset), MAX_QUEUED_CALLS)
  }

  function Assigned(w: World, token: Catalog.Token, timeout: nat, ttl: nat): Snapshot {
    Snapshot(token, w.now + timeout, w.now + ttl, false, false, None)
  }

  /** Ensuring a fresh call assigns it: the caller goes on to publish under these terms. */
  lemma FreshCallIsAssigned(w: World, a: Caller, token: Catalog.Token, timeout: nat, ttl: nat)
    requires a.phase == Ensuring(token, timeout, ttl) && HasRoom(w, a, token, timeout, ttl)
    ensures NextPhase(w, a, GO) == Publishing(Assigned(w, token, timeout, ttl), None)
    ensures MoveWorld(w, a, GO) == Apply(w, On(a.key, EnsureOp(a.digest, token, timeout, ttl)))
  {
  }

  /** Admitted under these terms, neither published nor finished. */
  predicate AssignedAs(c: Call, digest: CallDigest, held: Snapshot) {
    c.record.Some? && c.record.value.Admitted? &&
    var r := c.record.value;
    && r.digest == digest && r.token == held.token && r.deadline == held.deadline && r.expiresAt == held.expiresAt
    && !r.published && !r.terminal
  }

  /** The call is assigned, before its deadline, to a provider with room. */
  ghost predicate ReadyFor(w: World, a: Caller, held: Snapshot) {
    && RequestStream.Inv(StreamOf(w, a.digest.toolset)) && w.now < held.deadline < held.expiresAt
    && CallEffects.HasProvider(w, a.digest.toolset, held.token)
    && !RequestStream.AtBound(StreamOf(w, a.digest.toolset), MAX_QUEUED_CALLS)
    && AssignedAs(CallOf(w, a.key), a.digest, held)
  }

  lemma AssignedCallIsPublished(w: World, a: Caller, held: Snapshot)
    requires a.phase == Publishing(held, None) && ReadyFor(w, a, held)
    ensures WillHold(w, a, held)
  {
    CallEffects.PublishAppends(w, a.key, a.digest, held.token, None, {});
  }

  lemma HolderAnswers(w: World, a: Caller, held: Snapshot)
    requires Holds(w, a, held)
    ensures var x := Play(w, a, [GO]);
            && x.1.phase == Answered(Admission(held.token, held.deadline, held.expiresAt))
            && PublishedUnder(CallOf(x.0, a.key), a.digest, held.token, held.deadline, held.expiresAt)
  {
    PlayOne(w, a, GO);
  }

  lemma AssignedCallIsAnswered(w: World, a: Caller, held: Snapshot)
    requires WillHold(w, a, held)
    ensures var x := Play(w, a, [GO] + [GO]);
            && x.1.phase == Answered(Admission(held.token, held.deadline, held.expiresAt))
            && PublishedUnder(CallOf(x.0, a.key), a.digest, held.token, held.deadline, held.expiresAt)
  {
    PlayFirst(w, a, GO, [GO]);
    HolderAnswers(MoveWorld(w, a, GO), a.(phase := NextPhase(w, a, GO)), held);
  }

  /** A caller that has assigned the call publishes and answers it. */
  lemma AssignerAnswers(w: World, n: World, a: Caller, held: Snapshot)
    requires MoveWorld(w, a, GO) == n && NextPhase(w, a, GO) == Publishing(held, None)
    requires WillHold(n, a.(phase := Publishing(held, None)), held)
    ensures var x := Play(w, a, [GO] + ([GO] + [GO]));
            && x.1.phase == Answered(Admission(held.token, held.deadline, held.expiresAt))
            && PublishedUnder(CallOf(x.0, a.key), a.digest, held.token, held.deadline, held.expiresAt)
  {
    var b := a.(phase := Publishing(held, None));
    PlayFirst(w, a, GO, [GO] + [GO]);
    AssignedCallIsAnswered(n, b, held);
  }

  lemma FreshCallIsReady(w: World, a: Caller, token: Catalog.Token, timeout: nat, ttl: nat)
    requires a.phase == Ensuring(token, timeout, ttl) && HasRoom(w, a, token, timeout, ttl)
    ensures NextPhase(w, a, GO) == Publishing(Assigned(w, token, timeout, ttl), None)
    ensures WillHold(MoveWorld(w, a, GO), a.(phase := Publishing(Assigned(w, token, timeout, ttl), None)),
                     Assigned(w, token, timeout, ttl))
  {
    var held := Assigned(w, token, timeout, ttl);
    FreshCallIsAssigned(w, a, token, timeout, ttl);
    EnsuredWorld(w, a, token, timeout, ttl);
    AssignedCallIsPublished(Apply(w, On(a.key, EnsureOp(a.digest, token, timeout, ttl))), a.(phase := Publishing(held, None)), held);
  }

  lemma RoutedCallIsAnswered(w: World, a: Caller, x: Choice, held: Snapshot)
    requires NextPhase(w, a, GO) == Routing && MoveWorld(w, a, GO) == w && x.Healthy?
    requires var e := a.(phase := Ensuring(x.token, x.timeout, x.ttl));
             NextPhase(w, e, GO) == Publishing(held, None)
             && WillHold(MoveWorld(w, e, GO), e.(phase := Publishing(held, None)), held)
    ensures var y := Play(w, a, [GO] + ([x] + ([GO] + ([GO] + [GO]))));
            && y.1.phase == Answered(Admission(held.token, held.deadline, held.expiresAt))
            && PublishedUnder(CallOf(y.0, a.key), a.digest, held.token, held.deadline, held.expiresAt)
  {
    var e := a.(phase := Ensuring(x.token, x.timeout, x.ttl));
    PlayFirst(w, a, GO, [x] + ([GO] + ([GO] + [GO])));
    PlayFirst(w, a.(phase := Routing), x, [GO] + ([GO] + [GO]));
    AssignerAnswers(w, MoveWorld(w, e, GO), e, held);
  }

  lemma EnsuredWorld(w: World, a: Caller, token: Catalog.Token, timeout: nat, ttl: nat)
    requires HasRoom(w, a, token, timeout, ttl)
    ensures var n := Apply(w, On(a.key, EnsureOp(a.digest, token, timeout, ttl)));
            ReadyFor(n, a, Assigned(w, token, timeout, ttl))
  {
    CallEffects.EnsureCreates(w, a.key, a.digest, token, timeout, ttl);
  }

  /**
   * A fresh call whose toolset has a provider and room: CallTool admits it,
   * publishes it and answers its terms.
   */
  lemma FreshCallIsAdmitted(w: World, a: Caller, token: Catalog.Token, timeout: nat, ttl: nat)
    requires a.phase.Start? && HasRoom(w, a, token, timeout, ttl)
    ensures var x := Play(w, a, [GO] + ([Healthy(token, timeout, ttl)] + ([GO] + ([GO] + [GO]))));
            && x.1.phase == Answered(Admission(token, w.now + timeout, w.now + ttl))
            && PublishedUnder(CallOf(x.0, a.key), a.digest, token, w.now + timeout, w.now + ttl)
  {
    MissingCallIsRouted(w, a);
    FreshCallIsReady(w, a.(phase := Ensuring(token, timeout, ttl)), token, timeout, ttl);
    RoutedCallIsAnswered(w, a, Healthy(token, timeout, ttl), Assigned(w, token, timeout, ttl));
  }

  // ---------------------------------------------------------------------
  // Refusal and retry
  // ---------------------------------------------------------------------

  /** A fresh or unpublished call that cannot be routed is refused, and the refusal is stored. */
  lemma UnroutableCallIsRefused(w: World, a: Caller, kind: RejectionKind, message: string, ttl: nat)
    requires a.phase == Rejecting(kind, message, ttl)
    requires var r := CallOf(w, a.key).record;
             r.None? || (r.value.Admitted? && r.value.digest == a.digest && !r.value.published && !r.value.terminal)
    ensures NextPhase(w, a, GO) == Answered(Refusal(kind, message))
    ensures CallOf(MoveWorld(w, a, GO), a.key).record == Some(Rejected(a.digest, kind, message, w.now + ttl))
  {
    CallEffects.RejectStoresDecision(w, a.key, a.digest, kind, message, ttl);
  }

  /** If the call was published first, the refusal gives way and the caller answers the stored terms. */
  lemma PublicationBeatsRefusal(w: World, a: Caller)
    requires Inv(w) && a.phase.Rejecting? && ReadsRecord(w, a.(phase := RejectAttaching))
    ensures Play(w, a, [GO] + ([GO] + [GO])).1.phase == Answered(TermsOf(w, a))
  {
    RefusalGivesWay(w, a);
    GivenWay(w, MoveWorld(w, a, GO), a);
  }

  lemma GivenWay(w: World, n: World, a: Caller)
    requires Inv(n) && ReadsRecord(n, a.(phase := RejectAttaching))
    requires MoveWorld(w, a, GO) == n && NextPhase(w, a, GO) == RejectAttaching
    ensures Play(w, a, [GO] + ([GO] + [GO])).1.phase == Answered(TermsOf(n, a.(phase := RejectAttaching)))
  {
    PlayFirst(w, a, GO, [GO] + [GO]);
    DecidedCallIsAnswered(n, a.(phase := RejectAttaching));
  }

  lemma RefusalGivesWay(w: World, a: Caller)
    requires Inv(w) && a.phase.Rejecting? && ReadsRecord(w, a.(phase := RejectAttaching))
    ensures NextPhase(w, a, GO) == RejectAttaching && Inv(MoveWorld(w, a, GO))
    ensures CallOf(MoveWorld(w, a, GO), a.key) == CallOf(w, a.key) && MoveWorld(w, a, GO).now == w.now
  {
    CallEffects.RejectStoresDecision(w, a.key, a.digest, a.phase.kind, a.phase.message, a.phase.ttl);
    RefusalLeavesInv(w, a);
  }

  lemma RefusalLeavesInv(w: World, a: Caller)
    requires Inv(w) && a.phase.Rejecting? && CallOf(MoveWorld(w, a, GO), a.key) == CallOf(w, a.key)
    ensures Inv(MoveWorld(w, a, GO))
  {
    var n := MoveWorld(w, a, GO);
    forall k ensures CallOk(k, CallOf(n, k), n.now) {
      assert CallOk(k, CallOf(w, k), w.now);
    }
  }

  /** RetryTool under the stored registration: a finished call is replayed, an overloaded one published again. */
  lemma RetryFollowsRecord(w: World, a: Caller)
    requires Inv(w) && a.phase.RetryStart? && Readable(w, a) && CallOf(w, a.key).record.value.token == a.phase.expected
    ensures var r := CallOf(w, a.key).record.value;
            var held := HeldOf(w, a);
            && NextPhase(w, a, GO) == (if r.terminal then Replaying(held) else RetryRouting(held))
            && (r.overloadEvent.Some? ==>
                  NextPhase(w, a.(phase := RetryRouting(held)), GO) == Publishing(held, r.overloadEvent))
  {
    ReadableAttaches(w, a);
  }

  /** Even when its registration is gone, a retry of a finished call is answered. */
  lemma RetryResolvesTerminal(w: World, a: Caller, kind: RejectionKind, message: string, ttl: nat)
    requires Inv(w) && a.phase.RetryRouting? && Readable(w, a) && CallOf(w, a.key).record.value.terminal
    ensures Play(w, a, [Unavailable(kind, message, ttl)] + ([GO] + [GO])).1.phase == Answered(TermsOf(w, a))
  {
    PlayFirst(w, a, Unavailable(kind, message, ttl), [GO] + [GO]);
    DecidedCallIsAnswered(w, a.(phase := RetryResolving));
  }
}
