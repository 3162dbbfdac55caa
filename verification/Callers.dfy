/**
 * The routing loop (registry/service.go:409-520, 668-742, 979-1005). Callers on
 * any replicas run CallTool and RetryTool concurrently, one Redis operation at
 * a time, interleaved with everything else the protocol does. Waiting for
 * health, timers and stream handles are choices of the environment.
 */
module Callers {
  import opened Basics
  import opened StreamIds
  import Catalog
  import opened Records
  import opened CallProtocol
  import opened CallInvariants
  import opened CallTheorems
  import opened ReplayValidation

  datatype Answer =
    | Admission(token: Catalog.Token, deadline: nat, expiresAt: nat)
    | Refusal(kind: RejectionKind, message: string)

  /** Where a caller stands between two Redis operations. */
  datatype Phase =
    | Start
    | RetryStart(expected: Catalog.Token)
    | RetryRouting(held: Snapshot)
    | RetryResolving
    | Routing
    | Ensuring(token: Catalog.Token, timeout: nat, ttl: nat)
    | Reattaching
    | Publishing(held: Snapshot, overload: Option<Id>)
    | Initializing(held: Snapshot)
    | Replaying(held: Snapshot)
    | Rejecting(kind: RejectionKind, message: string, ttl: nat)
    | RejectAttaching
    | Answered(answer: Answer)
    | Failed

  datatype Caller = Caller(key: string, digest: CallDigest, phase: Phase)

  /** What happens to a caller next; `reclaimed` is what trimming removes if it publishes. */
  datatype Choice =
    | Proceed(reclaimed: set<Id>)
    | Healthy(token: Catalog.Token, timeout: nat, ttl: nat)
    | Unavailable(kind: RejectionKind, message: string, ttl: nat)
    | GiveUp

  function AdmissionOf(held: Snapshot): Answer {
    Admission(held.token, held.deadline, held.expiresAt)
  }

  /** A decided snapshot is replayed, an undecided one is not. */
  predicate Decided(held: Snapshot) {
    held.terminal || held.published
  }

  /** The Redis operation the caller issues, if this move issues one that writes. */
  function Issues(a: Caller, choice: Choice): Option<CallOp> {
    if !choice.Proceed? then None
    else
      match a.phase
      case Ensuring(token, timeout, ttl) => Some(EnsureOp(a.digest, token, timeout, ttl))
      case Publishing(held, overload) => Some(PublishOp(a.digest, held.token, overload, choice.reclaimed))
      case Initializing(_) => Some(InitOp(a.digest))
      case Replaying(held) => if held.terminal then Some(RestoreOp) else None
      case Rejecting(kind, message, ttl) => Some(RejectOp(a.digest, kind, message, ttl))
      case _ => None
  }

  function AfterAttach(reply: AttachReply): Phase {
    match reply
    case Missing => Routing
    case StoredRejection(kind, message) => Answered(Refusal(kind, message))
    case Found(held) => if Decided(held) then Replaying(held) else Routing
    case _ => Failed
  }

  function AfterRetryAttach(reply: AttachReply, expected: Catalog.Token): Phase {
    match reply
    case Found(held) =>
      if held.token != expected then Failed
      else if held.terminal then Replaying(held)
      else RetryRouting(held)
    case _ => Failed
  }

  /** With its registration still active, a retry republishes the call its provider reported overloaded. */
  function AfterRetryRoute(held: Snapshot): Phase {
    if held.overloadEvent.Some? then Publishing(held, held.overloadEvent) else Failed
  }

  /** A routing failure is checked once more against the record: a terminal result wins. */
  function AfterRetryResolve(reply: AttachReply): Phase {
    match reply
    case Found(held) => if held.terminal then Replaying(held) else Failed
    case _ => Failed
  }

  function AfterEnsure(c: Call, a: Caller, now: nat): Phase
    requires a.phase.Ensuring?
  {
    match EnsureReplyOf(c, a.digest)
    case Created =>
      Publishing(Snapshot(a.phase.token, now + a.phase.timeout, now + a.phase.ttl, false, false, None), None)
    case EnsureConflict => Failed
    case _ => Reattaching
  }

  function AfterReattach(reply: AttachReply): Phase {
    match reply
    case StoredRejection(kind, message) => Answered(Refusal(kind, message))
    case Found(held) => if Decided(held) then Replaying(held) else Publishing(held, None)
    case _ => Failed
  }

  function AfterPublish(reply: PublishReply, held: Snapshot, overload: Option<Id>): Phase {
    match reply
    case Appended(_) => Initializing(held)
    case Already(event) => if event.Some? then Initializing(held) else Failed
    case QueueFull => Failed
    case _ => if overload.None? then Routing else Failed
  }

  function AfterReject(reply: RejectReply): Phase {
    match reply
    case RejectStored(kind, message) => Answered(Refusal(kind, message))
    case PublishedFirst => RejectAttaching
    case RejectConflict => Failed
  }

  function AfterRejectAttach(reply: AttachReply): Phase {
    match reply
    case StoredRejection(kind, message) => Answered(Refusal(kind, message))
    case Found(held) => if Decided(held) then Replaying(held) else Failed
    case _ => Failed
  }

  /** The caller's next phase, given the world its operation runs in. */
  function NextPhase(w: World, a: Caller, choice: Choice): Phase {
    var c := CallOf(w, a.key);
    match choice
    case GiveUp => if a.phase.Answered? then a.phase else Failed
    case Healthy(token, timeout, ttl) => if a.phase.Routing? then Ensuring(token, timeout, ttl) else a.phase
    case Unavailable(kind, message, ttl) =>
      if a.phase.Routing? then Rejecting(kind, message, ttl)
      else if a.phase.RetryRouting? then RetryResolving
      else a.phase
    case Proceed(_) =>
      match a.phase
      case Start => AfterAttach(Attach(c, a.key, a.digest, w.now))
      case RetryStart(expected) => AfterRetryAttach(Attach(c, a.key, a.digest, w.now), expected)
      case RetryRouting(held) => AfterRetryRoute(held)
      case RetryResolving => AfterRetryResolve(Attach(c, a.key, a.digest, w.now))
      case Ensuring(_, _, _) => AfterEnsure(c, a, w.now)
      case Reattaching => AfterReattach(Attach(c, a.key, a.digest, w.now))
      case Publishing(held, overload) =>
        AfterPublish(PublishReplyOf(w, Attempt(a.key, a.digest, held.token, overload)), held, overload)
      case Initializing(held) => if InitReplyOf(c, w.now, a.digest) != InitChanged then Answered(AdmissionOf(held)) else Failed
      case Replaying(held) => if RestoreReplyOf(c, w.now).Restored? || RestoreReplyOf(c, w.now).NothingLost? then Answered(AdmissionOf(held)) else Failed
      case Rejecting(kind, message, _) => AfterReject(RejectReplyOf(c, a.digest, kind, message))
      case RejectAttaching => AfterRejectAttach(Attach(c, a.key, a.digest, w.now))
      case _ => a.phase
  }

  // ---------------------------------------------------------------------
  // The whole system
  // ---------------------------------------------------------------------

  datatype System = System(world: World, callers: map<nat, Caller>)

  datatype Event =
    | Elsewhere(op: Op)
    | Arrive(id: nat, caller: Caller)
    | Move(id: nat, choice: Choice)

  /** The caller carries terms it read from the record. */
  predicate HoldsTerms(p: Phase) {
    p.RetryRouting? || p.Publishing? || p.Initializing? || p.Replaying?
  }

  /**
   * Events that can happen. A record does not expire while a caller still holds
   * terms read from it: terms and record come from the same retention window.
   */
  ghost predicate Happens(s: System, ev: Event) {
    match ev
    case Elsewhere(op) =>
      && CallProtocol.Possible(s.world, op)
      && (op.On? && op.op.ExpireKey? ==>
            forall id :: id in s.callers && s.callers[id].key == op.key ==> !HoldsTerms(s.callers[id].phase))
    case Arrive(id, a) => id !in s.callers && (a.phase.Start? || a.phase.RetryStart?)
    case Move(id, choice) =>
      && id in s.callers
      && (choice.Healthy? ==> 0 < choice.timeout < choice.ttl)
      && (choice.Unavailable? ==> choice.message != "" && 0 < choice.ttl)
  }

  function MoveWorld(w: World, a: Caller, choice: Choice): World {
    match Issues(a, choice)
    case None => w
    case Some(op) => Apply(w, On(a.key, op))
  }

  function Next(s: System, ev: Event): System {
    match ev
    case Elsewhere(op) => s.(world := Apply(s.world, op))
    case Arrive(id, a) => s.(callers := s.callers[id := a])
    case Move(id, choice) =>
      if id !in s.callers then s
      else
        var a := s.callers[id];
        System(MoveWorld(s.world, a, choice),
               s.callers[id := a.(phase := NextPhase(s.world, a, choice))])
  }

  ghost predicate IsSystemRun(s: System, evs: seq<Event>)
    decreases |evs|
  {
    evs == [] || (Happens(s, evs[0]) && IsSystemRun(Next(s, evs[0]), evs[1..]))
  }

  function RunSystem(s: System, evs: seq<Event>): System
    decreases |evs|
  {
    if evs == [] then s else RunSystem(Next(s, evs[0]), evs[1..])
  }

  // ---------------------------------------------------------------------
  // What callers know
  // ---------------------------------------------------------------------

  /** The record is published under exactly these terms. */
  predicate PublishedUnder(c: Call, digest: CallDigest, t: Catalog.Token, deadline: nat, expiresAt: nat) {
    IsAdmitted(c) &&
    var r := c.record.value;
    r.digest == digest && r.published && r.token == t && r.deadline == deadline && r.expiresAt == expiresAt
  }

  predicate RejectedAs(c: Call, digest: CallDigest, kind: RejectionKind, message: string) {
    IsRejected(c) && c.record.value.digest == digest && c.record.value.kind == kind && c.record.value.message == message
  }

  /** The assignment a caller is about to publish is the record's, and the overload report it answers is on record. */
  predicate AssignmentOk(c: Call, digest: CallDigest, held: Snapshot, overload: Option<Id>) {
    && c.record.Some? && c.record.value.digest == digest
    && (IsAdmitted(c) ==> c.record.value.deadline == held.deadline && c.record.value.expiresAt == held.expiresAt)
    && (overload.Some? ==> IsAdmitted(c) && c.record.value.published && overload.value in c.record.value.overloadRequests.Values)
  }

  /** Terms a caller holds are the record's. */
  predicate TermsOk(c: Call, a: Caller) {
    match a.phase
    case RetryRouting(held) => AssignmentOk(c, a.digest, held, held.overloadEvent)
    case Publishing(held, overload) => AssignmentOk(c, a.digest, held, overload)
    case Initializing(held) => PublishedUnder(c, a.digest, held.token, held.deadline, held.expiresAt)
    case Replaying(held) => PublishedUnder(c, a.digest, held.token, held.deadline, held.expiresAt)
    case Ensuring(_, timeout, ttl) => 0 < timeout < ttl
    case Rejecting(_, message, ttl) => message != "" && 0 < ttl
    case _ => true
  }

  /** An answer given is what the record says. */
  predicate AnswerOk(c: Call, a: Caller) {
    match a.phase
    case Answered(Admission(t, deadline, expiresAt)) => PublishedUnder(c, a.digest, t, deadline, expiresAt)
    case Answered(Refusal(kind, message)) => RejectedAs(c, a.digest, kind, message)
    case _ => true
  }

  ghost predicate SystemInv(s: System) {
    && Inv(s.world)
    && forall id :: id in s.callers ==> TermsOk(CallOf(s.world, s.callers[id].key), s.callers[id])
  }

  /** Every answer about `key` agrees with its record. */
  ghost predicate AnswersOk(s: System, key: string) {
    forall id :: id in s.callers && s.callers[id].key == key ==> AnswerOk(CallOf(s.world, key), s.callers[id])
  }

  /** What a decided record never changes within a window, and what an undecided one keeps. */
  lemma TermsSurviveStep(w: World, op: Op, a: Caller)
    requires Inv(w) && CallProtocol.Possible(w, op) && TermsOk(CallOf(w, a.key), a)
    requires op != On(a.key, ExpireKey)
    ensures TermsOk(CallOf(Apply(w, op), a.key), a)
    ensures AnswerOk(CallOf(w, a.key), a) ==> AnswerOk(CallOf(Apply(w, op), a.key), a)
  {
    DecisionSurvivesStep(w, op, a.key);
    OverloadsOnlyGrow(w, op, a.key);
  }

  /** A stored digest, admitted terms, a publication and a rejection each outlive the step. */
  lemma DecisionSurvivesStep(w: World, op: Op, key: string)
    requires Inv(w) && CallProtocol.Possible(w, op) && op != On(key, ExpireKey)
    ensures var c, n := CallOf(w, key), CallOf(Apply(w, op), key);
            && (c.record.Some? ==> n.record.Some? && n.record.value.digest == c.record.value.digest)
            && (IsRejected(c) ==> n.record == c.record)
            && (IsAdmitted(c) && IsAdmitted(n) ==>
                  n.record.value.deadline == c.record.value.deadline && n.record.value.expiresAt == c.record.value.expiresAt)
            && (IsAdmitted(c) && c.record.value.published ==>
                  IsAdmitted(n) && n.record.value.published && n.record.value.token == c.record.value.token)
  {
    MovesOf(w, op, key);
    assert CallOk(key, CallOf(w, key), w.now);
  }

  /** Reported overload events stay on record. */
  lemma OverloadsOnlyGrow(w: World, op: Op, key: string)
    requires Inv(w) && CallProtocol.Possible(w, op) && op != On(key, ExpireKey)
    ensures var c, n := CallOf(w, key), CallOf(Apply(w, op), key);
            IsAdmitted(c) && c.record.value.published ==>
              IsAdmitted(n) && n.record.value.published &&
              forall o :: o in c.record.value.overloadRequests.Values ==> o in n.record.value.overloadRequests.Values
  {
    DecisionSurvivesStep(w, op, key);
    if op.On? && op.key == key && op.op.OverloadOp? {
      var p := op.op.provider;
      if Overloadable(w, p) {
        var before := CallOf(w, key).record.value.overloadRequests;
        var after := before[p.request := NextId(CallOf(w, key).results.last, w.now)];
        forall o | o in before.Values ensures o in after.Values {
          var e :| e in before && before[e] == o;
          assert e in after && after[e] == o;
        }
      }
    } else {
      NotesOnlyByOverload(w, op, key);
    }
  }

  lemma NotesOnlyByOverload(w: World, op: Op, key: string)
    requires Inv(w) && CallProtocol.Possible(w, op) && op != On(key, ExpireKey)
    requires !(op.On? && op.key == key && op.op.OverloadOp?)
    ensures var c, n := CallOf(w, key), CallOf(Apply(w, op), key);
            IsAdmitted(c) && c.record.value.published ==>
              IsAdmitted(n) && n.record.value.overloadRequests == c.record.value.overloadRequests
  {
    if op.On? && op.key == key && IsAdmitted(CallOf(w, key)) {
      var o := op.op;
      match o {
        case ClaimOp(p) => ProviderNotes(w, p, StalePayload(p.callToken, key), "");
        case CompleteOp(p, payload) => ProviderNotes(w, p, payload, "");
        case LiveOp(p, data) => ProviderNotes(w, p, StalePayload(p.callToken, key), data);
        case _ => ScriptNotes(w, key, o);
      }
    }
  }

  lemma ScriptNotes(w: World, key: string, op: CallOp)
    requires IsAdmitted(CallOf(w, key)) && !op.ExpireKey?
    requires !op.ClaimOp? && !op.CompleteOp? && !op.LiveOp? && !op.OverloadOp?
    ensures var c, n := CallOf(w, key), ApplyOn(w, key, op);
            c.record.value.published ==> IsAdmitted(n) && n.record.value.overloadRequests == c.record.value.overloadRequests
  {
  }

  lemma ProviderNotes(w: World, p: Provider, payload: Payload, data: string)
    requires IsAdmitted(CallOf(w, p.key))
    ensures var notes := CallOf(w, p.key).record.value.overloadRequests;
            && IsAdmitted(Claim(w, p)) && Claim(w, p).record.value.overloadRequests == notes
            && IsAdmitted(Complete(w, p, payload)) && Complete(w, p, payload).record.value.overloadRequests == notes
            && IsAdmitted(PublishLive(w, p, data)) && PublishLive(w, p, data).record.value.overloadRequests == notes
  {
  }

  /** The script a caller issues is one the protocol expects. */
  lemma MoveIsPossible(w: World, a: Caller, choice: Choice)
    requires Inv(w) && TermsOk(CallOf(w, a.key), a) && Issues(a, choice).Some?
    ensures CallProtocol.Possible(w, On(a.key, Issues(a, choice).value))
    ensures !Issues(a, choice).value.ExpireKey?
  {
  }

  /** The reply says what the record says. */
  predicate TrueReply(c: Call, a: Caller, reply: AttachReply) {
    match reply
    case StoredRejection(kind, message) => RejectedAs(c, a.digest, kind, message)
    case Found(held) =>
      && IsAdmitted(c) && c.record.value.digest == a.digest && held == SnapshotOf(c.record.value)
      && (Decided(held) ==> PublishedUnder(c, a.digest, held.token, held.deadline, held.expiresAt))
    case _ => true
  }

  /** What a caller learns from attaching is true of the record. */
  lemma AttachTellsTruth(c: Call, a: Caller, now: nat)
    requires CallOk(a.key, c, now)
    ensures TrueReply(c, a, Attach(c, a.key, a.digest, now))
  {
  }

  /** The moving caller: whatever it now holds or answers is what the record says. */
  lemma MoverIsTruthful(w: World, a: Caller, choice: Choice)
    requires Inv(w) && TermsOk(CallOf(w, a.key), a)
    requires choice.Healthy? ==> 0 < choice.timeout < choice.ttl
    requires choice.Unavailable? ==> choice.message != "" && 0 < choice.ttl
    ensures var n, b := MoveWorld(w, a, choice), a.(phase := NextPhase(w, a, choice));
            TermsOk(CallOf(n, a.key), b) && (!a.phase.Answered? ==> AnswerOk(CallOf(n, a.key), b))
  {
    if choice.Proceed? {
      match a.phase {
        case Publishing(_, _) => PublisherIsTruthful(w, a, choice);
        case RetryRouting(_) =>
        case Rejecting(_, _, _) => DeciderIsTruthful(w, a, choice);
        case Ensuring(_, _, _) => DeciderIsTruthful(w, a, choice);
        case Initializing(_) => ReplayerIsTruthful(w, a, choice);
        case Replaying(_) => ReplayerIsTruthful(w, a, choice);
        case _ => ReaderIsTruthful(w, a, choice);
      }
    }
  }

  lemma ReaderIsTruthful(w: World, a: Caller, choice: Choice)
    requires Inv(w) && Issues(a, choice).None? && choice.Proceed? && !HoldsTerms(a.phase)
    ensures var b := a.(phase := NextPhase(w, a, choice));
            TermsOk(CallOf(w, a.key), b) && (!a.phase.Answered? ==> AnswerOk(CallOf(w, a.key), b))
  {
    var c := CallOf(w, a.key);
    assert CallOk(a.key, c, w.now);
    AttachTellsTruth(c, a, w.now);
    ReplyIsTruthful(c, a, Attach(c, a.key, a.digest, w.now));
  }

  /** Every phase a truthful reply leads to holds true terms or a true answer. */
  lemma ReplyIsTruthful(c: Call, a: Caller, reply: AttachReply)
    requires TrueReply(c, a, reply) && (c.record.Some? ==> RecordOk(a.key, c.record.value))
    ensures forall p :: p == AfterAttach(reply) || p == AfterReattach(reply) || p == AfterRejectAttach(reply) ||
                        p == AfterRetryResolve(reply) || (a.phase.RetryStart? && p == AfterRetryAttach(reply, a.phase.expected)) ==>
              TermsOk(c, a.(phase := p)) && AnswerOk(c, a.(phase := p))
  {
  }

  lemma DeciderIsTruthful(w: World, a: Caller, choice: Choice)
    requires Inv(w) && TermsOk(CallOf(w, a.key), a) && (a.phase.Ensuring? || a.phase.Rejecting?) && choice.Proceed?
    ensures var n, b := MoveWorld(w, a, choice), a.(phase := NextPhase(w, a, choice));
            TermsOk(CallOf(n, a.key), b) && AnswerOk(CallOf(n, a.key), b)
  {
    assert CallOk(a.key, CallOf(w, a.key), w.now);
  }

  lemma PublisherIsTruthful(w: World, a: Caller, choice: Choice)
    requires Inv(w) && TermsOk(CallOf(w, a.key), a) && a.phase.Publishing? && choice.Proceed?
    ensures TermsOk(CallOf(MoveWorld(w, a, choice), a.key), a.(phase := NextPhase(w, a, choice)))
  {
    assert CallOk(a.key, CallOf(w, a.key), w.now);
  }

  lemma ReplayerIsTruthful(w: World, a: Caller, choice: Choice)
    requires Inv(w) && TermsOk(CallOf(w, a.key), a) && (a.phase.Replaying? || a.phase.Initializing?) && choice.Proceed?
    ensures AnswerOk(CallOf(MoveWorld(w, a, choice), a.key), a.(phase := NextPhase(w, a, choice)))
  {
    assert CallOk(a.key, CallOf(w, a.key), w.now);
  }

  lemma MoveKeeps(s: System, id: nat, choice: Choice, key: string)
    requires SystemInv(s) && Happens(s, Move(id, choice))
    ensures SystemInv(Next(s, Move(id, choice)))
    ensures AnswersOk(s, key) ==> AnswersOk(Next(s, Move(id, choice)), key)
  {
    var a, n := s.callers[id], Next(s, Move(id, choice));
    MoverIsTruthful(s.world, a, choice);
    if Issues(a, choice).Some? {
      MoveIsPossible(s.world, a, choice);
      StepKeepsInv(s.world, On(a.key, Issues(a, choice).value));
    }
    forall other | other in n.callers
      ensures TermsOk(CallOf(n.world, n.callers[other].key), n.callers[other])
      ensures AnswersOk(s, key) && n.callers[other].key == key ==> AnswerOk(CallOf(n.world, key), n.callers[other])
    {
      var b := s.callers[other];
      if Issues(a, choice).Some? {
        TermsSurviveStep(s.world, On(a.key, Issues(a, choice).value), b);
      }
      if other == id && a.phase.Answered? {
        assert n.callers[other] == b;
      }
    }
  }

  lemma ElsewhereKeeps(s: System, op: Op, key: string)
    requires SystemInv(s) && Happens(s, Elsewhere(op))
    ensures SystemInv(Next(s, Elsewhere(op)))
    ensures op != On(key, ExpireKey) && AnswersOk(s, key) ==> AnswersOk(Next(s, Elsewhere(op)), key)
  {
    var n := Next(s, Elsewhere(op));
    StepKeepsInv(s.world, op);
    forall id | id in n.callers
      ensures TermsOk(CallOf(n.world, n.callers[id].key), n.callers[id])
      ensures op != On(key, ExpireKey) && AnswersOk(s, key) && n.callers[id].key == key ==>
                AnswerOk(CallOf(n.world, key), n.callers[id])
    {
      var a := s.callers[id];
      if op != On(a.key, ExpireKey) {
        TermsSurviveStep(s.world, op, a);
      }
    }
  }

  /** The window of `key` stays open. */
  predicate KeyWindow(evs: seq<Event>, key: string) {
    Elsewhere(On(key, ExpireKey)) !in evs
  }

  lemma {:induction false} EveryAnswerIsTrue(s: System, evs: seq<Event>, key: string)
    requires SystemInv(s) && AnswersOk(s, key) && IsSystemRun(s, evs) && KeyWindow(evs, key)
    ensures SystemInv(RunSystem(s, evs)) && AnswersOk(RunSystem(s, evs), key)
    decreases |evs|
  {
    if evs != [] {
      assert evs[0] in evs;
      match evs[0] {
        case Elsewhere(op) => ElsewhereKeeps(s, op, key);
        case Arrive(_, _) =>
        case Move(id, choice) => MoveKeeps(s, id, choice, key);
      }
      EveryAnswerIsTrue(Next(s, evs[0]), evs[1..], key);
    }
  }

  /**
   * Agreement: in every interleaving of callers on any replicas with everything
   * else, all decided answers about one identity within a retention window are
   * the same, whether admissions with one token, deadline and expiry, or one
   * stored rejection; and no identity is both admitted and refused.
   */
  lemma AllAnswersAgree(w: World, evs: seq<Event>, key: string, i: nat, j: nat)
    requires Inv(w) && IsSystemRun(System(w, map[]), evs) && KeyWindow(evs, key)
    requires var n := RunSystem(System(w, map[]), evs);
             && i in n.callers && n.callers[i].key == key && n.callers[i].phase.Answered?
             && j in n.callers && n.callers[j].key == key && n.callers[j].phase.Answered?
    ensures var n := RunSystem(System(w, map[]), evs);
            && n.callers[i].phase.answer == n.callers[j].phase.answer
            && n.callers[i].digest == n.callers[j].digest
  {
    EveryAnswerIsTrue(System(w, map[]), evs, key);
    var n := RunSystem(System(w, map[]), evs);
    assert AnswerOk(CallOf(n.world, key), n.callers[i]) && AnswerOk(CallOf(n.world, key), n.callers[j]);
  }

  /**
   * Why terms must come from the same window: a publisher that succeeds answers
   * with the terms it holds, so its answer is the record's exactly when those
   * terms are.
   */
  lemma PublisherAnswersWithHeldTerms(w: World, a: Caller, reclaimed: set<Id>)
    requires Inv(w) && a.phase.Publishing?
    requires PublishReplyOf(w, Attempt(a.key, a.digest, a.phase.held.token, a.phase.overload)).Appended?
    ensures var n, b := MoveWorld(w, a, Proceed(reclaimed)), a.(phase := NextPhase(w, a, Proceed(reclaimed)));
            var r := CallOf(w, a.key).record.value;
            && b.phase == Initializing(a.phase.held)
            && (TermsOk(CallOf(n, a.key), b) <==>
                a.phase.held.deadline == r.deadline && a.phase.held.expiresAt == r.expiresAt)
  {
    AppendedTerms(w, Attempt(a.key, a.digest, a.phase.held.token, a.phase.overload), reclaimed);
  }

  /** An appended attempt published the record under the token it holds, leaving its times alone. */
  lemma AppendedTerms(w: World, p: Attempt, reclaimed: set<Id>)
    requires PublishReplyOf(w, p).Appended?
    ensures var c, n := CallOf(w, p.key), CallOf(Apply(w, On(p.key, PublishOp(p.digest, p.token, p.overload, reclaimed))), p.key);
            && IsAdmitted(c) && IsAdmitted(n) && n.record.value.published
            && n.record.value.token == p.token && n.record.value.digest == p.digest
            && n.record.value.deadline == c.record.value.deadline && n.record.value.expiresAt == c.record.value.expiresAt
  {
  }
}
