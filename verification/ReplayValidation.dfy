/**
 * Attaching to an existing decision. The record is re-validated field by field
 * before anything replays it: first inside Redis, on the stored strings
 * (registry/call_decision.go:102-243), then in the service, on the decoded
 * payloads (registry/call_decision.go:586-774).
 */
module ReplayValidation {
  import opened Basics
  import opened StreamIds
  import Catalog
  import opened Records
  import opened CallProtocol
  import opened CallInvariants
  import opened CallTheorems

  /** The largest integer the validator's numbers hold exactly. */
  const MAX_EXACT: nat := 9007199254740991

  /** `canonical_uint` on a stored number. */
  predicate CanonicalUint(n: nat) {
    n <= MAX_EXACT
  }

  predicate StoredId(id: Option<Id>) {
    id.Some? && IsStreamId(FormatId(id.value))
  }

  predicate DeadlinesAccepted(r: Record)
    requires r.Admitted?
  {
    CanonicalUint(r.deadline) && CanonicalUint(r.expiresAt) && r.expiresAt > r.deadline
  }

  predicate PublicationAccepted(r: Record)
    requires r.Admitted?
  {
    && (!r.published ==> r.publication.None?)
    && (r.published ==> StoredId(r.publication) && r.publication.value in r.claims)
    && (!r.published ==> r.overload.None? && r.overloadEvent.None? && r.dispatchToken.None?)
  }

  predicate TerminalAccepted(r: Record)
    requires r.Admitted?
  {
    && (!r.terminal ==> r.terminalEvent.None? && r.terminalDigest.None? && r.terminalPayload.None? && r.terminalCause.None?)
    && (r.terminal ==>
          r.published && StoredId(r.terminalEvent) && r.terminalDigest.Some? && r.terminalPayload.Some? && r.terminalCause.Some?)
  }

  predicate CountersAccepted(r: Record)
    requires r.Admitted?
  {
    CanonicalUint(r.deltas) && r.deltas <= MAX_DELTAS && CanonicalUint(r.overloadDelay) && r.overloadDelay <= MAX_OVERLOAD_DELAY_MS
  }

  predicate OverloadAccepted(r: Record)
    requires r.Admitted?
  {
    && (r.overloadEvent.None? ==> r.overloadDelay == 0)
    && (r.overloadEvent.Some? ==> r.overloadDelay != 0 && StoredId(r.overloadEvent))
    && (r.overload.Some? ==>
          && StoredId(r.overload) && StoredId(r.overloadEvent)
          && TextAtOrBefore(FormatId(r.overload.value), FormatId(r.overloadEvent.value)))
  }

  predicate DispatchAccepted(r: Record)
    requires r.Admitted?
  {
    if r.dispatchToken.None? then
      r.dispatchLease.None? && r.dispatchRequest.None? && r.dispatchExpires.None?
    else
      && r.dispatchToken == Some(r.token) && r.dispatchLease.Some? && r.dispatchRequest.Some?
      && r.dispatchRequest == r.publication
      && r.dispatchExpires.Some? && CanonicalUint(r.dispatchExpires.value) && r.dispatchExpires.value != 0
  }

  /** `admitted_state_error` reports nothing. */
  predicate StateAccepted(c: Call, key: string, field: string, now: nat)
    requires IsAdmitted(c)
  {
    var r := c.record.value;
    && r.toolUse == key && r.field == field
    && DeadlinesAccepted(r) && Retained(c, now)
    && PublicationAccepted(r) && TerminalAccepted(r) && CountersAccepted(r)
    && OverloadAccepted(r) && DispatchAccepted(r)
  }

  /** The shared envelope check: well formed and addressed to this call. */
  predicate Addressed(p: Payload, token: Catalog.Token, key: string) {
    !p.body.Malformed? && p.token == token && p.toolUse == key
  }

  /** `validateTerminalPayload`: the failure contract and checksum family each cause requires. */
  predicate TerminalPayloadAccepted(r: Record, key: string)
    requires r.Admitted?
  {
    if !r.terminal then
      r.terminalPayload.None? && r.terminalDigest.None? && r.terminalCause.None?
    else
      && r.terminalPayload.Some? && r.terminalCause.Some?
      && var p := r.terminalPayload.value;
      && Addressed(p, r.token, key)
      && match r.terminalCause.value
         case ProviderResult => !p.body.RetryAfter? && r.terminalDigest == Some(Sha256(p))
         case StaleAdmission => p.body == StaleRegistration && r.terminalDigest == Some(Sha256(p))
         case _ => p.body == OutcomeUnknown && r.terminalDigest == Some(Sha1(p))
  }

  /** `parseResult` succeeds. */
  predicate ResultAccepted(r: Record, key: string)
    requires r.Admitted?
  {
    && 0 < r.deadline < r.expiresAt
    && (r.terminal <==> r.terminalEvent.Some?)
    && r.overloadDelay <= MAX_OVERLOAD_DELAY_MS && (r.overloadEvent.None? <==> r.overloadDelay == 0)
    && Addressed(r.outcomeUnknown, r.token, key) && r.outcomeUnknown.body == OutcomeUnknown
    && TerminalPayloadAccepted(r, key)
  }

  predicate Accepts(c: Call, key: string, field: string, now: nat)
    requires IsAdmitted(c)
  {
    StateAccepted(c, key, field, now) && ResultAccepted(c.record.value, key)
  }

  /** What a caller keeps of an accepted record. */
  datatype Snapshot = Snapshot(
    token: Catalog.Token, deadline: nat, expiresAt: nat,
    published: bool, terminal: bool, overloadEvent: Option<Id>)

  function SnapshotOf(r: Record): Snapshot
    requires r.Admitted?
  {
    Snapshot(r.token, r.deadline, r.expiresAt, r.published, r.terminal, r.overloadEvent)
  }

  datatype AttachReply =
    | Missing
    | DigestConflict
    | StoredRejection(kind: RejectionKind, message: string)
    | Invalid
    | Found(snapshot: Snapshot)

  /** Attach (registry/call_decision.go:244-290, 412-471). */
  function Attach(c: Call, key: string, digest: CallDigest, now: nat): AttachReply {
    if c.record.None? then Missing
    else if c.record.value.digest != digest then DigestConflict
    else if c.record.value.Rejected? then
      if Retained(c, now) && c.record.value.message != ""
      then StoredRejection(c.record.value.kind, c.record.value.message)
      else Invalid
    else if Accepts(c, key, digest.toolset, now) then Found(SnapshotOf(c.record.value))
    else Invalid
  }

  // ---------------------------------------------------------------------
  // Which reachable records replay
  // ---------------------------------------------------------------------

  predicate Fits64(id: Option<Id>) {
    id.Some? ==> id.value.ms < TWO_64 && id.value.num < TWO_64
  }

  /** Times are exact in the validator's numbers and IDs are 64-bit, as Redis guarantees. */
  predicate InRange(r: Record)
    requires r.Admitted?
  {
    && CanonicalUint(r.expiresAt)
    && (r.dispatchExpires.Some? ==> CanonicalUint(r.dispatchExpires.value))
    && Fits64(r.publication) && Fits64(r.terminalEvent) && Fits64(r.overloadEvent) && Fits64(r.overload)
  }

  predicate DispatchedAsPublished(r: Record)
    requires r.Admitted?
  {
    r.dispatchToken.Some? ==> r.dispatchRequest == r.publication
  }

  lemma StoredIdIff(id: Option<Id>)
    requires id.Some? && id.value != ZERO && Fits64(id)
    ensures StoredId(id)
  {
    FormatRoundTrips(id.value);
  }

  lemma OverloadPasses(r: Record)
    requires r.Admitted? && OverloadOk(r) && InRange(r)
    ensures OverloadAccepted(r)
  {
    if r.overloadEvent.Some? {
      StoredIdIff(r.overloadEvent);
    }
    if r.overload.Some? {
      StoredIdIff(r.overload);
      FormatRoundTrips(r.overload.value);
      FormatRoundTrips(r.overloadEvent.value);
      TextOrderIsIdOrder(FormatId(r.overload.value), FormatId(r.overloadEvent.value));
    }
  }

  /**
   * Validation accepts every retained record the protocol can reach, except
   * exactly those whose execution was claimed under another request than the
   * last one published.
   */
  lemma ReplayAcceptsExactly(w: World, key: string)
    requires Inv(w) && IsAdmitted(CallOf(w, key))
    requires Retained(CallOf(w, key), w.now) && InRange(CallOf(w, key).record.value)
    ensures var c := CallOf(w, key);
            Accepts(c, key, c.record.value.digest.toolset, w.now) <==> DispatchedAsPublished(c.record.value)
  {
    var c := CallOf(w, key);
    assert CallOk(key, c, w.now);
    OverloadPasses(c.record.value);
    EventsPass(key, c.record.value);
    PayloadsPass(key, c.record.value);
  }

  lemma EventsPass(key: string, r: Record)
    requires r.Admitted? && RecordOk(key, r) && InRange(r)
    ensures PublicationAccepted(r) && TerminalAccepted(r)
  {
    if r.published {
      StoredIdIff(r.publication);
    }
    if r.terminal {
      StoredIdIff(r.terminalEvent);
    }
  }

  lemma PayloadsPass(key: string, r: Record)
    requires r.Admitted? && RecordOk(key, r)
    ensures ResultAccepted(r, key)
  {
  }

  /** Only one request was ever published for the call. */
  ghost predicate SingleRequest(c: Call) {
    IsAdmitted(c) ==>
      c.record.value.claims == (if c.record.value.publication.Some? then {c.record.value.publication.value} else {})
  }

  /** The run never answers an overload report of this call with a republication. */
  predicate NoRepublication(ops: seq<Op>, key: string) {
    forall op :: op in ops && op.On? && op.key == key && op.op.PublishOp? ==> op.op.overload.None?
  }

  lemma SingleRequestKept(w: World, op: Op, key: string)
    requires Inv(w) && Possible(w, op) && op != On(key, ExpireKey) && SingleRequest(CallOf(w, key))
    requires op.On? && op.key == key && op.op.PublishOp? ==> op.op.overload.None?
    ensures SingleRequest(CallOf(Apply(w, op), key))
  {
    MovesOf(w, op, key);
    assert CallOk(key, CallOf(w, key), w.now);
  }

  lemma {:induction false} SingleRequestRun(w: World, ops: seq<Op>, key: string)
    requires Inv(w) && IsRun(w, ops) && Window(ops, key) && NoRepublication(ops, key) && SingleRequest(CallOf(w, key))
    ensures SingleRequest(CallOf(Run(w, ops), key))
    decreases |ops|
  {
    if ops != [] {
      FirstStep(w, ops, key);
      assert ops[0] in ops;
      SingleRequestKept(w, ops[0], key);
      SingleRequestRun(Apply(w, ops[0]), ops[1..], key);
    }
  }

  /**
   * On every run without overload republication, each admitted record replays:
   * attaching with its digest finds it and never reports an invalid state.
   */
  lemma ReplayAcceptsEveryRun(w: World, ops: seq<Op>, key: string)
    requires Inv(w) && IsRun(w, ops) && Window(ops, key) && NoRepublication(ops, key)
    requires CallOf(w, key).record.None?
    requires var c := CallOf(Run(w, ops), key);
             IsAdmitted(c) && Retained(c, Run(w, ops).now) && InRange(c.record.value)
    ensures var c := CallOf(Run(w, ops), key);
            Attach(c, key, c.record.value.digest, Run(w, ops).now) == Found(SnapshotOf(c.record.value))
  {
    EveryRunKeepsInv(w, ops);
    SingleRequestRun(w, ops, key);
    assert CallOk(key, CallOf(Run(w, ops), key), Run(w, ops).now);
    ReplayAcceptsExactly(Run(w, ops), key);
  }
}
