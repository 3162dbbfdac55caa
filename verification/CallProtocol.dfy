/**
 * The cross-replica call protocol. Every transition is one atomic Redis script
 * or one catalog swap. A script about a call reads the clock, the catalog and
 * that call's own keys, and writes only those keys; so each script is a
 * function from the world to the new state of one `Call`
 * (registry/call_admission.go, call_decision.go, bounded_publish.go).
 * CallStore runs the scripts statement by statement on the Redis keys
 * themselves and is proved to agree with these functions.
 */
module CallProtocol {
  import opened Basics
  import opened StreamIds
  import Catalog
  import RequestStream
  import opened Records

  /**
   * Everything Redis holds about one call: its record, its result stream, its
   * score in the deadline index, the lease index its membership names, and the
   * lease indexes that list it.
   */
  datatype Call = Call(
    record: Option<Record>,
    results: Results,
    due: Option<nat>,
    member: Option<Owner>,
    listed: set<Owner>)

  const NO_CALL := Call(None, NO_RESULTS, None, None, {})

  datatype World = World(
    now: nat,
    catalog: map<string, Catalog.Entry>,
    requests: map<string, RequestStream.Stream>,
    calls: map<string, Call>)

  const INITIAL := World(0, map[], map[], map[])

  function CallOf(w: World, key: string): Call {
    if key in w.calls then w.calls[key] else NO_CALL
  }

  /** The arguments every provider-side script carries. */
  datatype Provider = Provider(
    toolset: string, key: string, callToken: Catalog.Token,
    providerToken: Catalog.Token, lease: string, request: Id)

  // ---------------------------------------------------------------------
  // Shared guards and effects
  // ---------------------------------------------------------------------

  predicate LeaseLive(w: World, toolset: string, token: Catalog.Token, lease: string) {
    && toolset in w.catalog
    && w.catalog[toolset].token == token
    && lease in w.catalog[toolset].leases
    && Catalog.Live(w.catalog[toolset].leases[lease], w.now)
  }

  predicate HasLease(w: World, p: Provider) {
    LeaseLive(w, p.toolset, p.providerToken, p.lease)
  }

  predicate IsAdmitted(c: Call) {
    c.record.Some? && c.record.value.Admitted?
  }

  predicate IsRejected(c: Call) {
    c.record.Some? && c.record.value.Rejected?
  }

  /** The stored identity and token are the ones the provider names. */
  predicate Attached(c: Call, p: Provider) {
    IsAdmitted(c) && c.record.value.toolUse == p.key && c.record.value.token == p.callToken
  }

  predicate Claimable(c: Call, p: Provider) {
    Attached(c, p) && p.request in c.record.value.claims
  }

  predicate OwnsDispatch(r: Record, p: Provider)
    requires r.Admitted?
  {
    && r.dispatchToken == Some(p.providerToken)
    && r.dispatchLease == Some(p.lease)
    && r.dispatchRequest == Some(p.request)
  }

  predicate Retained(c: Call, now: nat) {
    c.record.Some? && now < c.record.value.expiresAt
  }

  predicate BeforeDeadline(c: Call, now: nat) {
    IsAdmitted(c) && now < c.record.value.deadline
  }

  /** XADD with exact MAXLEN to the call's result stream. */
  function AppendResult(c: Call, now: nat, content: Content): Call {
    c.(results := Push(c.results, now, content))
  }

  function SetRecord(c: Call, r: Record): Call {
    c.(record := Some(r))
  }

  /** Appends a terminal result and commits it in the record in the same operation. */
  function Commit(c: Call, now: nat, cause: Cause, payload: Payload, digest: Digest): Call
    requires IsAdmitted(c)
  {
    SetRecord(AppendResult(c, now, Message(payload)),
              c.record.value.(terminal := true, terminalEvent := Some(NextId(c.results.last, now)),
                              terminalDigest := Some(digest), terminalPayload := Some(payload),
                              terminalCause := Some(cause)))
  }

  /** Commits the retained outcome_unknown result, checksummed the way Redis does. */
  function CommitUnknown(c: Call, now: nat, cause: Cause): Call
    requires IsAdmitted(c)
  {
    Commit(c, now, cause, c.record.value.outcomeUnknown, Sha1(c.record.value.outcomeUnknown))
  }

  function CommitStale(c: Call, now: nat, key: string): Call
    requires IsAdmitted(c)
  {
    var payload := StalePayload(c.record.value.token, key);
    Commit(c, now, StaleAdmission, payload, Sha256(payload))
  }

  /** Removes the call from the deadline index and the membership hash. */
  function Unlist(c: Call): Call {
    c.(due := None, member := None)
  }

  /** Removes the call from the deadline index, one lease index and the membership hash. */
  function Unindex(c: Call, owner: Owner): Call {
    c.(due := None, member := None, listed := c.listed - {owner})
  }

  // ---------------------------------------------------------------------
  // Decision scripts
  // ---------------------------------------------------------------------

  datatype EnsureReply = Created | Existing | EnsureConflict | EnsureRejected

  function EnsureReplyOf(c: Call, digest: CallDigest): EnsureReply {
    if c.record.None? then Created
    else if c.record.value.digest != digest then EnsureConflict
    else if c.record.value.Rejected? then EnsureRejected
    else Existing
  }

  /** Admitted, but Redis still proves that no provider can have received it. */
  predicate Undecided(c: Call) {
    IsAdmitted(c) && !c.record.value.published && !c.record.value.terminal
  }

  /** Creates the decision, or moves an unpublished one to the current provider. */
  function Ensure(c: Call, now: nat, key: string, digest: CallDigest, token: Catalog.Token, timeout: nat, ttl: nat): Call {
    if c.record.None? then SetRecord(c, NewRecord(key, digest, token, now + timeout, now + ttl))
    else if c.record.value.digest == digest && Undecided(c)
    then SetRecord(c, c.record.value.(token := token, outcomeUnknown := UnknownPayload(token, key)))
    else c
  }

  datatype RejectReply = RejectStored(kind: RejectionKind, message: string) | PublishedFirst | RejectConflict

  function RejectReplyOf(c: Call, digest: CallDigest, kind: RejectionKind, message: string): RejectReply {
    if c.record.None? then RejectStored(kind, message)
    else if c.record.value.digest != digest then RejectConflict
    else if c.record.value.Rejected? then RejectStored(c.record.value.kind, c.record.value.message)
    else if Undecided(c) then RejectStored(kind, message)
    else PublishedFirst
  }

  /** Stores the negative decision unless one is stored already or publication won. */
  function Reject(c: Call, now: nat, digest: CallDigest, kind: RejectionKind, message: string, ttl: nat): Call {
    if c.record.None? || (c.record.value.digest == digest && Undecided(c))
    then SetRecord(c, Rejected(digest, kind, message, now + ttl))
    else c
  }

  // ---------------------------------------------------------------------
  // Publication
  // ---------------------------------------------------------------------

  datatype PublishReply = Appended(id: Id) | Already(event: Option<Id>) | Changed | Unroutable | QueueFull

  function StreamOf(w: World, toolset: string): RequestStream.Stream {
    if toolset in w.requests then w.requests[toolset] else RequestStream.EMPTY
  }

  predicate RoutableNow(w: World, toolset: string, token: Catalog.Token) {
    && toolset in w.catalog
    && w.catalog[toolset].state == Catalog.Active
    && w.catalog[toolset].token == token
    && Catalog.Routable(w.catalog[toolset], w.now)
  }

  /** The record still carries the assignment the publisher holds. */
  predicate Assigned(c: Call, digest: CallDigest, token: Catalog.Token) {
    IsAdmitted(c) && c.record.value.digest == digest && c.record.value.token == token
  }

  predicate AttemptMade(r: Record, overload: Option<Id>)
    requires r.Admitted?
  {
    if overload.None? then r.published else r.overload == overload
  }

  /** One publication attempt: which assignment it holds and which overload report it answers. */
  datatype Attempt = Attempt(key: string, digest: CallDigest, token: Catalog.Token, overload: Option<Id>)

  function PublishReplyOf(w: World, a: Attempt): PublishReply {
    var c := CallOf(w, a.key);
    if !Assigned(c, a.digest, a.token) then Changed
    else
      var r := c.record.value;
      if r.terminal then Already(r.terminalEvent)
      else if AttemptMade(r, a.overload) then Already(r.publication)
      else if r.deadline <= w.now then Changed
      else if !RoutableNow(w, a.digest.toolset, a.token) then Unroutable
      else if RequestStream.Full(StreamOf(w, a.digest.toolset), MAX_QUEUED_CALLS) then QueueFull
      else Appended(NextId(StreamOf(w, a.digest.toolset).last, w.now))
  }

  /** The record after the attempt; the request is appended in the same operation. */
  function Publish(w: World, a: Attempt): Call {
    var c := CallOf(w, a.key);
    match PublishReplyOf(w, a)
    case Appended(id) =>
      SetRecord(c, c.record.value.(published := true, overload := a.overload, publication := Some(id),
                                   claims := c.record.value.claims + {id}))
    case _ => c
  }

  // ---------------------------------------------------------------------
  // Provider scripts
  // ---------------------------------------------------------------------

  datatype ClaimReply =
    | Execute | AlreadyTerminal | AlreadyClaimed | Expired
    | LeaseChanged | AdmissionChanged | ClaimChanged

  /** A live, undispatched call this provider may decide. */
  predicate Dispatchable(w: World, p: Provider) {
    var c := CallOf(w, p.key);
    && HasLease(w, p) && Claimable(c, p) && BeforeDeadline(c, w.now)
    && !c.record.value.terminal && c.record.value.dispatchToken.None?
  }

  /** Execution is granted: the call belongs to the generation the provider serves. */
  predicate GrantsExecution(w: World, p: Provider) {
    Dispatchable(w, p) && p.callToken == p.providerToken
  }

  predicate FindsStale(w: World, p: Provider) {
    Dispatchable(w, p) && p.callToken != p.providerToken
  }

  function ClaimReplyOf(w: World, p: Provider): ClaimReply {
    var c := CallOf(w, p.key);
    if !HasLease(w, p) then LeaseChanged
    else if c.record.None? then Expired
    else if !Attached(c, p) then AdmissionChanged
    else if !Claimable(c, p) then ClaimChanged
    else if c.record.value.terminal then AlreadyTerminal
    else if !BeforeDeadline(c, w.now) then Expired
    else if c.record.value.dispatchToken.Some? then AlreadyClaimed
    else if p.callToken != p.providerToken then AlreadyTerminal
    else Execute
  }

  /** Records the owner and lists the call in the deadline, lease and membership indexes. */
  function Dispatch(w: World, p: Provider): Call
    requires GrantsExecution(w, p)
  {
    var c := CallOf(w, p.key);
    var expiry := w.catalog[p.toolset].leases[p.lease].expiresAt;
    var owner := Owner(p.providerToken, p.lease);
    c.(record := Some(c.record.value.(dispatchToken := Some(p.providerToken), dispatchLease := Some(p.lease),
                                      dispatchRequest := Some(p.request), dispatchExpires := Some(expiry))),
       due := Some(Min(c.record.value.deadline, expiry)),
       member := Some(owner),
       listed := c.listed + {owner})
  }

  function Claim(w: World, p: Provider): Call {
    if GrantsExecution(w, p) then Dispatch(w, p)
    else if FindsStale(w, p) then Unlist(CommitStale(CallOf(w, p.key), w.now, p.key))
    else CallOf(w, p.key)
  }

  datatype CompleteReply =
    | Committed | Replayed | DeadlineWon
    | CompleteLeaseChanged | CompleteAdmissionChanged | CompleteClaimChanged
    | DispatchChanged | TerminalConflict

  /** The provider holds the dispatch of a retained call. */
  predicate Authorized(w: World, p: Provider) {
    var c := CallOf(w, p.key);
    HasLease(w, p) && Claimable(c, p) && Retained(c, w.now) && OwnsDispatch(c.record.value, p)
  }

  function CompleteReplyOf(w: World, p: Provider, payload: Payload): CompleteReply {
    var c := CallOf(w, p.key);
    if !Attached(c, p) then CompleteAdmissionChanged
    else if !HasLease(w, p) then CompleteLeaseChanged
    else if !Claimable(c, p) then CompleteClaimChanged
    else if !Retained(c, w.now) then CompleteAdmissionChanged
    else if !OwnsDispatch(c.record.value, p) then DispatchChanged
    else if c.record.value.terminal then
      if c.record.value.terminalCause == Some(ExecutionDeadline) then DeadlineWon
      else if c.record.value.terminalDigest != Some(Sha256(payload)) then TerminalConflict
      else Replayed
    else if !BeforeDeadline(c, w.now) then DeadlineWon
    else Committed
  }

  function Complete(w: World, p: Provider, payload: Payload): Call {
    var c := CallOf(w, p.key);
    if Authorized(w, p) && !c.record.value.terminal then
      Unindex(if BeforeDeadline(c, w.now)
              then Commit(c, w.now, ProviderResult, payload, Sha256(payload))
              else CommitUnknown(c, w.now, ExecutionDeadline),
              Owner(p.providerToken, p.lease))
    else c
  }

  predicate AcceptsDelta(w: World, p: Provider) {
    var c := CallOf(w, p.key);
    && Authorized(w, p) && BeforeDeadline(c, w.now)
    && !c.record.value.terminal && c.record.value.deltas < MAX_DELTAS
  }

  datatype LiveReply =
    | Delivered | Dropped
    | LiveAdmissionChanged | LiveLeaseChanged | LiveClaimChanged | LiveDispatchChanged

  function LiveReplyOf(w: World, p: Provider): LiveReply {
    var c := CallOf(w, p.key);
    if !Attached(c, p) then LiveAdmissionChanged
    else if !HasLease(w, p) then LiveLeaseChanged
    else if !Claimable(c, p) then LiveClaimChanged
    else if !Retained(c, w.now) then LiveAdmissionChanged
    else if c.record.value.terminal || !BeforeDeadline(c, w.now) then Dropped
    else if !OwnsDispatch(c.record.value, p) then LiveDispatchChanged
    else if c.record.value.deltas < MAX_DELTAS then Delivered
    else Dropped
  }

  function PublishLive(w: World, p: Provider, data: string): Call {
    var c := CallOf(w, p.key);
    if AcceptsDelta(w, p)
    then SetRecord(AppendResult(c, w.now, Delta(data)), c.record.value.(deltas := c.record.value.deltas + 1))
    else c
  }

  /** Retry control is still possible: nothing dispatched, nothing reported for this request. */
  predicate Overloadable(w: World, p: Provider) {
    var c := CallOf(w, p.key);
    Dispatchable(w, p) && Retained(c, w.now) && p.request !in c.record.value.overloadRequests
  }

  datatype OverloadReply =
    | OverloadReported | OverloadIgnored
    | OverloadLeaseChanged | OverloadAdmissionChanged | OverloadClaimChanged

  function OverloadReplyOf(w: World, p: Provider): OverloadReply {
    var c := CallOf(w, p.key);
    if !HasLease(w, p) then OverloadLeaseChanged
    else if c.record.None? then OverloadIgnored
    else if !Attached(c, p) then OverloadAdmissionChanged
    else if !Claimable(c, p) then OverloadClaimChanged
    else if Overloadable(w, p) then OverloadReported
    else OverloadIgnored
  }

  function NoteOverload(r: Record, request: Id, id: Id): Record
    requires r.Admitted?
  {
    r.(overloadRequests := r.overloadRequests[request := id])
  }

  function ReportOverload(w: World, p: Provider): Call {
    var c := CallOf(w, p.key);
    if !Overloadable(w, p) then c
    else
      var id := NextId(c.results.last, w.now);
      if p.callToken != p.providerToken then
        var n := CommitStale(c, w.now, p.key);
        Unlist(SetRecord(n, NoteOverload(n.record.value, p.request, id)))
      else
        var r := NoteOverload(c.record.value, p.request, id);
        SetRecord(AppendResult(c, w.now, Message(RetryPayload(r.token, p.key))),
                  r.(overloadEvent := Some(id), overloadDelay := OVERLOAD_DELAY_MS))
  }

  // ---------------------------------------------------------------------
  // Result stream scripts
  // ---------------------------------------------------------------------

  predicate Initializes(c: Call, now: nat, digest: CallDigest) {
    && IsAdmitted(c) && Retained(c, now) && c.record.value.digest == digest
    && !c.record.value.terminal && c.results.events == []
  }

  datatype InitReply = Started | AlreadyStarted | InitChanged

  function InitReplyOf(c: Call, now: nat, digest: CallDigest): InitReply {
    if c.record.None? || c.record.value.digest != digest then InitChanged
    else if (IsAdmitted(c) && c.record.value.terminal) || c.results.events != [] then AlreadyStarted
    else if IsAdmitted(c) && Retained(c, now) then Started
    else InitChanged
  }

  function InitResults(c: Call, now: nat, digest: CallDigest): Call {
    if Initializes(c, now, digest) then AppendResult(c, now, InitMark) else c
  }

  /** A retained terminal whose recorded event is no longer in the stream. */
  predicate LostTerminal(c: Call, now: nat) {
    && IsAdmitted(c) && Retained(c, now) && c.record.value.terminal
    && c.record.value.terminalPayload.Some?
    && !(c.record.value.terminalEvent.Some? && HasEvent(c.results, c.record.value.terminalEvent.value))
  }

  datatype RestoreReply = Restored | NothingLost | PayloadMissing | RestoreChanged

  function RestoreReplyOf(c: Call, now: nat): RestoreReply {
    if !IsAdmitted(c) || !c.record.value.terminal then NothingLost
    else if c.record.value.terminalPayload.None? then PayloadMissing
    else if c.record.value.terminalEvent.Some? && HasEvent(c.results, c.record.value.terminalEvent.value) then NothingLost
    else if Retained(c, now) then Restored
    else RestoreChanged
  }

  function Restore(c: Call, now: nat): Call {
    if LostTerminal(c, now)
    then SetRecord(AppendResult(c, now, Message(c.record.value.terminalPayload.value)),
                   c.record.value.(terminalEvent := Some(NextId(c.results.last, now))))
    else c
  }

  // ---------------------------------------------------------------------
  // Settlement scripts
  // ---------------------------------------------------------------------

  predicate Dispatched(c: Call) {
    IsAdmitted(c) && c.record.value.dispatchToken.Some? && c.record.value.dispatchLease.Some?
  }

  /** A claimed call without a result. */
  predicate InFlight(c: Call) {
    Dispatched(c) && !c.record.value.terminal
  }

  function OwnerOf(c: Call): Owner
    requires Dispatched(c)
  {
    Owner(c.record.value.dispatchToken.value, c.record.value.dispatchLease.value)
  }

  /** Before its deadline, with the exact lease that claimed it still in the catalog. */
  predicate StillWorking(w: World, c: Call) {
    && InFlight(c) && BeforeDeadline(c, w.now)
    && LeaseLive(w, c.record.value.field, OwnerOf(c).token, OwnerOf(c).lease)
  }

  /** The sweep commits a result for this call. */
  predicate Settles(w: World, c: Call) {
    InFlight(c) && !StillWorking(w, c) && Retained(c, w.now)
  }

  /** Settles one indexed call; `index` is the lease index its membership named. */
  function Settle(w: World, c: Call, index: Owner, cause: Cause): Call {
    if StillWorking(w, c) then
      var lease := w.catalog[c.record.value.field].leases[OwnerOf(c).lease];
      c.(due := Some(Min(c.record.value.deadline, lease.expiresAt)))
    else if Settles(w, c) then
      Unindex(CommitUnknown(c, w.now, if BeforeDeadline(c, w.now) then LeaseLost else cause), index)
    else Unindex(c, index)
  }

  /** Drops index entries of a call whose record is gone. */
  function Cleanup(c: Call, fallback: Option<Owner>): Call {
    if c.member.Some? then Unindex(c, c.member.value)
    else if fallback.Some? then Unindex(c, fallback.value)
    else Unlist(c)
  }

  // ---------------------------------------------------------------------
  // Runs
  // ---------------------------------------------------------------------

  /** Operations on one call. */
  datatype CallOp =
    | ExpireKey
    | LoseResults(lost: set<Id>)
    | EnsureOp(digest: CallDigest, token: Catalog.Token, timeout: nat, ttl: nat)
    | RejectOp(digest: CallDigest, kind: RejectionKind, message: string, ttl: nat)
    | PublishOp(digest: CallDigest, token: Catalog.Token, overload: Option<Id>, reclaimed: set<Id>)
    | InitOp(digest: CallDigest)
    | RestoreOp
    | ClaimOp(provider: Provider)
    | CompleteOp(provider: Provider, payload: Payload)
    | LiveOp(provider: Provider, data: string)
    | OverloadOp(provider: Provider)
    | SettleOp(index: Owner, cause: Cause)
    | CleanupOp(fallback: Option<Owner>)

  datatype Op =
    | Tick(elapsed: nat)
    | CatalogSwap(name: string, action: Catalog.Action, at: nat)
    | StreamOp(name: string, stream: RequestStream.Op)
    | On(key: string, op: CallOp)

  /**
   * What the callers of the scripts guarantee. Results reach Complete only after
   * the service checked them (registry/service.go:524-540); a republication
   * names an overload event the record reported; the sweep passes one of its
   * two causes; a clock reading precedes the swap it led to.
   */
  predicate Possible(w: World, op: Op) {
    match op
    case Tick(_) => true
    case CatalogSwap(name, action, at) => at <= w.now && Catalog.Legal(name, action)
    case StreamOp(_, o) => !o.Call? && (o.Ping? ==> o.now == w.now)
    case On(key, o) => PossibleOn(CallOf(w, key), key, o)
  }

  predicate PossibleOn(c: Call, key: string, op: CallOp) {
    match op
    case EnsureOp(_, _, timeout, ttl) => 0 < timeout < ttl
    case RejectOp(_, _, message, ttl) => message != "" && 0 < ttl
    case PublishOp(digest, _, overload, _) =>
      overload.Some? && IsAdmitted(c) && c.record.value.digest == digest ==>
        overload.value in c.record.value.overloadRequests.Values
    case ClaimOp(p) => p.key == key
    case CompleteOp(p, payload) =>
      p.key == key && payload.token == p.callToken && payload.toolUse == key && IsTerminalBody(payload.body)
    case LiveOp(p, _) => p.key == key
    case OverloadOp(p) => p.key == key
    case SettleOp(_, cause) => cause == ExecutionDeadline || cause == LeaseReleased
    case _ => true
  }

  /** The state of call `key` after one operation on it. */
  function ApplyOn(w: World, key: string, op: CallOp): Call {
    var c := CallOf(w, key);
    match op
    case ExpireKey =>
      if c.record.Some? && !Retained(c, w.now)
      then c.(record := None, results := c.results.(events := []))
      else c
    case LoseResults(lost) => c.(results := Lose(c.results, lost))
    case EnsureOp(digest, token, timeout, ttl) => Ensure(c, w.now, key, digest, token, timeout, ttl)
    case RejectOp(digest, kind, message, ttl) => Reject(c, w.now, digest, kind, message, ttl)
    case PublishOp(digest, token, overload, _) => Publish(w, Attempt(key, digest, token, overload))
    case InitOp(digest) => InitResults(c, w.now, digest)
    case RestoreOp => Restore(c, w.now)
    case ClaimOp(p) => Claim(w, p)
    case CompleteOp(p, payload) => Complete(w, p, payload)
    case LiveOp(p, data) => PublishLive(w, p, data)
    case OverloadOp(p) => ReportOverload(w, p)
    case SettleOp(index, cause) => Settle(w, c, index, cause)
    case CleanupOp(fallback) => Cleanup(c, fallback)
  }

  predicate Publishes(w: World, key: string, op: CallOp) {
    op.PublishOp? && PublishReplyOf(w, Attempt(key, op.digest, op.token, op.overload)).Appended?
  }

  function Requests(w: World, key: string, op: CallOp): map<string, RequestStream.Stream> {
    if Publishes(w, key, op)
    then w.requests[op.digest.toolset :=
           RequestStream.Append(StreamOf(w, op.digest.toolset), true, w.now, op.reclaimed)]
    else w.requests
  }

  function Apply(w: World, op: Op): World {
    match op
    case Tick(elapsed) => w.(now := w.now + elapsed)
    case CatalogSwap(name, action, at) =>
      var before := if name in w.catalog then Some(w.catalog[name]) else None;
      (match Catalog.Step(before, action, at)
       case None => w
       case Some(e) => w.(catalog := w.catalog[name := e]))
    case StreamOp(name, o) =>
      w.(requests := w.requests[name := RequestStream.Step(StreamOf(w, name), o, MAX_QUEUED_CALLS)])
    case On(key, o) =>
      w.(calls := w.calls[key := ApplyOn(w, key, o)], requests := Requests(w, key, o))
  }

  /** A run is any sequence of possible operations by any replicas and providers. */
  predicate IsRun(w: World, ops: seq<Op>)
    decreases |ops|
  {
    ops == [] || (Possible(w, ops[0]) && IsRun(Apply(w, ops[0]), ops[1..]))
  }

  function Run(w: World, ops: seq<Op>): World
    decreases |ops|
  {
    if ops == [] then w else Run(Apply(w, ops[0]), ops[1..])
  }
}
