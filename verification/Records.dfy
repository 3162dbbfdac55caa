/**
 * What the registry stores per call: the decision record (one Redis hash per
 * tool-use identity) and its result stream, with every field the scripts read
 * or write (registry/call_decision.go:306-341, registry/call_admission.go).
 * An absent or empty hash field is None.
 */
module Records {
  import opened Basics
  import opened StreamIds
  import Catalog

  /** Constants of runtime/toolregistry and registry/bounded_publish.go. */
  const RESULT_STREAM_MAX_LEN: nat := 512
  const MAX_DELTAS: nat := 256
  const OVERLOAD_DELAY_MS: nat := 250
  const MAX_OVERLOAD_DELAY_MS: nat := 5000
  const MAX_QUEUED_CALLS: nat := 1000

  /**
   * The request digest hashes the toolset, tool, payload and metadata. Hashing
   * is modelled as collision free, so the digest determines the toolset.
   */
  datatype CallDigest = CallDigest(toolset: string, request: string)

  /** The decoded forms of a persisted tool result message. */
  datatype Body =
    | Success(data: string)
    | OutcomeUnknown
    | StaleRegistration
    | OtherFailure(code: string)
    | RetryAfter(ms: nat)
    | Malformed

  datatype Payload = Payload(token: Catalog.Token, toolUse: string, body: Body)

  function UnknownPayload(token: Catalog.Token, key: string): Payload {
    Payload(token, key, OutcomeUnknown)
  }

  function StalePayload(token: Catalog.Token, key: string): Payload {
    Payload(token, key, StaleRegistration)
  }

  function RetryPayload(token: Catalog.Token, key: string): Payload {
    Payload(token, key, RetryAfter(OVERLOAD_DELAY_MS))
  }

  /** A well-formed result without retry control. */
  predicate IsTerminalBody(b: Body) {
    !b.RetryAfter? && !b.Malformed?
  }

  /** Two checksum families: providers and stale rejections use SHA-256, settlement Redis's SHA-1. */
  datatype Digest = Sha256(of: Payload) | Sha1(of: Payload)

  datatype Cause = ProviderResult | ExecutionDeadline | StaleAdmission | LeaseLost | LeaseReleased

  datatype RejectionKind = NotFound | ValidationError | CallNotAdmitted

  datatype Owner = Owner(token: Catalog.Token, lease: string)

  datatype Record =
    | Rejected(digest: CallDigest, kind: RejectionKind, message: string, expiresAt: nat)
    | Admitted(
        digest: CallDigest,
        expiresAt: nat,
        toolUse: string,
        token: Catalog.Token,
        deadline: nat,
        field: string,
        outcomeUnknown: Payload,
        published: bool,
        publication: Option<Id>,
        claims: set<Id>,
        overload: Option<Id>,
        overloadEvent: Option<Id>,
        overloadDelay: nat,
        overloadRequests: map<Id, Id>,
        deltas: nat,
        terminal: bool,
        terminalEvent: Option<Id>,
        terminalDigest: Option<Digest>,
        terminalPayload: Option<Payload>,
        terminalCause: Option<Cause>,
        dispatchToken: Option<Catalog.Token>,
        dispatchLease: Option<string>,
        dispatchRequest: Option<Id>,
        dispatchExpires: Option<nat>)

  function NewRecord(key: string, digest: CallDigest, token: Catalog.Token, deadline: nat, expiresAt: nat): Record {
    Admitted(digest, expiresAt, key, token, deadline, digest.toolset, UnknownPayload(token, key),
             false, None, {}, None, None, 0, map[], 0,
             false, None, None, None, None,
             None, None, None, None)
  }

  datatype Content = InitMark | Delta(data: string) | Message(payload: Payload)

  datatype Event = Event(id: Id, content: Content)

  /** A result stream: retained events, oldest first, and the greatest ID assigned. */
  datatype Results = Results(events: seq<Event>, last: Id)

  const NO_RESULTS := Results([], ZERO)

  function Newest(events: seq<Event>, n: nat): seq<Event> {
    if |events| <= n then events else events[|events| - n..]
  }

  function Push(s: Results, now: nat, content: Content): Results {
    var id := NextId(s.last, now);
    Results(Newest(s.events + [Event(id, content)], RESULT_STREAM_MAX_LEN), id)
  }

  function Without(events: seq<Event>, lost: set<Id>): seq<Event> {
    if events == [] then []
    else (if events[0].id in lost then [] else [events[0]]) + Without(events[1..], lost)
  }

  /** External loss of any events. */
  function Lose(s: Results, lost: set<Id>): Results {
    s.(events := Without(s.events, lost))
  }

  predicate HasEvent(s: Results, id: Id) {
    exists i :: 0 <= i < |s.events| && s.events[i].id == id
  }
}
