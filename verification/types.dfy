/** Values exchanged with the Lu.ma API and the MCP host: the optional/nullable
    JSON shapes the server reads, the MCP error type, and what a `catch`
    clause can receive. */
module LumaTypes {

  datatype Option<+T> = None | Some(value: T)

  datatype Result<+T, +E> = Success(value: T) | Failure(error: E)

  /** `xs.map(f)` */
  function Map<A, B>(xs: seq<A>, f: A -> B): (r: seq<B>)
    ensures |r| == |xs|
    ensures forall i :: 0 <= i < |xs| ==> r[i] == f(xs[i])
  {
    seq(|xs|, i requires 0 <= i < |xs| => f(xs[i]))
  }

  /** JavaScript truthiness of an optional string: `undefined` and `""` are falsy. */
  predicate Truthy(s: Option<string>) {
    s.Some? && s.value != ""
  }

  /** The error codes of the MCP SDK that the server raises. */
  datatype ErrorCode = InvalidRequest | InvalidParams | MethodNotFound | InternalError

  /** An `McpError(code, message)`; `message` is the text handed to its constructor. */
  datatype McpError = McpError(code: ErrorCode, message: string)

  /** What a `catch (error)` clause receives: an McpError, some other `Error`
      (only its `.message` is ever read), or a thrown value that is not an Error. */
  datatype Exception = Mcp(mcp: McpError) | ErrorObject(text: string) | NonError

  /** `error instanceof Error ? error.message : "Unknown error"` */
  function MessageOf(x: Exception): string {
    match x
    case Mcp(e) => e.message
    case ErrorObject(m) => m
    case NonError => "Unknown error"
  }

  /** The `geo_address_json` object of an event. */
  datatype Address = Address(
    city: Option<string>,
    region: Option<string>,
    address: Option<string>,
    country: Option<string>,
    fullAddress: Option<string>,
    description: Option<string>)

  /** The fields of an event that the server reads. The `event` object nested in a
      list-events entry has the same field names, so it uses this record too. */
  datatype EventDetails = EventDetails(
    apiId: string,
    name: string,
    description: Option<string>,
    startAt: string,
    endAt: Option<string>,
    durationInterval: Option<string>,
    timezone: string,
    url: Option<string>,
    coverUrl: Option<string>,
    geoAddressJson: Option<Address>,
    visibility: Option<string>,
    meetingUrl: Option<string>,
    zoomMeetingUrl: Option<string>)

  /** The optional fields an update_event call forwards to the update endpoint
      (the tool's arguments without `api_id` and `require_approval`). */
  datatype EventUpdates = EventUpdates(
    name: Option<string>,
    description: Option<string>,
    startAt: Option<string>,
    endAt: Option<string>,
    timezone: Option<string>,
    eventType: Option<string>,
    geoAddressJson: Option<Address>,
    geoLatitude: Option<string>,
    geoLongitude: Option<string>,
    visibility: Option<string>,
    meetingUrl: Option<string>,
    zoomMeetingUrl: Option<string>,
    coverUrl: Option<string>)

  /** One entry of a list-events page. */
  datatype EventSummary = EventSummary(apiId: string, event: EventDetails)

  datatype RegistrationAnswer = RegistrationAnswer(questionLabel: string, answer: string, questionType: string)

  datatype Guest = Guest(
    apiId: string,
    name: string,
    email: string,
    approvalStatus: Option<string>,
    registrationAnswers: Option<seq<RegistrationAnswer>>)

  /** One entry of a get-guests page: the guest is nested under `guest`. */
  datatype GuestEntry = GuestEntry(apiId: string, guest: Guest)

  /** A paginated list response `{entries, has_more, next_cursor}`. */
  datatype Page<+E> = Page(entries: seq<E>, hasMore: bool, nextCursor: Option<string>)

  /** The `{event: ...}` envelope of get-event and update-event responses. */
  datatype EventEnvelope = EventEnvelope(event: Option<EventDetails>)

  /** The `{guest: ...}` envelope of get-guest responses. */
  datatype GuestEnvelope = GuestEnvelope(guest: Option<Guest>)
}
