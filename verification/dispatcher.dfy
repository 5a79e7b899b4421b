/** The notification client of `mcp-integration.js`: a configuration gate read
    from the environment, one POST per notification when the gate is open, and a
    result value in place of every exception. The network is an oracle: the
    caller supplies what the one request would come back with. */
module Dispatcher {
  import opened Wrappers

  /** The worker's environment bindings; an unbound name reads as the empty string. */
  type Env = map<string, string>

  function Lookup(env: Env, key: string): string {
    if key in env then env[key] else ""
  }

  /** The kinds of booking event the sink is told about. */
  datatype EventType = BookingCreated | EmailSent | CalendarEventCreated | AvailabilityCheck {
    /** The `eventType` string sent on the wire. */
    function WireName(): string {
      match this
      case BookingCreated => "booking_created"
      case EmailSent => "email_sent"
      case CalendarEventCreated => "calendar_event_created"
      case AvailabilityCheck => "availability_check"
    }
  }

  /** Recovers an event type from its wire name. */
  function ParseEventType(name: string): (r: Option<EventType>)
    ensures r.Some? ==> r.value.WireName() == name
  {
    if name == "booking_created" then Some(BookingCreated)
    else if name == "email_sent" then Some(EmailSent)
    else if name == "calendar_event_created" then Some(CalendarEventCreated)
    else if name == "availability_check" then Some(AvailabilityCheck)
    else None
  }

  /** Wire names identify event types: no two kinds share a name. */
  lemma WireNameRoundTrip(e: EventType)
    ensures ParseEventType(e.WireName()) == Some(e)
  {
  }

  /** A parsed JSON value, as `response.json()` yields it. */
  datatype Json =
    | JNull
    | JBool(b: bool)
    | JNumber(n: int)
    | JString(s: string)
    | JArray(items: seq<Json>)
    | JObject(fields: seq<(string, Json)>)

  datatype Header = Header(name: string, value: string)

  /** The JSON body of a notification, before serialisation. */
  datatype EventBody<D> = EventBody(eventType: string, timestamp: string, data: D)

  /** One HTTP request handed to the transport. */
  datatype Post<D> = Post(url: string, httpMethod: string, headers: seq<Header>, body: EventBody<D>)

  /** What the transport does with the one request: it answers with some status
      and a body that parses as JSON or not, or it fails before any answer. */
  datatype Transport =
    | Responded(status: int, json: Result<Json, string>)
    | Unreachable(message: string)

  /** The value `sendNotification` resolves to. */
  datatype NotifyResult = Delivered(data: Json) | NotDelivered(message: string) {
    predicate Success() { Delivered? }
  }

  /** One call to `sendNotification`: what was asked, what came back, and the
      requests it put on the wire. */
  datatype Dispatch<D> = Dispatch(event: EventType, data: D, result: NotifyResult, posts: seq<Post<D>>)

  /** An `MCPIntegration` instance: its three settings. */
  datatype Integration = Integration(enabled: bool, serverUrl: string, apiKey: string) {
    /** The `initialized` flag: the gate every notification goes through. */
    predicate Initialized() {
      enabled && serverUrl != "" && apiKey != ""
    }
  }

  const ENABLED_KEY := "MCP_ENABLED"
  const URL_KEY := "MCP_SERVER_URL"
  const API_KEY_KEY := "MCP_API_KEY"
  const EVENTS_PATH := "/api/booking-events"
  const NOT_ENABLED := "MCP integration not enabled"

  /** The constructor: reads the three settings from the environment. */
  function NewIntegration(env: Env): (m: Integration)
    ensures m.Initialized() <==>
      && ENABLED_KEY in env && env[ENABLED_KEY] == "true"
      && URL_KEY in env && env[URL_KEY] != ""
      && API_KEY_KEY in env && env[API_KEY_KEY] != ""
    ensures m.Initialized() ==> m.serverUrl == env[URL_KEY] && m.apiKey == env[API_KEY_KEY]
  {
    Integration(Lookup(env, ENABLED_KEY) == "true", Lookup(env, URL_KEY), Lookup(env, API_KEY_KEY))
  }

  /** Leaving any one of the three settings out of the environment closes the gate. */
  lemma MissingSettingDisables(env: Env, key: string)
    requires key in {ENABLED_KEY, URL_KEY, API_KEY_KEY}
    ensures !NewIntegration(env - {key}).Initialized()
  {
  }

  /** The `Authorization` header value: the bearer scheme of section 2.1 of
      RFC 6750 with the API key as the token. */
  function BearerCredentials(apiKey: string): string {
    "Bearer " + apiKey
  }

  /** Reads the token back out of an `Authorization` header value. */
  function BearerToken(value: string): (r: Option<string>)
    ensures r.Some? ==> value == BearerCredentials(r.value)
  {
    if |value| >= 7 && value[..7] == "Bearer " then Some(value[7..]) else None
  }

  lemma BearerRoundTrip(apiKey: string)
    ensures BearerToken(BearerCredentials(apiKey)) == Some(apiKey)
  {
    assert BearerCredentials(apiKey)[7..] == apiKey;
  }

  /** The gate's effect on one call: nothing on the wire when it is closed,
      exactly one request to the events endpoint when it is open. */
  predicate GatedBy<D>(m: Integration, d: Dispatch<D>) {
    if m.Initialized() then |d.posts| == 1 && d.posts[0].url == m.serverUrl + EVENTS_PATH
    else d.posts == []
  }

  /** `sendNotification(eventType, data)`. `sentAt` is the ISO-8601 instant read
      when the body is built; `transport` is the fate of the request, consulted
      only if one is sent. The function is total: no outcome escapes as an error. */
  function SendNotification<D>(m: Integration, event: EventType, data: D, sentAt: string, transport: Transport)
    : (r: Dispatch<D>)
    ensures r.event == event && r.data == data
    ensures GatedBy(m, r)
    ensures m.Initialized() ==>
      (r.result.Success() <==> transport.Responded? && transport.json.Ok?)
  {
    if !m.Initialized() then
      Dispatch(event, data, NotDelivered(NOT_ENABLED), [])
    else
      var post := Post(
        m.serverUrl + EVENTS_PATH,
        "POST",
        [Header("Content-Type", "application/json"), Header("Authorization", BearerCredentials(m.apiKey))],
        EventBody(event.WireName(), sentAt, data));
      var result := match transport
        case Responded(_, Ok(body)) => Delivered(body)
        case Responded(_, Err(message)) => NotDelivered(message)
        case Unreachable(message) => NotDelivered(message);
      Dispatch(event, data, result, [post])
  }

  /** With the gate closed the call fails with `MCP integration not enabled`;
      with it open, a parsed body is delivered and any other outcome fails with
      the transport's or the parser's message. */
  lemma NotificationResult<D>(m: Integration, event: EventType, data: D, sentAt: string, transport: Transport)
    ensures var r := SendNotification(m, event, data, sentAt, transport);
      && (!m.Initialized() ==> r.result == NotDelivered(NOT_ENABLED))
      && (m.Initialized() && transport.Responded? && transport.json.Ok? ==>
            r.result == Delivered(transport.json.value))
      && (m.Initialized() && transport.Unreachable? ==> r.result == NotDelivered(transport.message))
      && (m.Initialized() && transport.Responded? && transport.json.Err? ==>
            r.result == NotDelivered(transport.json.error))
  {
  }

  /** With the gate open, the one request is a JSON `POST` to the events
      endpoint carrying the API key as a bearer token, and its body names the
      event, the send time and the payload. */
  lemma NotificationRequest<D>(m: Integration, event: EventType, data: D, sentAt: string, transport: Transport)
    requires m.Initialized()
    ensures var r := SendNotification(m, event, data, sentAt, transport);
      && |r.posts| == 1
      && r.posts[0].url == m.serverUrl + "/api/booking-events"
      && r.posts[0].httpMethod == "POST"
      && Header("Authorization", BearerCredentials(m.apiKey)) in r.posts[0].headers
      && Header("Content-Type", "application/json") in r.posts[0].headers
      && r.posts[0].body == EventBody(event.WireName(), sentAt, data)
  {
  }

  /** The HTTP status of the answer never matters: only whether its body parsed. */
  lemma StatusIgnored<D>(m: Integration, event: EventType, data: D, sentAt: string,
                         s1: int, s2: int, json: Result<Json, string>)
    ensures SendNotification(m, event, data, sentAt, Responded(s1, json)).result
         == SendNotification(m, event, data, sentAt, Responded(s2, json)).result
  {
  }

  /** The request sent does not depend on how the transport treats it. */
  lemma RequestIgnoresTransport<D>(m: Integration, event: EventType, data: D, sentAt: string,
                                   t1: Transport, t2: Transport)
    ensures SendNotification(m, event, data, sentAt, t1).posts
         == SendNotification(m, event, data, sentAt, t2).posts
  {
  }

  /** `notifyBookingCreated`. */
  function NotifyBookingCreated<D>(m: Integration, data: D, sentAt: string, transport: Transport)
    : (r: Dispatch<D>)
    ensures r.event == BookingCreated && r.data == data
    ensures GatedBy(m, r)
    ensures forall p :: p in r.posts ==> p.body.eventType == "booking_created"
  {
    SendNotification(m, BookingCreated, data, sentAt, transport)
  }

  /** `notifyEmailSent`. */
  function NotifyEmailSent<D>(m: Integration, data: D, sentAt: string, transport: Transport)
    : (r: Dispatch<D>)
    ensures r.event == EmailSent && r.data == data
    ensures GatedBy(m, r)
    ensures forall p :: p in r.posts ==> p.body.eventType == "email_sent"
  {
    SendNotification(m, EmailSent, data, sentAt, transport)
  }

  /** `notifyCalendarEventCreated`. */
  function NotifyCalendarEventCreated<D>(m: Integration, data: D, sentAt: string, transport: Transport)
    : (r: Dispatch<D>)
    ensures r.event == CalendarEventCreated && r.data == data
    ensures GatedBy(m, r)
    ensures forall p :: p in r.posts ==> p.body.eventType == "calendar_event_created"
  {
    SendNotification(m, CalendarEventCreated, data, sentAt, transport)
  }

  /** `notifyAvailabilityCheck`. */
  function NotifyAvailabilityCheck<D>(m: Integration, data: D, sentAt: string, transport: Transport)
    : (r: Dispatch<D>)
    ensures r.event == AvailabilityCheck && r.data == data
    ensures GatedBy(m, r)
    ensures forall p :: p in r.posts ==> p.body.eventType == "availability_check"
  {
    SendNotification(m, AvailabilityCheck, data, sentAt, transport)
  }

  /** All requests a sequence of notification calls put on the wire, in order. */
  function Traffic<D>(trace: seq<Dispatch<D>>): (posts: seq<Post<D>>)
    ensures trace == [] ==> posts == []
  {
    if trace == [] then [] else trace[0].posts + Traffic(trace[1..])
  }

  /** A trace of calls through one integration puts one request per call on
      the wire, all to the events endpoint, when the gate is open, and none
      when it is closed. */
  lemma {:induction false} GatedTraffic<D>(m: Integration, trace: seq<Dispatch<D>>)
    requires forall i :: 0 <= i < |trace| ==> GatedBy(m, trace[i])
    ensures |Traffic(trace)| == if m.Initialized() then |trace| else 0
    ensures forall p :: p in Traffic(trace) ==> p.url == m.serverUrl + EVENTS_PATH
  {
    if trace != [] {
      GatedTraffic(m, trace[1..]);
      assert GatedBy(m, trace[0]);
    }
  }

  /** The event types of a trace, in order. */
  function Events<D>(trace: seq<Dispatch<D>>): (events: seq<EventType>)
    ensures |events| == |trace|
    ensures forall i :: 0 <= i < |trace| ==> events[i] == trace[i].event
  {
    if trace == [] then [] else [trace[0].event] + Events(trace[1..])
  }
}
