/** The booking endpoint of `book.ts`: resolve the requested services against
    the catalog, attach a calendar event id, derive the booking id, and run three
    best-effort notifications whose outcomes never reach the response. */
module Booking {
  import opened Wrappers
  import opened Text
  import Seqs
  import opened Schema
  import opened Dispatcher
  import opened BookingIds

  /** A catalog entry. */
  datatype Service = Service(name: string, duration: nat, price: nat)

  /** A booking as it travels through the handler; `eventId` is absent until
      the calendar step has run. */
  datatype BookingData = BookingData(
    name: string,
    email: string,
    phone: string,
    date: string,
    time: string,
    services: seq<Service>,
    notes: Option<string>,
    eventId: Option<string>,
    agreed: bool)

  /** The `data` objects of the three booking notifications. */
  datatype Payload =
    | CalendarData(eventId: string, date: string, time: string, clientName: string, services: string)
    | CreatedData(booking: BookingData, bookingId: string, timestamp: string, ip: string)
    | EmailData(recipient: string, subject: string, timestamp: string, status: string)

  /** Every clock reading the handler makes, in the order it makes them:
      milliseconds for the event id and the booking id, and ISO-8601 instants for
      payload timestamps and the dispatcher's own `timestamp` field. */
  datatype Clock = Clock(
    eventMillis: nat,
    calendarSentAt: string,
    idMillis: nat,
    createdStampedAt: string,
    createdSentAt: string,
    emailStampedAt: string,
    emailSentAt: string)

  /** What the transport does with each of the three notifications. */
  datatype Network = Network(calendar: Transport, created: Transport, email: Transport)

  datatype Response =
    | Created(message: string, bookingId: string)
    | Rejected(issues: seq<Issue>)
    | Failed(error: string)
  {
    function Status(): nat {
      match this
      case Created(_, _) => 200
      case Rejected(_) => 400
      case Failed(_) => 500
    }

    predicate Success() { Created? }
  }

  /** The response, and every notification call made while producing it. */
  datatype Outcome = Outcome(response: Response, trace: seq<Dispatch<Payload>>)

  const CREATED_MESSAGE := "Booking created successfully"
  const FAILED_MESSAGE := "Failed to create booking"

  /** `getDefaultServices`. */
  function DefaultServices(): seq<Service> {
    [ Service("Massage", 60, 80),
      Service("Gesichtsbehandlung", 45, 65),
      Service("Manik\U{00FC}re", 30, 40) ]
  }

  /** Whether some catalog entry carries the name. */
  predicate Known(catalog: seq<Service>, name: string) {
    exists e :: e in catalog && e.name == name
  }

  /** `catalog.find(s => s.name === name)`: the first entry with the name. */
  function FindService(catalog: seq<Service>, name: string): (r: Option<Service>)
    ensures r.None? <==> !Known(catalog, name)
    ensures r.Some? ==> r.value.name == name
    ensures r.Some? ==> r.value in catalog
    ensures forall i :: 0 <= i < |catalog| && catalog[i].name == name
                        && (forall j :: 0 <= j < i ==> catalog[j].name != name)
                        ==> r == Some(catalog[i])
  {
    var i := Seqs.FirstIndex(catalog, (e: Service) => e.name == name);
    if i < |catalog| then
      Some(catalog[i])
    else
      assert forall e :: e in catalog ==> e.name != name by {
        forall e | e in catalog
          ensures e.name != name
        {
          var j :| 0 <= j < |catalog| && catalog[j] == e;
        }
      }
      None
  }

  /** The position of the first requested name the catalog does not know, or
      the number of names when it knows them all. */
  function FirstUnknown(catalog: seq<Service>, names: seq<string>): (k: nat)
    ensures k <= |names|
    ensures forall j :: 0 <= j < k ==> Known(catalog, names[j])
    ensures k < |names| ==> !Known(catalog, names[k])
  {
    Seqs.FirstIndex(names, (n: string) => !Known(catalog, n))
  }

  function NotFound(name: string): string {
    "Service \"" + name + "\" not found"
  }

  /** `services.map(...)`: each name becomes its first catalog entry; the first
      unknown name stops the mapping with an error naming it. */
  function ResolveServices(catalog: seq<Service>, names: seq<string>): (r: Result<seq<Service>, string>)
    ensures r.Ok? <==> forall i :: 0 <= i < |names| ==> Known(catalog, names[i])
    ensures r.Ok? ==> |r.value| == |names|
    ensures r.Ok? ==> forall i :: 0 <= i < |names| ==> FindService(catalog, names[i]) == Some(r.value[i])
    ensures r.Err? ==> exists k :: && 0 <= k < |names| && !Known(catalog, names[k])
                                   && (forall j :: 0 <= j < k ==> Known(catalog, names[j]))
                                   && r.error == NotFound(names[k])
  {
    var k := FirstUnknown(catalog, names);
    if k < |names| then
      Err(NotFound(names[k]))
    else
      Ok(seq(|names|, i requires 0 <= i < |names| => FindService(catalog, names[i]).value))
  }

  /** The booking object assembled from a validated request. */
  function FromRequest(req: BookingRequest, services: seq<Service>): BookingData {
    BookingData(req.name, req.email, req.phone, req.date, req.time, services, req.notes, None, req.agreed)
  }

  function ServiceNames(services: seq<Service>): (names: seq<string>)
    ensures |names| == |services|
    ensures forall i :: 0 <= i < |services| ==> names[i] == services[i].name
  {
    seq(|services|, i requires 0 <= i < |services| => services[i].name)
  }

  /** The mock calendar event id: `event_` followed by the clock reading. */
  function EventId(now: nat): string {
    "event_" + Decimal(now)
  }

  /** Reads the clock reading back out of an event id. */
  function ParseEventId(id: string): Option<nat> {
    if |id| > 6 && id[..6] == "event_" && AllDigits(id[6..]) then Some(Value(id[6..])) else None
  }

  lemma EventIdRoundTrip(now: nat)
    ensures ParseEventId(EventId(now)) == Some(now)
  {
    assert EventId(now)[6..] == Decimal(now);
    ValueOfDecimal(now);
  }

  /** `createBooking`: the booking gains its event id and nothing else changes;
      the calendar notification goes out with the id, date, time, client name and
      the comma-separated service names. */
  function CreateBooking(b: BookingData, now: nat, m: Integration, sentAt: string, t: Transport)
    : (r: (BookingData, Dispatch<Payload>))
    ensures r.0.eventId == Some(EventId(now))
    ensures r.0.(eventId := b.eventId) == b
    ensures r.1.event == CalendarEventCreated && GatedBy(m, r.1)
    ensures r.1.data == CalendarData(EventId(now), b.date, b.time, b.name, Join(ServiceNames(b.services), ", "))
  {
    var eventId := EventId(now);
    var withEvent := b.(eventId := Some(eventId));
    var sent := NotifyCalendarEventCreated(m,
      CalendarData(eventId, b.date, b.time, b.name, Join(ServiceNames(b.services), ", ")), sentAt, t);
    (withEvent, sent)
  }

  /** `sendBookingEmails`: no mail leaves; the sink is told a confirmation was sent. */
  function SendBookingEmails(b: BookingData, m: Integration, stampedAt: string, sentAt: string, t: Transport)
    : (r: Dispatch<Payload>)
    ensures r.event == EmailSent && GatedBy(m, r)
    ensures r.data == EmailData(b.email, "Booking Confirmation", stampedAt, "sent")
  {
    NotifyEmailSent(m, EmailData(b.email, "Booking Confirmation", stampedAt, "sent"), sentAt, t)
  }

  /** The part of `handle` after validation, once every requested service
      has resolved: store the calendar event, notify the sink of the booking,
      send the confirmation, and answer with the new booking ID. */
  function Confirm(mcp: Integration, req: BookingRequest, services: seq<Service>,
                   clock: Clock, ipHeader: Option<string>, net: Network): (o: Outcome)
    ensures o.response == Created(CREATED_MESSAGE, GenerateBookingId(req.name, clock.idMillis))
    ensures |o.trace| == 3 && GatedBy(mcp, o.trace[0]) && GatedBy(mcp, o.trace[1]) && GatedBy(mcp, o.trace[2])
    ensures o.trace[0].event == CalendarEventCreated
    ensures o.trace[1].event == BookingCreated
    ensures o.trace[2].event == EmailSent
  {
    var booking := FromRequest(req, services);
    var (withEvent, calendar) := CreateBooking(booking, clock.eventMillis, mcp, clock.calendarSentAt, net.calendar);
    var bookingId := GenerateBookingId(booking.name, clock.idMillis);
    var created := NotifyBookingCreated(mcp,
      CreatedData(withEvent, bookingId, clock.createdStampedAt, ClientIp(ipHeader)), clock.createdSentAt, net.created);
    var email := SendBookingEmails(withEvent, mcp, clock.emailStampedAt, clock.emailSentAt, net.email);
    Outcome(Created(CREATED_MESSAGE, bookingId), [calendar, created, email])
  }

  /** `handle`: the whole booking request.
      `emailValid` is the validation library's verdict on the address;
      `ipHeader` is the `CF-Connecting-IP` request header. `catalog` is the
      service list the request is checked against; the endpoint always passes
      `DefaultServices()`. */
  function Handle(env: Env, catalog: seq<Service>, req: BookingRequest, emailValid: bool,
                  clock: Clock, ipHeader: Option<string>, net: Network): (o: Outcome)
    ensures o.response.Status() == 400 <==> BookingIssues(req, emailValid) != []
    ensures o.response.Status() == 400 ==> o.response == Rejected(BookingIssues(req, emailValid))
    ensures o.response.Status() == 500 <==>
      BookingIssues(req, emailValid) == [] && exists i :: 0 <= i < |req.services| && !Known(catalog, req.services[i])
    ensures o.response.Status() == 500 ==> o.response == Failed(FAILED_MESSAGE)
    ensures !o.response.Success() ==> o.trace == []
    ensures o.response.Success() ==>
      && o.response == Created(CREATED_MESSAGE, GenerateBookingId(req.name, clock.idMillis))
      && Events(o.trace) == [CalendarEventCreated, BookingCreated, EmailSent]
  {
    var issues := BookingIssues(req, emailValid);
    if issues != [] then
      Outcome(Rejected(issues), [])
    else
      match ResolveServices(catalog, req.services)
      case Err(_) =>
        Outcome(Failed(FAILED_MESSAGE), [])
      case Ok(services) =>
        Confirm(NewIntegration(env), req, services, clock, ipHeader, net)
  }

  /** The response never depends on the notifications: not on what the
      transport does with them, nor on whether the integration is configured. */
  lemma ResponseIgnoresNotifications(env1: Env, env2: Env, catalog: seq<Service>, req: BookingRequest, emailValid: bool,
                                     clock: Clock, ipHeader: Option<string>, net1: Network, net2: Network)
    ensures Handle(env1, catalog, req, emailValid, clock, ipHeader, net1).response
         == Handle(env2, catalog, req, emailValid, clock, ipHeader, net2).response
  {
  }

  /** An unknown service name aborts before any notification: a 500 with the
      generic message and an empty trace. */
  lemma UnknownServiceAborts(env: Env, catalog: seq<Service>, req: BookingRequest, emailValid: bool,
                             clock: Clock, ipHeader: Option<string>, net: Network, i: nat)
    requires BookingIssues(req, emailValid) == []
    requires i < |req.services| && !Known(catalog, req.services[i])
    ensures Handle(env, catalog, req, emailValid, clock, ipHeader, net) == Outcome(Failed(FAILED_MESSAGE), [])
  {
  }

  /** On success the three notifications agree with each other and with the
      response: the calendar and booking notifications carry the same event id,
      the booking notification carries the response's booking id and the
      resolved services, and the email goes to the requester. */
  lemma SuccessPayloads(env: Env, catalog: seq<Service>, req: BookingRequest, emailValid: bool,
                        clock: Clock, ipHeader: Option<string>, net: Network)
    requires Handle(env, catalog, req, emailValid, clock, ipHeader, net).response.Success()
    ensures var o := Handle(env, catalog, req, emailValid, clock, ipHeader, net);
      && |o.trace| == 3
      && o.trace[0].data.CalendarData? && o.trace[0].data.eventId == EventId(clock.eventMillis)
      && o.trace[1].data.CreatedData?
      && o.trace[1].data.booking.eventId == Some(EventId(clock.eventMillis))
      && o.trace[1].data.bookingId == o.response.bookingId
      && ResolveServices(catalog, req.services) == Ok(o.trace[1].data.booking.services)
      && o.trace[1].data.ip == ClientIp(ipHeader)
      && o.trace[2].data == EmailData(req.email, "Booking Confirmation", clock.emailStampedAt, "sent")
  {
  }

  /** On success the sink receives exactly three requests when the integration
      is configured, each to the events endpoint, and none otherwise. */
  lemma SuccessTraffic(env: Env, catalog: seq<Service>, req: BookingRequest, emailValid: bool,
                       clock: Clock, ipHeader: Option<string>, net: Network)
    requires Handle(env, catalog, req, emailValid, clock, ipHeader, net).response.Success()
    ensures var posts := Traffic(Handle(env, catalog, req, emailValid, clock, ipHeader, net).trace);
      && |posts| == (if NewIntegration(env).Initialized() then 3 else 0)
      && forall p :: p in posts ==> p.url == env[URL_KEY] + EVENTS_PATH
  {
    var services := ResolveServices(catalog, req.services).value;
    ConfirmTraffic(NewIntegration(env), req, services, clock, ipHeader, net);
  }

  /** `SuccessTraffic` for the steps after validation. */
  lemma ConfirmTraffic(m: Integration, req: BookingRequest, services: seq<Service>,
                       clock: Clock, ipHeader: Option<string>, net: Network)
    ensures var posts := Traffic(Confirm(m, req, services, clock, ipHeader, net).trace);
      && |posts| == (if m.Initialized() then 3 else 0)
      && forall p :: p in posts ==> p.url == m.serverUrl + EVENTS_PATH
  {
    var t := Confirm(m, req, services, clock, ipHeader, net).trace;
    assert forall i :: 0 <= i < |t| ==> GatedBy(m, t[i]) by {
      assert GatedBy(m, t[0]) && GatedBy(m, t[1]) && GatedBy(m, t[2]);
    }
    GatedTraffic(m, t);
  }

  /** Catalog names resolve to their entries, in request order. */
  lemma DefaultCatalogResolves()
    ensures ResolveServices(DefaultServices(), ["Gesichtsbehandlung", "Massage"])
         == Ok([Service("Gesichtsbehandlung", 45, 65), Service("Massage", 60, 80)])
  {
    ResolvesInOrder(DefaultServices(), ["Gesichtsbehandlung", "Massage"]);
  }

  /** `DefaultCatalogResolves`, with the catalog and the names passed in. */
  lemma ResolvesInOrder(c: seq<Service>, names: seq<string>)
    requires c == DefaultServices()
    requires names == ["Gesichtsbehandlung", "Massage"]
    ensures ResolveServices(c, names) == Ok([Service("Gesichtsbehandlung", 45, 65), Service("Massage", 60, 80)])
  {
    FindFacial(c, names[0]);
    FindMassage(c, names[1]);
    var r := ResolveServices(c, names);
    assert r.Ok? by {
      assert Known(c, names[0]) && Known(c, names[1]);
    }
    assert r.value == [c[1], c[0]] by {
      assert |r.value| == 2 && r.value[0] == c[1] && r.value[1] == c[0];
    }
  }

  /** The facial treatment is the second catalog entry. */
  lemma FindFacial(c: seq<Service>, name: string)
    requires c == DefaultServices() && name == "Gesichtsbehandlung"
    ensures FindService(c, name) == Some(c[1]) && c[1] == Service("Gesichtsbehandlung", 45, 65)
  {
  }

  /** The massage is the first catalog entry. */
  lemma FindMassage(c: seq<Service>, name: string)
    requires c == DefaultServices() && name == "Massage"
    ensures FindService(c, name) == Some(c[0]) && c[0] == Service("Massage", 60, 80)
  {
  }

  /** Any name outside the default catalog is refused with an error naming it. */
  lemma DefaultCatalogRefuses(name: string)
    requires name != "Massage" && name != "Gesichtsbehandlung" && name != "Manik\U{00FC}re"
    ensures ResolveServices(DefaultServices(), [name]) == Err(NotFound(name))
  {
  }
}
