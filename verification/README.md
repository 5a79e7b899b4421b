# Booking system core, modelled in Dafny

This project models the computational core of a small appointment-booking
service for a beauty salon. The service runs as a serverless worker and has
three parts:

- **The booking endpoint** (`book.ts`). It takes a validated booking
  request and resolves each requested service name against a fixed
  three-entry catalog. It then:
  - attaches a mock calendar event id;
  - derives a booking id of the form `BK-<name part>-<time suffix>`;
  - sends three best-effort notifications, `calendar_event_created`,
    `booking_created` and `email_sent`, in that order.

  The client gets 200 with the booking id. Validation failures give 400.
  Every other failure gives 500, and the only other failure that can
  happen is an unknown service name.
- **The availability endpoint** (`availability.ts`). It validates a date
  and a duration (default 60 minutes). It starts an `availability_check`
  notification without waiting for it, and answers with candidate slots.
  The slots run from 09:00 in steps of the duration, for as long as a slot
  still starts before 17:00.
- **The notification client** (`mcp-integration.js`). It has a
  configuration gate built from three environment settings. When the gate
  is open, each notification becomes one bearer-authenticated JSON POST to
  `<server>/api/booking-events`. The client turns every outcome into a
  result value and never throws.

Everything the source reads from outside is a parameter of the model:

- **Clock readings** (`Date.now()` and each `new Date().toISOString()`).
  They arrive as a `Clock` record, one field per reading, in the order the
  handler makes them.
- **What the network does with each request.** `Transport` is either an
  answer whose body parses as JSON or not, or a failure before any answer.
- **Environment bindings.** `Env` maps names to strings.
- **The `CF-Connecting-IP` header**, as an `Option<string>`.
- **The e-mail syntax verdict of the validation library**, as a boolean.

Each handler is a pure function. It returns the response together with the
trace of notification calls it made. Each call records the event, the
payload, the result, and the HTTP requests it put on the wire.

Modules:

- `Wrappers` (`Option`, `Result`) and `Seqs` (first index satisfying a
  predicate).
- `Text`: JavaScript string and number behaviour used by the source.
  - decimal `toString` and reading it back;
  - `substring` with its clamping;
  - `padStart`;
  - `toUpperCase` on ASCII;
  - the `/[^a-zA-Z0-9]/g` filter;
  - `join`.
- `Schema`: the request schemas, their two regular expressions, and the
  client-address fallback.
- `Dispatcher`: the notification client.
- `Slots`: `generateAvailableSlots`.
- `BookingIds`: `generateBookingId`.
- `Booking`: the booking endpoint.
- `Availability`: the availability endpoint.

## Model

| member | source | states |
|---|---|---|
| Schema.BookingIssues | src/endpoints/booking/book.ts:33-48 | A booking request passes validation exactly when the name has at least 2 characters, the e-mail is valid, the phone has at least 5 characters, the date and time match their patterns, at least one service is listed and the terms are agreed to; the date (time) issue is reported exactly when the date (time) pattern fails |
| Schema.DateFromParts | src/endpoints/booking/book.ts:37 | A 4-2-2 character assembly joined by hyphens matches the date pattern if and only if all three groups are digits |
| Schema.DateIntoParts | src/endpoints/booking/book.ts:37 | Every accepted date splits into its three digit groups around the two hyphens |
| Schema.PaddedDateAccepted | src/endpoints/booking/book.ts:37 | Any zero-padded year below 10000 with month and day below 100 is accepted, calendar-impossible ones included |
| Schema.ClockTimeAccepted | src/endpoints/booking/book.ts:40 | Every hour 0-23 with every minute 00-59 is accepted, with or without a leading zero on the hour |
| Schema.ClockTimeRecognised | src/endpoints/booking/book.ts:40 | Conversely, every accepted time is such an hour and minute, so the pattern accepts exactly `H:MM` and `HH:MM` wall-clock times |
| Schema.HourFieldMeaning | src/endpoints/booking/book.ts:40 | The hour alternative `[01]?[0-9]\|2[0-3]` matches only digit strings of value below 24, written as one digit or zero-padded two |
| Schema.MinuteFieldMeaning | src/endpoints/booking/book.ts:40 | The minute part matches only two-digit strings of value below 60 |
| Schema.AvailabilityIssues | src/endpoints/booking/availability.ts:13-18 | An availability request passes exactly when the date matches its pattern and the duration, 60 when absent, is positive |
| Schema.ClientIp | src/endpoints/booking/book.ts:134 | The reported client address is the header value when it is present and non-empty, otherwise `unknown`; it is never empty |
| Dispatcher.NewIntegration | mcp-integration.js:7-12 | The gate is open if and only if `MCP_ENABLED` is bound to exactly `true` and the server URL and API key are both bound and non-empty; an open gate carries those two settings |
| Dispatcher.MissingSettingDisables | mcp-integration.js:8-11 | Removing any one of the three settings from the environment closes the gate |
| Dispatcher.WireNameRoundTrip | mcp-integration.js:19-48 | The four event types have distinct wire names, each of which parses back to its type |
| Dispatcher.BearerRoundTrip | mcp-integration.js:69 | The `Authorization` value is the bearer scheme of section 2.1 of RFC 6750, and the API key reads back out of it |
| Dispatcher.SendNotification | mcp-integration.js:56-85 | The call keeps its event type and data; it puts no request on the wire when the gate is closed and exactly one, to `<server>/api/booking-events`, when it is open; with the gate open it succeeds exactly when the answer's body parsed as JSON |
| Dispatcher.NotificationResult | mcp-integration.js:57-84 | With the gate closed the result is the fixed `MCP integration not enabled` failure; with it open a parsed body is delivered as is, and a transport failure or unparsable body gives a failure carrying that error's message |
| Dispatcher.NotificationRequest | mcp-integration.js:65-76 | With the gate open the one request is a `POST` to the events path with JSON content type, bearer authorization with the API key, and a body of the event's wire name, the send time and the data unchanged |
| Dispatcher.StatusIgnored | mcp-integration.js:78-80 | The HTTP status of the answer never affects the result |
| Dispatcher.RequestIgnoresTransport | mcp-integration.js:65-76 | The request sent is the same whatever the transport then does with it |
| Dispatcher.NotifyBookingCreated | mcp-integration.js:19-21 | Sends its data unchanged as event type `booking_created`, through the gate |
| Dispatcher.NotifyEmailSent | mcp-integration.js:28-30 | Sends its data unchanged as event type `email_sent`, through the gate |
| Dispatcher.NotifyCalendarEventCreated | mcp-integration.js:37-39 | Sends its data unchanged as event type `calendar_event_created`, through the gate |
| Dispatcher.NotifyAvailabilityCheck | mcp-integration.js:46-48 | Sends its data unchanged as event type `availability_check`, through the gate |
| Dispatcher.GatedTraffic | mcp-integration.js:57-65 | Calls through one client put exactly one request each on the wire, all to the events endpoint, when the gate is open, and none when it is closed |
| Slots.WindowsFrom | src/endpoints/booking/availability.ts:130-135 | The loop's windows from a start minute: there are none if and only if the start is at or after 17:00 |
| Slots.WindowsFromShape | src/endpoints/booking/availability.ts:130-135 | The windows tile the rest of the day: the first begins at the start minute, each spans the duration and begins where the previous one ended, each begins before 17:00, and the last ends at or after 17:00 |
| Slots.SlotAt | src/endpoints/booking/availability.ts:130-138 | Closed form of every slot: the k-th slot runs from 09:00 plus k durations to one duration later, both ends printed as zero-padded `HH:MM` |
| Slots.GenerateAvailableSlots | src/endpoints/booking/availability.ts:125-146 | The imperative loop (counter from 09:00, emit, step by the duration while before 17:00) produces exactly the slot list above |
| Slots.ClockTextRoundTrip | src/endpoints/booking/availability.ts:137-138 | A rendered `HH:MM` time reads back as the minute count it came from, so distinct times never print alike |
| Slots.ClockTextIsClockTime | src/endpoints/booking/availability.ts:137-138 | Below midnight a rendered slot time is the zero-padded reading of its hour and minute, and it passes the booking form's time pattern of `book.ts` |
| Slots.SlotStartBookable | src/endpoints/booking/availability.ts:130-137 | Every offered slot's start time is accepted by the booking form's `HH:MM` pattern, so it can be sent back as a booking time |
| Slots.WindowStart | src/endpoints/booking/availability.ts:130 | The k-th window starts k durations after 09:00 |
| Slots.SlotCount | src/endpoints/booking/availability.ts:128-130 | There are ceil(480 / duration) slots, and never none |
| Slots.FirstSlotAtNine | src/endpoints/booking/availability.ts:126-130 | The first slot starts at `09:00` |
| Slots.SlotsContiguous | src/endpoints/booking/availability.ts:130-135 | Each slot starts at the time the previous one ends |
| Slots.SlotBounds | src/endpoints/booking/availability.ts:130-138 | Read back as minutes, every slot starts at or after 09:00 and strictly before 17:00, and ends exactly one duration after it starts |
| Slots.LastWindow | src/endpoints/booking/availability.ts:127-135 | The last window starts before 17:00 and ends less than one duration after it; it ends at exactly 17:00 if and only if the duration divides 480 minutes |
| Slots.HourlySlots | src/endpoints/booking/availability.ts:126-144 | With 60-minute duration the slots are exactly 09:00-10:00, 10:00-11:00, ..., 16:00-17:00 |
| Slots.FortyFiveMinuteSlots | src/endpoints/booking/availability.ts:126-144 | With 45 minutes there are eleven slots, the last 16:30-17:15, past closing time |
| Slots.SlotsIgnoreDate | src/endpoints/booking/availability.ts:123 | The date does not influence the slots |
| BookingIds.NamePart | src/endpoints/booking/book.ts:236 | The name part has at most six characters, all upper-case ASCII letters or digits |
| BookingIds.TimeSuffixDigits | src/endpoints/booking/book.ts:235-237 | The time suffix is the trailing min(6, number of digits) digits of the clock numeral, all digits, and as a number equals the clock reading modulo one million |
| BookingIds.NamePartIgnoresPunctuation | src/endpoints/booking/book.ts:236 | Inserting or removing any character that is not an ASCII letter or digit leaves the name part unchanged |
| BookingIds.NamePartOfCode | src/endpoints/booking/book.ts:236 | A name already upper-case alphanumeric contributes its first six characters unchanged |
| BookingIds.ParseBookingId | src/endpoints/booking/book.ts:237 | A successful parse splits an id into a name part and suffix that reassemble to it |
| BookingIds.BookingIdRoundTrip | src/endpoints/booking/book.ts:233-238 | A booking id parses back to exactly the name part and time suffix it was built from |
| BookingIds.ObrienExample | src/endpoints/booking/book.ts:233-238 | The name `O'Brien 3!` at a clock reading ending in ...000123 (at least six digits long) gives `BK-OBRIEN-000123` |
| Booking.FindService | src/endpoints/booking/book.ts:104 | The lookup fails exactly when no catalog entry has the name, and otherwise returns the first entry with that name |
| Booking.ResolveServices | src/endpoints/booking/book.ts:103-109 | Resolution succeeds if and only if every name is in the catalog, and then keeps length and order with the i-th result the first entry named like the i-th request; otherwise the error names the first unknown name |
| Booking.DefaultCatalogResolves | src/endpoints/booking/book.ts:240-259 | In the default catalog `Gesichtsbehandlung`, `Massage` resolve to the 45-minute/65 and 60-minute/80 entries, in request order |
| Booking.DefaultCatalogRefuses | src/endpoints/booking/book.ts:103-109 | Any name other than the three default catalog names (`Massage`, `Gesichtsbehandlung`, `Maniküre`) is refused with `Service "<name>" not found` |
| Booking.EventIdRoundTrip | src/endpoints/booking/book.ts:184 | The event id reads back as the clock reading it was made from |
| Booking.CreateBooking | src/endpoints/booking/book.ts:177-208 | The booking gains the event id and nothing else changes; the calendar notification carries that id, date, time, client name and the comma-separated service names |
| Booking.SendBookingEmails | src/endpoints/booking/book.ts:210-231 | The `email_sent` notification names the booking's e-mail as recipient with subject `Booking Confirmation` and status `sent` |
| Booking.Confirm | src/endpoints/booking/book.ts:111-153 | After validation and service resolution the answer is `Booking created successfully` with the generated id, and the three notifications go out in the order calendar, booking, email, each through the gate |
| Booking.Handle | src/endpoints/booking/book.ts:90-175 | Against the catalog it is given (the endpoint's is the default one): 400 with the validation issues exactly when validation fails; 500 `Failed to create booking` exactly when validation passes but some service is unknown; no notification on either; otherwise `Booking created successfully` with the generated id and notifications in the order calendar, booking, email |
| Booking.ResponseIgnoresNotifications | src/endpoints/booking/book.ts:128-153 | The response is the same whatever the transport does and whether or not the integration is configured |
| Booking.UnknownServiceAborts | src/endpoints/booking/book.ts:103-109 | A valid request naming an unknown service yields the 500 response and an empty trace |
| Booking.SuccessPayloads | src/endpoints/booking/book.ts:124-147 | On success the calendar and booking notifications share the event id, the booking notification carries the response's booking id, the resolved services and the client address, and the email notification goes to the requester |
| Booking.SuccessTraffic | src/endpoints/booking/book.ts:124-147 | On success three requests reach the events endpoint when the integration is configured, none otherwise |
| Availability.Handle | src/endpoints/booking/availability.ts:64-120 | 400 with the issues and no notification exactly when the date or duration is invalid; otherwise the generated slots for the requested duration and one `availability_check` notification carrying date, duration, timestamp and client address |
| Availability.ResponseIgnoresNotification | src/endpoints/booking/availability.ts:74-98 | The response is the same whatever the notification's transport does and whether the integration is configured |
| Availability.CheckTraffic | src/endpoints/booking/availability.ts:74-89 | A valid request puts exactly one request on the wire, to the events endpoint, when the integration is configured, and none otherwise |
| Availability.DefaultDurationHourly | src/endpoints/booking/availability.ts:17 | A request with no duration and a well-formed date is answered with the slots of a 60-minute duration, which are exactly the eight hourly slots 09:00-10:00, 10:00-11:00, ..., 16:00-17:00, each one stated |
| Text.ValueOfDecimal | src/endpoints/booking/book.ts:237 | A clock reading's decimal numeral reads back as the reading |
| Text.PadStartShape | src/endpoints/booking/availability.ts:137-138 | `padStart` leaves the text at the end and fills only the front, with the pad character |
| Text.KeepAlnumOnly | src/endpoints/booking/book.ts:236 | The filter keeps only ASCII letters and digits |
| Text.KeepAlnumAppend | src/endpoints/booking/book.ts:236 | The alphanumeric filter works piecewise: filtering a concatenation concatenates the filtered parts |

## Left out

- Slots.GenerateAvailableSlots: does not model the floating-point hour counter of `src/endpoints/booking/availability.ts:128-135`. The loop here steps exact integer minutes, which the fractional hours stand for. Where `duration / 60` is not exact in binary, the summed counter drifts, and the model then differs from the program in three ways:
  - Minute fields print as long decimals. With 50 minutes the first slot ends at `09:50.000000000000036`, which this model never produces.
  - Some durations get one slot more than ceil(480 / duration): 4, 6, 8, 10, 12 and 40 minutes. The counter lands just below 17 instead of on it, so one more slot starts. With 40 minutes the twelfth slot ends at `16:59.99999999999979` and a thirteenth runs from there to `17:39.99999999999986`. For those durations Slots.SlotCount and the "ends at 17:00 if and only if the duration divides 480" half of Slots.LastWindow describe the exact-minute loop, not the program.
  - A positive duration so small that `9 + duration / 60` rounds back to 9, such as `1e-15`, passes the schema, but the source loop then never ends. Slot generation is total only in the model.

  The 45-minute example was chosen because its quarter hours are exact in floating point. These figures follow from IEEE-754 double arithmetic.
- Slots.AvailableSlots: takes the duration as a positive whole number of minutes. The schema accepts any positive number, such as 22.5, and a fractional duration is not modelled.
- Booking.Handle: the `ValidationError` raised by the validation framework is modelled as the list of failed checks. The framework's exact error text, including the messages the schema attaches to each check, is not reproduced, and neither is the order in which it reports issues.
- Availability.Handle: the 400 body (`error.message`) is not rendered either; the rejection carries the list of failed checks. The positivity check on `duration` uses the validation library's default wording, which the model does not name.
- E-mail syntax: the e-mail check is the validation library's. It enters as a boolean.
- String lengths: measured in Unicode code points. JavaScript `length` counts UTF-16 units, so a name made of one astral character would pass `min(2)` in the source but not here.
- Logging: all `console.log` and `console.error` calls are left out. They have no observable effect on responses.
- JSON serialisation: `JSON.stringify` of the request body is kept as the structured `EventBody` value, and `response.json()` is the transport's parse verdict. Both are library behaviour.
- The fetch: the real `fetch` is replaced by the `Transport` oracle.
- Concurrency: the un-awaited `availability_check` notification is modelled only by its place in the trace. Its interleaving with the response is not modelled. The model proves that the response does not depend on it.
- The availability 500 path (`Failed to check availability`): nothing inside the handler's `try` can throw in the model, because slot generation over whole minutes is total and the notification's own errors are caught. This path is therefore absent from the response type. In the program the loop can also fail to return at all (see the Slots.GenerateAvailableSlots line).
- Clock readings: `Date.now()` readings are natural numbers, and their decimal text has no exponent form, since JavaScript switches to one only from 1e21 on. ISO-8601 timestamps are opaque strings.
- Request headers: only `CF-Connecting-IP` is read, and it arrives already looked up.
- `src/index.ts`: routing, OpenAPI registration, static page serving and the health check are not part of this model.
