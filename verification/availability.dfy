/** The availability endpoint of `availability.ts`: validate the date and
    duration, fire an `availability_check` notification without waiting for it,
    and answer with the generated slots. */
module Availability {
  import opened Wrappers
  import opened Schema
  import opened Dispatcher
  import opened Slots

  /** The `data` object of the availability notification. */
  datatype CheckData = CheckData(date: string, duration: int, timestamp: string, ip: string)

  /** The two ISO-8601 clock readings of the notification: the payload's
      `timestamp` and the dispatcher's own. */
  datatype Clock = Clock(stampedAt: string, sentAt: string)

  datatype Response =
    | Listed(availableSlots: seq<Slot>)
    | Rejected(issues: seq<Issue>)
  {
    function Status(): nat {
      match this
      case Listed(_) => 200
      case Rejected(_) => 400
    }
  }

  datatype Outcome = Outcome(response: Response, trace: seq<Dispatch<CheckData>>)

  /** `handle`. The notification is started and not awaited: it appears in the
      trace, but the response is computed without looking at its result. */
  function Handle(env: Env, req: AvailabilityRequest, clock: Clock, ipHeader: Option<string>,
                  transport: Transport): (o: Outcome)
    ensures o.response.Status() == 400 <==> !IsIsoDate(req.date) || RequestedDuration(req) <= 0
    ensures o.response.Rejected? ==> o.response.issues == AvailabilityIssues(req) && o.trace == []
    ensures o.response.Listed? ==>
      && RequestedDuration(req) > 0
      && o.response.availableSlots == AvailableSlots(req.date, RequestedDuration(req))
      && |o.trace| == 1
      && o.trace[0].event == AvailabilityCheck
      && o.trace[0].data == CheckData(req.date, RequestedDuration(req), clock.stampedAt, ClientIp(ipHeader))
      && GatedBy(NewIntegration(env), o.trace[0])
  {
    var mcp := NewIntegration(env);
    var issues := AvailabilityIssues(req);
    if issues != [] then
      Outcome(Rejected(issues), [])
    else
      var duration := RequestedDuration(req);
      var sent := NotifyAvailabilityCheck(mcp,
        CheckData(req.date, duration, clock.stampedAt, ClientIp(ipHeader)), clock.sentAt, transport);
      Outcome(Listed(AvailableSlots(req.date, duration)), [sent])
  }

  /** Fire and forget: neither the transport's behaviour nor the integration
      settings can change the response. */
  lemma ResponseIgnoresNotification(env1: Env, env2: Env, req: AvailabilityRequest, clock: Clock,
                                    ipHeader: Option<string>, t1: Transport, t2: Transport)
    ensures Handle(env1, req, clock, ipHeader, t1).response == Handle(env2, req, clock, ipHeader, t2).response
  {
  }

  /** A valid request puts one request on the wire, to the events endpoint,
      when the integration is configured and none otherwise. */
  lemma CheckTraffic(env: Env, req: AvailabilityRequest, clock: Clock, ipHeader: Option<string>, t: Transport)
    requires Handle(env, req, clock, ipHeader, t).response.Listed?
    ensures var posts := Traffic(Handle(env, req, clock, ipHeader, t).trace);
      && |posts| == (if NewIntegration(env).Initialized() then 1 else 0)
      && forall p :: p in posts ==> p.url == env[URL_KEY] + EVENTS_PATH
  {
    GatedTraffic(NewIntegration(env), Handle(env, req, clock, ipHeader, t).trace);
  }

  /** With no duration given, a well-formed date yields the eight hourly slots. */
  lemma DefaultDurationHourly(env: Env, req: AvailabilityRequest, clock: Clock,
                              ipHeader: Option<string>, t: Transport)
    requires req.duration.None? && IsIsoDate(req.date)
    ensures Handle(env, req, clock, ipHeader, t).response == Listed(AvailableSlots(req.date, 60))
    ensures var s := Handle(env, req, clock, ipHeader, t).response.availableSlots;
      && |s| == 8
      && s[0] == Slot("09:00", "10:00") && s[1] == Slot("10:00", "11:00")
      && s[2] == Slot("11:00", "12:00") && s[3] == Slot("12:00", "13:00")
      && s[4] == Slot("13:00", "14:00") && s[5] == Slot("14:00", "15:00")
      && s[6] == Slot("15:00", "16:00") && s[7] == Slot("16:00", "17:00")
  {
    HourlySlots(req.date);
  }
}
