/** The request schemas the two booking endpoints declare: the shape of the
    inbound JSON, the two regular expressions on dates and times, and which
    checks a request fails. */
module Schema {
  import opened Wrappers
  import opened Text

  /** The booking request body as the validation layer hands it over
      (`services` still holds catalog names). */
  datatype BookingRequest = BookingRequest(
    name: string,
    email: string,
    phone: string,
    date: string,
    time: string,
    services: seq<string>,
    notes: Option<string>,
    agreed: bool)

  /** The availability request body; `duration` is absent when the client sent none. */
  datatype AvailabilityRequest = AvailabilityRequest(date: string, duration: Option<int>)

  /** One failed check of a request schema. */
  datatype Issue =
    | NameTooShort
    | InvalidEmail
    | PhoneTooShort
    | DateFormat
    | TimeFormat
    | NoServices
    | NotAgreed
    | DurationNotPositive

  /** The pattern `^\d{4}-\d{2}-\d{2}$`: four, two and two ASCII digits joined by
      hyphens, nothing before or after. Calendar validity is not checked. */
  predicate IsIsoDate(s: string) {
    && |s| == 10
    && AllDigits(s[..4]) && s[4] == '-'
    && AllDigits(s[5..7]) && s[7] == '-'
    && AllDigits(s[8..])
  }

  /** The hour alternative `[01]?[0-9]|2[0-3]`. */
  predicate HourField(h: string) {
    || (|h| == 1 && IsDigit(h[0]))
    || (|h| == 2 && (h[0] == '0' || h[0] == '1') && IsDigit(h[1]))
    || (|h| == 2 && h[0] == '2' && '0' <= h[1] <= '3')
  }

  /** The minute part `[0-5][0-9]`. */
  predicate MinuteField(m: string) {
    |m| == 2 && '0' <= m[0] <= '5' && IsDigit(m[1])
  }

  /** The pattern `^([01]?[0-9]|2[0-3]):[0-5][0-9]$`. The hour alternative never
      contains a colon, so the colon of a match is the third character from the end. */
  predicate IsClockTime(s: string) {
    |s| >= 3 && s[|s| - 3] == ':' && HourField(s[..|s| - 3]) && MinuteField(s[|s| - 2..])
  }

  /** The reference reading of a wall-clock time: hour `h` written with or
      without a leading zero, then a colon, then the minute on two digits. */
  function ClockTimeText(h: nat, m: nat, padded: bool): string {
    (if padded then Pad2(h) else Decimal(h)) + ":" + Pad2(m)
  }

  /** A date assembled from three digit groups of the right widths is accepted,
      and a group holding any non-digit makes it rejected. */
  lemma DateFromParts(y: string, m: string, d: string)
    requires |y| == 4 && |m| == 2 && |d| == 2
    ensures IsIsoDate(y + "-" + m + "-" + d) <==> AllDigits(y) && AllDigits(m) && AllDigits(d)
  {
    var s := y + "-" + m + "-" + d;
    assert s[..4] == y && s[5..7] == m && s[8..] == d;
  }

  /** Every accepted date is such an assembly. */
  lemma DateIntoParts(s: string)
    requires IsIsoDate(s)
    ensures s == s[..4] + "-" + s[5..7] + "-" + s[8..]
  {
  }

  /** Any year below 10000 and month and day below 100, printed zero-padded,
      form an accepted date (including impossible ones such as month 13). */
  lemma PaddedDateAccepted(year: nat, month: nat, day: nat)
    requires year < 10000 && month < 100 && day < 100
    ensures IsIsoDate(PadStart(Decimal(year), 4, '0') + "-" + Pad2(month) + "-" + Pad2(day))
  {
    DecimalLength(year, 4);
    ValueOfPadStart(Decimal(year), 4);
    Pad2Small(month);
    Pad2Small(day);
    DateFromParts(PadStart(Decimal(year), 4, '0'), Pad2(month), Pad2(day));
  }

  /** Every hour 0-23 with every minute 0-59 is accepted, with or without a
      leading zero on the hour. */
  lemma ClockTimeAccepted(h: nat, m: nat, padded: bool)
    requires h < 24 && m < 60
    ensures IsClockTime(ClockTimeText(h, m, padded))
  {
    var hh := if padded then Pad2(h) else Decimal(h);
    MinuteDigits(m);
    HourDigits(h, padded);
    SplitAtColon(hh, Pad2(m));
  }

  lemma SplitAtColon(hh: string, mm: string)
    requires |mm| == 2
    ensures var s := hh + ":" + mm;
      |s| >= 3 && s[|s| - 3] == ':' && s[..|s| - 3] == hh && s[|s| - 2..] == mm
  {
  }

  lemma MinuteDigits(m: nat)
    requires m < 60
    ensures |Pad2(m)| == 2 && MinuteField(Pad2(m))
  {
    Pad2Small(m);
    ValueTwoDigits(Pad2(m));
  }

  lemma HourDigits(h: nat, padded: bool)
    requires h < 24
    ensures HourField(if padded then Pad2(h) else Decimal(h))
  {
    if padded {
      PaddedHourDigits(h);
    } else {
      PlainHourDigits(h);
    }
  }

  lemma PaddedHourDigits(h: nat)
    requires h < 24
    ensures HourField(Pad2(h))
  {
    Pad2Small(h);
    ValueTwoDigits(Pad2(h));
  }

  lemma PlainHourDigits(h: nat)
    requires h < 24
    ensures HourField(Decimal(h))
  {
    var t := Decimal(h);
    ValueOfDecimal(h);
    DecimalLength(h, 2);
    if |t| == 2 {
      ValueTwoDigits(t);
    }
  }

  /** Conversely, every accepted time is the text of an hour 0-23 and a minute
      0-59, written with or without a leading zero on the hour. */
  lemma ClockTimeRecognised(s: string)
    requires IsClockTime(s)
    ensures var hh := s[..|s| - 3]; var mm := s[|s| - 2..];
      && AllDigits(hh) && AllDigits(mm)
      && Value(hh) < 24 && Value(mm) < 60
      && (s == ClockTimeText(Value(hh), Value(mm), true)
          || s == ClockTimeText(Value(hh), Value(mm), false))
  {
    var hh := s[..|s| - 3];
    var mm := s[|s| - 2..];
    assert s == hh + ":" + mm;
    HourFieldMeaning(hh);
    MinuteFieldMeaning(mm);
  }

  lemma HourFieldMeaning(hh: string)
    requires HourField(hh)
    ensures AllDigits(hh) && Value(hh) < 24
    ensures hh == Pad2(Value(hh)) || hh == Decimal(Value(hh))
  {
    if |hh| == 1 {
      ShortHourMeaning(hh);
    } else {
      LongHourMeaning(hh);
    }
  }

  lemma ShortHourMeaning(hh: string)
    requires |hh| == 1 && IsDigit(hh[0])
    ensures AllDigits(hh) && Value(hh) < 10 && hh == Decimal(Value(hh))
  {
    DecimalOfValue(hh);
    ValueOneDigit(hh);
  }

  lemma LongHourMeaning(hh: string)
    requires |hh| == 2 && HourField(hh)
    ensures AllDigits(hh) && Value(hh) < 24 && hh == Pad2(Value(hh))
  {
    assert AllDigits(hh);
    ValueTwoDigits(hh);
    assert Value(hh) < 24 by {
      var a := DigitValue(hh[0]);
      var b := DigitValue(hh[1]);
      assert a <= 2 && (a == 2 ==> b <= 3);
    }
    Pad2OfValue(hh);
  }

  lemma MinuteFieldMeaning(mm: string)
    requires MinuteField(mm)
    ensures AllDigits(mm) && Value(mm) < 60 && mm == Pad2(Value(mm))
  {
    Pad2OfValue(mm);
    ValueTwoDigits(mm);
  }

  /** One schema check: no issue when `ok`, else the one issue. */
  function Check(ok: bool, issue: Issue): (issues: seq<Issue>)
    ensures issues == [] <==> ok
    ensures forall i :: i in issues <==> !ok && i == issue
  {
    if ok then [] else [issue]
  }

  /** The checks the booking schema runs, in field order. Email syntax is decided
      by the validation library and enters as `emailValid`. */
  function BookingIssues(req: BookingRequest, emailValid: bool): (issues: seq<Issue>)
    ensures issues == [] <==>
      && |req.name| >= 2 && emailValid && |req.phone| >= 5
      && IsIsoDate(req.date) && IsClockTime(req.time)
      && |req.services| >= 1 && req.agreed
    ensures DateFormat in issues <==> !IsIsoDate(req.date)
    ensures TimeFormat in issues <==> !IsClockTime(req.time)
    ensures DurationNotPositive !in issues
  {
    Check(|req.name| >= 2, NameTooShort)
    + Check(emailValid, InvalidEmail)
    + Check(|req.phone| >= 5, PhoneTooShort)
    + Check(IsIsoDate(req.date), DateFormat)
    + Check(IsClockTime(req.time), TimeFormat)
    + Check(|req.services| >= 1, NoServices)
    + Check(req.agreed, NotAgreed)
  }

  /** The duration the availability handler works with: the client's, or 60. */
  function RequestedDuration(req: AvailabilityRequest): int {
    req.duration.GetOr(60)
  }

  /** The checks the availability schema runs. */
  function AvailabilityIssues(req: AvailabilityRequest): (issues: seq<Issue>)
    ensures issues == [] <==> IsIsoDate(req.date) && RequestedDuration(req) > 0
    ensures req.duration == None ==> (issues == [] <==> IsIsoDate(req.date))
  {
    Check(IsIsoDate(req.date), DateFormat) + Check(RequestedDuration(req) > 0, DurationNotPositive)
  }

  /** The client address reported with a notification: the `CF-Connecting-IP`
      header when present and non-empty, else `unknown`. */
  function ClientIp(header: Option<string>): (ip: string)
    ensures ip != ""
    ensures header.Some? && header.value != "" ==> ip == header.value
    ensures header.None? || header.value == "" ==> ip == "unknown"
  {
    if header.Some? && header.value != "" then header.value else "unknown"
  }
}
