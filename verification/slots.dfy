/** `generateAvailableSlots`: candidate appointment windows of a fixed working
    day. The source steps a fractional hour counter; this model steps a count of
    minutes since midnight, which is what the fractional counter approximates. */
module Slots {
  import opened Wrappers
  import opened Text
  import Schema

  /** 09:00 and 17:00 as minutes since midnight. */
  const OPEN: nat := 9 * 60
  const CLOSE: nat := 17 * 60

  /** A window in minutes since midnight. */
  datatype Window = Window(start: nat, end: nat)

  /** A window as the endpoint reports it. */
  datatype Slot = Slot(startTime: string, endTime: string)

  /** `HH:MM` for a minute count: hours and minutes each padded to two digits.
      Hours from 24 on are printed as they are (`25:10`), never wrapped. This is
      the slot renderer of `availability.ts`; `Schema.ClockTimeText` is the
      reading the booking form's time pattern accepts, which also allows an
      unpadded hour. `ClockTextIsClockTime` relates the two. */
  function ClockText(minutes: nat): string {
    Pad2(minutes / 60) + ":" + Pad2(minutes % 60)
  }

  /** Reads a minute count back from `H...H:MM`. */
  function ParseClockText(s: string): Option<nat> {
    if |s| >= 4 && s[|s| - 3] == ':' && AllDigits(s[..|s| - 3]) && AllDigits(s[|s| - 2..])
       && Value(s[|s| - 2..]) < 60
    then Some(Value(s[..|s| - 3]) * 60 + Value(s[|s| - 2..]))
    else None
  }

  /** Rendered times read back as the minute count they came from, so distinct
      minute counts never print alike. */
  lemma ClockTextRoundTrip(minutes: nat)
    ensures ParseClockText(ClockText(minutes)) == Some(minutes)
  {
    var h := minutes / 60;
    var m := minutes % 60;
    var hh := Pad2(h);
    var mm := Pad2(m);
    assert |hh| >= 1 && AllDigits(hh) && Value(hh) == h by {
      Pad2Value(h);
    }
    assert |mm| == 2 && AllDigits(mm) && Value(mm) == m by {
      Pad2Small(m);
    }
    ParseJoined(hh, mm);
  }

  /** Below midnight the slot renderer writes the padded reading of the hour
      and minute, so its text passes the booking form's `HH:MM` pattern. */
  lemma ClockTextIsClockTime(minutes: nat)
    requires minutes < 24 * 60
    ensures ClockText(minutes) == Schema.ClockTimeText(minutes / 60, minutes % 60, true)
    ensures Schema.IsClockTime(ClockText(minutes))
  {
    Schema.ClockTimeAccepted(minutes / 60, minutes % 60, true);
  }

  lemma ParseJoined(hh: string, mm: string)
    requires |hh| >= 1 && AllDigits(hh)
    requires |mm| == 2 && AllDigits(mm) && Value(mm) < 60
    ensures ParseClockText(hh + ":" + mm) == Some(Value(hh) * 60 + Value(mm))
  {
    var s := hh + ":" + mm;
    assert s[..|s| - 3] == hh;
    assert s[|s| - 2..] == mm;
  }

  /** The windows of a day starting at `start`, `duration` minutes each, as long
      as a window still STARTS before closing time. */
  function WindowsFrom(start: nat, duration: nat): (ws: seq<Window>)
    requires duration > 0
    ensures |ws| == 0 <==> start >= CLOSE
    decreases CLOSE - start
  {
    if start >= CLOSE then []
    else [Window(start, start + duration)] + WindowsFrom(start + duration, duration)
  }

  /** The windows from `start` tile the rest of the day: the first starts at
      `start`, each lasts `duration` and starts where the previous one ended,
      all start before closing time, and the last reaches closing time. */
  lemma {:induction false} WindowsFromShape(start: nat, duration: nat)
    requires duration > 0
    ensures var ws := WindowsFrom(start, duration);
      && (|ws| > 0 ==> ws[0].start == start)
      && (forall k :: 0 <= k < |ws| ==> ws[k].end == ws[k].start + duration)
      && (forall k :: 0 < k < |ws| ==> ws[k].start == ws[k - 1].end)
      && (forall k :: 0 <= k < |ws| ==> start <= ws[k].start < CLOSE)
      && (|ws| > 0 ==> ws[|ws| - 1].end >= CLOSE)
    decreases CLOSE - start
  {
    if start < CLOSE {
      var ws := WindowsFrom(start, duration);
      var rest := WindowsFrom(start + duration, duration);
      WindowsFromShape(start + duration, duration);
      assert ws == [Window(start, start + duration)] + rest;
      assert forall k :: 0 < k < |ws| ==> ws[k] == rest[k - 1];
    }
  }

  /** The windows of the working day for appointments of `duration` minutes. */
  function Windows(duration: nat): seq<Window>
    requires duration > 0
  {
    WindowsFrom(OPEN, duration)
  }

  function Render(w: Window): Slot {
    Slot(ClockText(w.start), ClockText(w.end))
  }

  /** `generateAvailableSlots(date, duration)`: the windows, rendered. The date
      takes no part in the result. The two ensures only spare the solver an
      unfolding; what the slots are is stated by `SlotCount` and `SlotAt`. */
  function AvailableSlots(date: string, duration: nat): (slots: seq<Slot>)
    requires duration > 0
    ensures |slots| == |Windows(duration)|
    ensures forall k :: 0 <= k < |slots| ==> slots[k] == Render(Windows(duration)[k])
  {
    var ws := Windows(duration);
    seq(|ws|, k requires 0 <= k < |ws| => Render(ws[k]))
  }

  /** The loop of the source, over a minute counter: starting at 09:00, emit a
      slot and step by `duration` while the counter is before 17:00. */
  method GenerateAvailableSlots(date: string, duration: nat) returns (slots: seq<Slot>)
    requires duration > 0
    ensures slots == AvailableSlots(date, duration)
  {
    ghost var ws := Windows(duration);
    WindowsFromShape(OPEN, duration);
    slots := [];
    var minute := OPEN;
    while minute < CLOSE
      invariant |slots| <= |ws|
      invariant forall k :: 0 <= k < |slots| ==> slots[k] == Render(ws[k])
      invariant |slots| < |ws| ==> minute == ws[|slots|].start
      invariant |slots| == |ws| ==> minute >= CLOSE
      decreases CLOSE - minute
    {
      ghost var i := |slots|;
      assert ws[i] == Window(minute, minute + duration);
      slots := slots + [Render(Window(minute, minute + duration))];
      minute := minute + duration;
    }
    assert |slots| == |ws|;
  }

  /** The k-th window starts k durations after 09:00. */
  lemma {:induction false} WindowStart(duration: nat, k: nat)
    requires duration > 0 && k < |Windows(duration)|
    ensures Windows(duration)[k].start == OPEN + k * duration
  {
    WindowsFromShape(OPEN, duration);
    if k > 0 {
      WindowStart(duration, k - 1);
      assert k * duration == (k - 1) * duration + duration;
    }
  }

  /** There are ceil(480 / duration) slots, and always at least one. */
  lemma SlotCount(duration: nat)
    requires duration > 0
    ensures |Windows(duration)| == (CLOSE - OPEN + duration - 1) / duration
    ensures |Windows(duration)| >= 1
  {
    var ws := Windows(duration);
    var n := |ws|;
    WindowsFromShape(OPEN, duration);
    WindowStart(duration, n - 1);
    assert (n - 1) * duration < CLOSE - OPEN;
    assert n * duration == (n - 1) * duration + duration;
    Text.ModUnique(CLOSE - OPEN + duration - 1, duration, n, CLOSE - OPEN + duration - 1 - n * duration);
  }

  /** The rendering of a time given digit by digit. */
  lemma ClockTextDigits(minutes: nat, h1: nat, h0: nat, m1: nat, m0: nat)
    requires h1 < 10 && h0 < 10 && m1 < 6 && m0 < 10
    requires minutes == (10 * h1 + h0) * 60 + 10 * m1 + m0
    ensures ClockText(minutes) == [DigitChar(h1), DigitChar(h0), ':', DigitChar(m1), DigitChar(m0)]
  {
    Text.ModUnique(minutes, 60, 10 * h1 + h0, 10 * m1 + m0);
    Pad2Digits(h1, h0);
    Pad2Digits(m1, m0);
  }

  /** A number below 100 pads to its two digits. */
  lemma Pad2Digits(d1: nat, d0: nat)
    requires d1 < 10 && d0 < 10
    ensures Pad2(10 * d1 + d0) == [DigitChar(d1), DigitChar(d0)]
  {
    var t := [DigitChar(d1), DigitChar(d0)];
    ValueTwoDigits(t);
    Pad2OfValue(t);
  }

  /** The first slot always opens at 09:00. */
  lemma FirstSlotAtNine(date: string, duration: nat)
    requires duration > 0
    ensures |AvailableSlots(date, duration)| >= 1
    ensures AvailableSlots(date, duration)[0].startTime == "09:00"
  {
    SlotCount(duration);
    ClockTextDigits(OPEN, 0, 9, 0, 0);
  }

  /** Consecutive slots touch: each starts at the time the previous one ends,
      so the day is covered without gaps or overlaps. */
  lemma SlotsContiguous(date: string, duration: nat, k: nat)
    requires duration > 0 && k + 1 < |AvailableSlots(date, duration)|
    ensures AvailableSlots(date, duration)[k + 1].startTime == AvailableSlots(date, duration)[k].endTime
  {
    var ws := Windows(duration);
    WindowsFromShape(OPEN, duration);
    assert ws[k + 1].start == ws[k].end;
  }

  /** The last window starts before 17:00 and ends at or after it; it ends at
      exactly 17:00 if and only if the duration divides the eight-hour day,
      and otherwise runs past closing by less than one duration. */
  lemma LastWindow(duration: nat)
    requires duration > 0
    ensures var ws := Windows(duration);
      && ws[|ws| - 1].start < CLOSE <= ws[|ws| - 1].end < CLOSE + duration
      && (ws[|ws| - 1].end == CLOSE <==> (CLOSE - OPEN) % duration == 0)
  {
    var ws := Windows(duration);
    var n := |ws|;
    WindowsFromShape(OPEN, duration);
    SlotCount(duration);
    WindowStart(duration, n - 1);
    assert n * duration == (n - 1) * duration + duration;
    if (CLOSE - OPEN) % duration == 0 {
      var q := (CLOSE - OPEN) / duration;
      assert CLOSE - OPEN == q * duration;
      Text.ModUnique(CLOSE - OPEN + duration - 1, duration, q, duration - 1);
    }
    if ws[n - 1].end == CLOSE {
      Text.ModUnique(CLOSE - OPEN, duration, n, 0);
    }
  }

  /** Every slot's start time is one the booking form accepts as a time. */
  lemma SlotStartBookable(date: string, duration: nat, k: nat)
    requires duration > 0 && k < |AvailableSlots(date, duration)|
    ensures Schema.IsClockTime(AvailableSlots(date, duration)[k].startTime)
  {
    var w := Windows(duration)[k];
    WindowsFromShape(OPEN, duration);
    assert AvailableSlots(date, duration)[k].startTime == ClockText(w.start);
    ClockTextIsClockTime(w.start);
  }

  /** The k-th slot is the window starting k durations after opening time. */
  lemma SlotAt(date: string, duration: nat, k: nat, start: nat)
    requires duration > 0 && k < |AvailableSlots(date, duration)|
    requires start == OPEN + k * duration
    ensures AvailableSlots(date, duration)[k] == Render(Window(start, start + duration))
  {
    var ws := Windows(duration);
    WindowsFromShape(OPEN, duration);
    WindowStart(duration, k);
    assert ws[k] == Window(start, start + duration);
  }

  /** Read back as minute counts, every slot starts strictly before 17:00 and
      ends exactly one duration after it starts. */
  lemma SlotBounds(date: string, duration: nat, k: nat)
    requires duration > 0 && k < |AvailableSlots(date, duration)|
    ensures var slot := AvailableSlots(date, duration)[k];
      && ParseClockText(slot.startTime).Some? && ParseClockText(slot.endTime).Some?
      && OPEN <= ParseClockText(slot.startTime).value < CLOSE
      && ParseClockText(slot.endTime).value == ParseClockText(slot.startTime).value + duration
  {
    var w := Windows(duration)[k];
    WindowsFromShape(OPEN, duration);
    assert AvailableSlots(date, duration)[k] == Render(w);
    RenderRoundTrip(w);
  }

  /** Both ends of a rendered window read back as the window's minute counts. */
  lemma RenderRoundTrip(w: Window)
    ensures ParseClockText(Render(w).startTime) == Some(w.start)
    ensures ParseClockText(Render(w).endTime) == Some(w.end)
  {
    ClockTextRoundTrip(w.start);
    ClockTextRoundTrip(w.end);
  }

  /** `SlotCount` for a count already worked out. */
  lemma SlotCountIs(duration: nat, n: nat)
    requires duration > 0 && (CLOSE - OPEN + duration - 1) / duration == n
    ensures |Windows(duration)| == n
  {
    SlotCount(duration);
  }

  /** The default duration gives exactly the eight hourly slots 09:00-10:00
      to 16:00-17:00. */
  lemma HourlySlots(date: string)
    ensures var s := AvailableSlots(date, 60);
      && |s| == 8
      && s[0] == Slot("09:00", "10:00") && s[1] == Slot("10:00", "11:00")
      && s[2] == Slot("11:00", "12:00") && s[3] == Slot("12:00", "13:00")
      && s[4] == Slot("13:00", "14:00") && s[5] == Slot("14:00", "15:00")
      && s[6] == Slot("15:00", "16:00") && s[7] == Slot("16:00", "17:00")
  {
    SlotsOfSixty(date, 60);
  }

  /** `HourlySlots`, with the duration passed in rather than written as a
      literal, so that the windows are not unfolded one by one. */
  lemma SlotsOfSixty(date: string, duration: nat)
    requires duration == 60
    ensures var s := AvailableSlots(date, duration);
      && |s| == 8
      && s[0] == Slot("09:00", "10:00") && s[1] == Slot("10:00", "11:00")
      && s[2] == Slot("11:00", "12:00") && s[3] == Slot("12:00", "13:00")
      && s[4] == Slot("13:00", "14:00") && s[5] == Slot("14:00", "15:00")
      && s[6] == Slot("15:00", "16:00") && s[7] == Slot("16:00", "17:00")
  {
    var s := AvailableSlots(date, duration);
    SlotCountIs(duration, 8);
    assert |s| == 8;
    assert s[0] == Slot("09:00", "10:00") by {
      SlotAt(date, duration, 0, 540);
      ClockTextDigits(540, 0, 9, 0, 0);
      ClockTextDigits(600, 1, 0, 0, 0);
    }
    assert s[1] == Slot("10:00", "11:00") by {
      SlotAt(date, duration, 1, 600);
      ClockTextDigits(600, 1, 0, 0, 0);
      ClockTextDigits(660, 1, 1, 0, 0);
    }
    assert s[2] == Slot("11:00", "12:00") by {
      SlotAt(date, duration, 2, 660);
      ClockTextDigits(660, 1, 1, 0, 0);
      ClockTextDigits(720, 1, 2, 0, 0);
    }
    assert s[3] == Slot("12:00", "13:00") by {
      SlotAt(date, duration, 3, 720);
      ClockTextDigits(720, 1, 2, 0, 0);
      ClockTextDigits(780, 1, 3, 0, 0);
    }
    assert s[4] == Slot("13:00", "14:00") by {
      SlotAt(date, duration, 4, 780);
      ClockTextDigits(780, 1, 3, 0, 0);
      ClockTextDigits(840, 1, 4, 0, 0);
    }
    assert s[5] == Slot("14:00", "15:00") by {
      SlotAt(date, duration, 5, 840);
      ClockTextDigits(840, 1, 4, 0, 0);
      ClockTextDigits(900, 1, 5, 0, 0);
    }
    assert s[6] == Slot("15:00", "16:00") by {
      SlotAt(date, duration, 6, 900);
      ClockTextDigits(900, 1, 5, 0, 0);
      ClockTextDigits(960, 1, 6, 0, 0);
    }
    assert s[7] == Slot("16:00", "17:00") by {
      SlotAt(date, duration, 7, 960);
      ClockTextDigits(960, 1, 6, 0, 0);
      ClockTextDigits(1020, 1, 7, 0, 0);
    }
  }

  /** A duration that does not divide the day: eleven 45-minute slots, the last
      one 16:30-17:15, running past closing time. */
  lemma FortyFiveMinuteSlots(date: string)
    ensures |AvailableSlots(date, 45)| == 11
    ensures AvailableSlots(date, 45)[10] == Slot("16:30", "17:15")
  {
    SlotsOfFortyFive(date, 45);
  }

  /** `FortyFiveMinuteSlots`, with the duration passed in. */
  lemma SlotsOfFortyFive(date: string, duration: nat)
    requires duration == 45
    ensures |AvailableSlots(date, duration)| == 11
    ensures AvailableSlots(date, duration)[10] == Slot("16:30", "17:15")
  {
    SlotCountIs(duration, 11);
    SlotAt(date, duration, 10, 990);
    ClockTextDigits(990, 1, 6, 3, 0);
    ClockTextDigits(1035, 1, 7, 1, 5);
  }

  /** The date takes no part in the slots offered. */
  lemma SlotsIgnoreDate(d1: string, d2: string, duration: nat)
    requires duration > 0
    ensures AvailableSlots(d1, duration) == AvailableSlots(d2, duration)
  {
  }
}
