/**
 * The daily slot-availability filter of the calendar service.
 *
 * For one day the service walks the working hours 9 to 17 in one-hour steps,
 * renders each slot's start and end as UTC timestamps
 * (`<date>T<HH>:00:00Z`) and keeps a slot only when no busy interval of the
 * calendar overlaps it under the strict test
 * `slotStart < busyEnd && slotEnd > busyStart`.
 *
 * All times are integers: milliseconds since midnight UTC of the requested
 * date, which is what `getTime()` yields up to a constant offset for the day.
 */
module GoogleCalendar {
  import opened Wrappers

  /** The working day: slots start at StartHour and the last one ends at EndHour. */
  const StartHour: int := 9
  const EndHour: int := 17
  const MsPerHour: int := 3_600_000

  /** One busy period of the calendar, already read as milliseconds. */
  datatype BusyInterval = BusyInterval(start: int, end: int)

  /**
   * What came back from the free/busy request. `RequestFailed` stands for
   * every path that ends in the `catch`: the request threw, the status was
   * not ok, or the body could not be read. `Received` carries
   * `calendars.primary.busy`, which may be missing from the body.
   */
  datatype FreeBusyResponse =
    | RequestFailed
    | Received(busy: Option<seq<BusyInterval>>)

  /** A bookable slot as the service returns it: two timestamp strings. */
  datatype TimeSlot = TimeSlot(start: string, end: string)

  // ---------------------------------------------------------------------
  // Rendering an hour as text
  // ---------------------------------------------------------------------

  predicate IsDigit(c: char)
  {
    '0' <= c <= '9'
  }

  function DigitChar(d: int): (c: char)
    requires 0 <= d < 10
    ensures IsDigit(c) && DigitValue(c) == d
  {
    ('0' as int + d) as char
  }

  function DigitValue(c: char): int
  {
    c as int - '0' as int
  }

  /** The number a string of decimal digits spells, most significant digit first. */
  function DecimalValue(s: string): int
  {
    if s == [] then 0 else DecimalValue(s[..|s| - 1]) * 10 + DigitValue(s[|s| - 1])
  }

  /**
   * `n.toString()` for a non-negative integer: decimal digits that spell `n`,
   * with a leading zero only in "0" itself.
   */
  function ToDecimal(n: nat): (s: string)
    ensures |s| >= 1
    ensures forall i :: 0 <= i < |s| ==> IsDigit(s[i])
    ensures DecimalValue(s) == n
    ensures s[0] == '0' <==> n == 0
    ensures n == 0 ==> s == "0"
  {
    if n < 10 then [DigitChar(n)]
    else
      var high := ToDecimal(n / 10);
      var s := high + [DigitChar(n % 10)];
      assert s[..|s| - 1] == high;
      s
  }

  /** `s.padStart(width, fill)`: `s` unchanged at the right, `fill` added on the left up to `width`. */
  function PadStart(s: string, width: nat, fill: char): (r: string)
    ensures |r| == if |s| < width then width else |s|
    ensures r[|r| - |s|..] == s
    ensures forall i :: 0 <= i < |r| - |s| ==> r[i] == fill
  {
    if |s| >= width then s else seq(width - |s|, _ => fill) + s
  }

  /** The two-digit hour field of a slot timestamp: two digits that read back as the hour. */
  function HourText(h: int): (s: string)
    requires 0 <= h < 100
    ensures |s| == 2 && IsDigit(s[0]) && IsDigit(s[1])
    ensures DigitValue(s[0]) * 10 + DigitValue(s[1]) == h
  {
    if h < 10 then ['0', DigitChar(h)] else [DigitChar(h / 10), DigitChar(h % 10)]
  }

  /** The hour field is `hour.toString().padStart(2, "0")`: "09", not "9". */
  lemma HourTextIsPaddedDecimal(h: int)
    requires 0 <= h < 100
    ensures HourText(h) == PadStart(ToDecimal(h), 2, '0')
  {
    if h < 10 {
      assert ToDecimal(h) == [DigitChar(h)];
    } else {
      assert ToDecimal(h / 10) == [DigitChar(h / 10)];
      assert ToDecimal(h) == [DigitChar(h / 10), DigitChar(h % 10)];
    }
  }

  /** The timestamp string of hour `h` on `date`: `<date>T<HH>:00:00Z`. */
  function SlotText(date: string, h: int): string
    requires 0 <= h < 100
  {
    date + "T" + HourText(h) + ":00:00Z"
  }

  /**
   * `new Date(text).getTime()`, for the timestamps this service writes, as
   * milliseconds since midnight of `date`. Only the shape
   * `<date>T<HH>:00:00Z` with an hour up to 24 is read; the model does not
   * read any other text and gives None for it.
   */
  function ParseSlotTime(date: string, text: string): (r: Option<int>)
    ensures r.Some? ==> 0 <= r.value <= 24 * MsPerHour
  {
    var n := |date| + 1;
    if |text| == n + 9 && text[..n] == date + "T" && IsDigit(text[n]) && IsDigit(text[n + 1])
       && text[n + 2..] == ":00:00Z"
    then
      var hh := DigitValue(text[n]) * 10 + DigitValue(text[n + 1]);
      if hh <= 24 then Some(hh * MsPerHour) else None
    else
      None
  }

  /** Reading a slot timestamp back gives the hour it was written from. */
  lemma SlotTextRoundTrip(date: string, h: int)
    requires 0 <= h <= 24
    ensures ParseSlotTime(date, SlotText(date, h)) == Some(h * MsPerHour)
  {
    var text := SlotText(date, h);
    var n := |date| + 1;
    var hh := HourText(h);
    assert text == (date + "T") + hh + ":00:00Z";
    assert text[..n] == date + "T";
    assert text[n] == hh[0] && text[n + 1] == hh[1];
    assert text[n + 2..] == ":00:00Z";
  }

  /** The slot of hour `h` (lines 61-62): from `<date>T<h>:00:00Z` to `<date>T<h + 1>:00:00Z`. */
  function MakeSlot(date: string, h: int): TimeSlot
    requires 0 <= h < 24
  {
    TimeSlot(SlotText(date, h), SlotText(date, h + 1))
  }

  /**
   * The two timestamps of a slot read back as the start of hour `h` and of
   * hour `h + 1`: every slot lasts exactly one hour.
   */
  lemma SlotLastsOneHour(date: string, h: int)
    requires 0 <= h < 24
    ensures ParseSlotTime(date, MakeSlot(date, h).start) == Some(h * MsPerHour)
    ensures ParseSlotTime(date, MakeSlot(date, h).end) == Some((h + 1) * MsPerHour)
    ensures ParseSlotTime(date, MakeSlot(date, h).end).value
            - ParseSlotTime(date, MakeSlot(date, h).start).value == MsPerHour
  {
    SlotTextRoundTrip(date, h);
    SlotTextRoundTrip(date, h + 1);
  }

  // ---------------------------------------------------------------------
  // Overlap
  // ---------------------------------------------------------------------

  /** The strict conflict test: touching at an end point is not a conflict. */
  predicate Overlaps(slotStart: int, slotEnd: int, busy: BusyInterval)
  {
    slotStart < busy.end && slotEnd > busy.start
  }

  /** `busyTimes.some(...)`: some busy interval overlaps the slot. */
  function AnyOverlap(busyTimes: seq<BusyInterval>, slotStart: int, slotEnd: int): (r: bool)
    ensures r <==> exists i :: 0 <= i < |busyTimes| && Overlaps(slotStart, slotEnd, busyTimes[i])
  {
    if busyTimes == [] then false
    else Overlaps(slotStart, slotEnd, busyTimes[0]) || AnyOverlap(busyTimes[1..], slotStart, slotEnd)
  }

  /** Hour `h` is free when no busy interval overlaps the hour from `h` to `h + 1`. */
  predicate HourFree(busyTimes: seq<BusyInterval>, h: int)
  {
    !AnyOverlap(busyTimes, h * MsPerHour, (h + 1) * MsPerHour)
  }

  /**
   * The test of lines 65-72 on a rendered slot: its times are read back from
   * its strings, and a time that does not parse (NaN) makes every
   * comparison false, so nothing conflicts with it.
   */
  predicate SlotAvailable(busyTimes: seq<BusyInterval>, date: string, slot: TimeSlot)
  {
    var slotStartTime := ParseSlotTime(date, slot.start);
    var slotEndTime := ParseSlotTime(date, slot.end);
    !(slotStartTime.Some? && slotEndTime.Some?
      && AnyOverlap(busyTimes, slotStartTime.value, slotEndTime.value))
  }

  /** On the slot of hour `h`, the string-level test is exactly "hour `h` is free". */
  lemma SlotAvailableIffHourFree(busyTimes: seq<BusyInterval>, date: string, h: int)
    requires 0 <= h < 24
    ensures SlotAvailable(busyTimes, date, MakeSlot(date, h)) <==> HourFree(busyTimes, h)
  {
    SlotLastsOneHour(date, h);
  }

  // ---------------------------------------------------------------------
  // Specification of the loop
  // ---------------------------------------------------------------------

  /** The free hours of `lo .. hi - 1`, in increasing order: what the loop has kept once it reached `hi`. */
  function FreeHours(busyTimes: seq<BusyInterval>, lo: int, hi: int): (r: seq<int>)
    ensures forall i :: 0 <= i < |r| ==> lo <= r[i] < hi
    decreases hi - lo
  {
    if hi <= lo then []
    else FreeHours(busyTimes, lo, hi - 1) + (if HourFree(busyTimes, hi - 1) then [hi - 1] else [])
  }

  /** The hours whose slot the service offers for the day. */
  function AvailableHours(busyTimes: seq<BusyInterval>): seq<int>
  {
    FreeHours(busyTimes, StartHour, EndHour)
  }

  /** `data.calendars?.primary?.busy || []`: missing busy data counts as no busy time. */
  function BusyTimes(response: FreeBusyResponse): (busyTimes: seq<BusyInterval>)
    requires response.Received?
    ensures response.busy.None? ==> busyTimes == []
    ensures response.busy.Some? ==> busyTimes == response.busy.value
  {
    match response.busy
    case None => []
    case Some(b) => b
  }

  lemma {:induction false} FreeHoursMembers(busyTimes: seq<BusyInterval>, lo: int, hi: int, h: int)
    ensures h in FreeHours(busyTimes, lo, hi) <==> lo <= h < hi && HourFree(busyTimes, h)
    decreases hi - lo
  {
    if hi > lo {
      FreeHoursMembers(busyTimes, lo, hi - 1, h);
    }
  }

  lemma {:induction false} FreeHoursIncreasing(busyTimes: seq<BusyInterval>, lo: int, hi: int)
    ensures |FreeHours(busyTimes, lo, hi)| <= if hi <= lo then 0 else hi - lo
    ensures var r := FreeHours(busyTimes, lo, hi);
            forall i, j :: 0 <= i < j < |r| ==> r[i] < r[j]
    decreases hi - lo
  {
    if hi > lo {
      FreeHoursIncreasing(busyTimes, lo, hi - 1);
      var prev := FreeHours(busyTimes, lo, hi - 1);
      forall i | 0 <= i < |prev|
        ensures prev[i] < hi - 1
      {
        FreeHoursMembers(busyTimes, lo, hi - 1, prev[i]);
      }
    }
  }

  /** Soundness and completeness: an hour is offered exactly when it is a working hour whose slot meets no busy interval. */
  lemma {:induction false} AvailableHoursExact(busyTimes: seq<BusyInterval>, h: int)
    ensures h in AvailableHours(busyTimes) <==>
              StartHour <= h < EndHour
              && forall i :: 0 <= i < |busyTimes| ==> !Overlaps(h * MsPerHour, (h + 1) * MsPerHour, busyTimes[i])
  {
    FreeHoursMembers(busyTimes, StartHour, EndHour, h);
  }

  /** The offered hours strictly increase and there are at most eight of them. */
  lemma {:induction false} AvailableHoursOrdered(busyTimes: seq<BusyInterval>)
    ensures |AvailableHours(busyTimes)| <= EndHour - StartHour
    ensures var r := AvailableHours(busyTimes);
            forall i, j :: 0 <= i < j < |r| ==> r[i] < r[j]
  {
    FreeHoursIncreasing(busyTimes, StartHour, EndHour);
  }

  /** With no busy time every working hour is offered, 09-10 through 16-17. */
  lemma NoBusyTimeAllSlots()
    ensures AvailableHours([]) == [9, 10, 11, 12, 13, 14, 15, 16]
  {
    FreeHoursWithoutBusyTime(StartHour, EndHour);
    var r := AvailableHours([]);
    assert |r| == 8 && forall i :: 0 <= i < 8 ==> r[i] == 9 + i;
  }

  lemma {:induction false} FreeHoursWithoutBusyTime(lo: int, hi: int)
    requires lo <= hi
    ensures FreeHours([], lo, hi) == seq(hi - lo, i => lo + i)
    decreases hi - lo
  {
    if hi > lo {
      FreeHoursWithoutBusyTime(lo, hi - 1);
      assert HourFree([], hi - 1);
    }
  }

  /**
   * A busy interval that only touches the slot of hour `h` (it ends where the
   * slot starts or starts where it ends) makes no difference to whether that
   * slot is offered, whatever the other busy intervals are.
   */
  lemma TouchingBusyKeepsSlot(busyTimes: seq<BusyInterval>, touching: BusyInterval, h: int)
    requires touching.end == h * MsPerHour || touching.start == (h + 1) * MsPerHour
    ensures h in AvailableHours(busyTimes + [touching]) <==> h in AvailableHours(busyTimes)
  {
    var more := busyTimes + [touching];
    assert !Overlaps(h * MsPerHour, (h + 1) * MsPerHour, touching);
    assert HourFree(more, h) <==> HourFree(busyTimes, h) by {
      if AnyOverlap(more, h * MsPerHour, (h + 1) * MsPerHour) {
        var i :| 0 <= i < |more| && Overlaps(h * MsPerHour, (h + 1) * MsPerHour, more[i]);
        assert more[i] == busyTimes[i];
      }
      if AnyOverlap(busyTimes, h * MsPerHour, (h + 1) * MsPerHour) {
        var i :| 0 <= i < |busyTimes| && Overlaps(h * MsPerHour, (h + 1) * MsPerHour, busyTimes[i]);
        assert more[i] == busyTimes[i];
      }
    }
    FreeHoursMembers(more, StartHour, EndHour, h);
    FreeHoursMembers(busyTimes, StartHour, EndHour, h);
  }

  /** A busy interval that covers any part of the slot of hour `h` takes that slot away. */
  lemma OverlappingBusyRemovesSlot(busyTimes: seq<BusyInterval>, h: int, k: int)
    requires 0 <= k < |busyTimes|
    requires Overlaps(h * MsPerHour, (h + 1) * MsPerHour, busyTimes[k])
    ensures h !in AvailableHours(busyTimes)
  {
    AvailableHoursExact(busyTimes, h);
  }

  // ---------------------------------------------------------------------
  // The service
  // ---------------------------------------------------------------------

  class GoogleCalendarService {
    /** The OAuth token sent with every request; set once by the constructor. */
    const accessToken: string

    constructor(accessToken: string)
      ensures this.accessToken == accessToken
    {
      this.accessToken := accessToken;
    }

    /**
     * `getAvailableSlots(date)`, with the free/busy request's outcome given
     * as `response`. A failed request yields no slots; otherwise the slots
     * are those of the available hours, in order.
     */
    method GetAvailableSlots(date: string, response: FreeBusyResponse) returns (slots: seq<TimeSlot>)
      ensures response.RequestFailed? ==> slots == []
      ensures response.Received? ==>
                var hours := AvailableHours(BusyTimes(response));
                |slots| == |hours| && forall i :: 0 <= i < |slots| ==> slots[i] == MakeSlot(date, hours[i])
    {
      if response.RequestFailed? {
        return [];
      }
      var busyTimes := BusyTimes(response);
      slots := [];
      ghost var hours: seq<int> := [];
      var hour := StartHour;
      while hour < EndHour
        invariant StartHour <= hour <= EndHour
        invariant hours == FreeHours(busyTimes, StartHour, hour)
        invariant |slots| == |hours|
        invariant forall i :: 0 <= i < |slots| ==> slots[i] == MakeSlot(date, hours[i])
      {
        var slot := MakeSlot(date, hour);
        var isAvailable := SlotAvailable(busyTimes, date, slot);
        SlotAvailableIffHourFree(busyTimes, date, hour);
        if isAvailable {
          slots := slots + [slot];
          hours := hours + [hour];
        }
        hour := hour + 1;
      }
    }
  }
}
