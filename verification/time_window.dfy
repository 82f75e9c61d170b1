/** Lunch-window detection (background.js `isLunchTime`, `minutesUntilLunch`).
    The current minute of the day, `now.getHours() * 60 + now.getMinutes()`,
    is a parameter instead of a clock read. */
module TimeWindow {
  import opened Wrappers
  import opened Text

  const MinutesPerDay: nat := 24 * 60

  /** A minute of the day, as `getHours() * 60 + getMinutes()` yields. */
  predicate IsMinuteOfDay(m: int) {
    0 <= m < MinutesPerDay
  }

  /** `Number(field)` for one field of a split time string. Digit runs read as
      decimal and the empty field reads 0; anything else is NaN, here `None`. */
  function FieldNumber(f: string): (r: Option<nat>)
    ensures r.Some? <==> AllDigits(f)
    ensures r.Some? ==> r.value == DecimalValue(f)
  {
    if AllDigits(f) then Some(DecimalValue(f)) else None
  }

  /** `Number` reads back every decimal numeral, padded or not, and the empty
      field as 0. */
  lemma FieldNumberReadsNumerals(n: nat)
    ensures FieldNumber(Decimal(n)) == Some(n)
    ensures n < 100 ==> FieldNumber(Pad2(n)) == Some(n)
    ensures FieldNumber("") == Some(0)
  {
    DecimalRoundTrip(n);
    if n < 100 {
      Pad2RoundTrip(n);
    }
  }

  /** `const [h, m] = s.split(':').map(Number); h * 60 + m`. A missing minute
      field is `undefined`, so the sum is NaN, here `None`. */
  function ClockMinutes(s: string): Option<nat> {
    var parts := Split(s);
    if |parts| < 2 then None
    else
      match (FieldNumber(parts[0]), FieldNumber(parts[1]))
      case (Some(h), Some(m)) => Some(h * 60 + m)
      case _ => None
  }

  /** The "HH:MM" text an `<input type="time">` produces. */
  function ClockText(h: nat, m: nat): string {
    Pad2(h) + ":" + Pad2(m)
  }

  /** Reading "HH:MM" back gives the minute of the day it names. */
  lemma ClockTextRoundTrip(h: nat, m: nat)
    requires h < 24 && m < 60
    ensures ClockMinutes(ClockText(h, m)) == Some(h * 60 + m)
    ensures IsMinuteOfDay(h * 60 + m)
  {
    Pad2RoundTrip(h);
    Pad2RoundTrip(m);
    assert ':' !in Pad2(h) by {
      forall i | 0 <= i < |Pad2(h)| ensures Pad2(h)[i] != ':' {
        assert IsDigit(Pad2(h)[i]);
      }
    }
    assert ':' !in Pad2(m) by {
      forall i | 0 <= i < |Pad2(m)| ensures Pad2(m)[i] != ':' {
        assert IsDigit(Pad2(m)[i]);
      }
    }
    SplitAtColon(Pad2(h), Pad2(m));
    SplitNoColon(Pad2(m));
  }

  /** `isLunchTime`: the current minute lies in the half-open window
      [start, end). NaN on either side makes both comparisons false. */
  function IsLunchTime(lunchStart: string, lunchEnd: string, now: int): (r: bool)
    ensures r ==> ClockMinutes(lunchStart).Some? && ClockMinutes(lunchEnd).Some?
    ensures r ==> ClockMinutes(lunchStart).value <= now < ClockMinutes(lunchEnd).value
  {
    match (ClockMinutes(lunchStart), ClockMinutes(lunchEnd))
    case (Some(start), Some(end)) => start <= now && now < end
    case _ => false
  }

  /** For well-formed "HH:MM" settings the window is exactly [start, end):
      true at the start minute, false at the end minute, and never true when
      the start is not before the end (a window across midnight is empty). */
  lemma LunchWindowIsHalfOpen(sh: nat, sm: nat, eh: nat, em: nat, now: int)
    requires sh < 24 && sm < 60 && eh < 24 && em < 60
    ensures IsLunchTime(ClockText(sh, sm), ClockText(eh, em), now)
            <==> sh * 60 + sm <= now < eh * 60 + em
    ensures eh * 60 + em <= sh * 60 + sm ==> !IsLunchTime(ClockText(sh, sm), ClockText(eh, em), now)
  {
    ClockTextRoundTrip(sh, sm);
    ClockTextRoundTrip(eh, em);
  }

  /** The minute of the day `k` minutes after `now`. */
  function ClockAfter(now: int, k: int): int {
    (now + k) % MinutesPerDay
  }

  /** `minutesUntilLunch`: `start - now` when positive, else one day more.
      NaN from an unreadable start is `None`. */
  function MinutesUntilLunch(lunchStart: string, now: int): (r: Option<int>)
    ensures r.Some? <==> ClockMinutes(lunchStart).Some?
  {
    match ClockMinutes(lunchStart)
    case None => None
    case Some(start) =>
      var diff := start - now;
      Some(if diff > 0 then diff else MinutesPerDay + diff)
  }

  /** For minutes of the day, the result is the number of minutes until the
      clock next shows the start minute: it lies in 1..1440, the clock shows
      the start after that many minutes and at no earlier positive minute.
      At the start minute itself it is a full day, 1440, not 0. */
  lemma MinutesUntilLunchIsNextStart(lunchStart: string, now: int)
    requires IsMinuteOfDay(now)
    requires ClockMinutes(lunchStart).Some? && IsMinuteOfDay(ClockMinutes(lunchStart).value)
    ensures MinutesUntilLunch(lunchStart, now).Some?
    ensures 1 <= MinutesUntilLunch(lunchStart, now).value <= MinutesPerDay
    ensures ClockAfter(now, MinutesUntilLunch(lunchStart, now).value) == ClockMinutes(lunchStart).value
    ensures forall k :: 1 <= k < MinutesUntilLunch(lunchStart, now).value ==>
              ClockAfter(now, k) != ClockMinutes(lunchStart).value
    ensures now == ClockMinutes(lunchStart).value ==> MinutesUntilLunch(lunchStart, now).value == MinutesPerDay
  {
    var start := ClockMinutes(lunchStart).value;
    var r := MinutesUntilLunch(lunchStart, now).value;
    forall k | 1 <= k < r ensures ClockAfter(now, k) != start {
      if now + k < MinutesPerDay {
        assert ClockAfter(now, k) == now + k;
      } else {
        assert ClockAfter(now, k) == now + k - MinutesPerDay;
      }
    }
    if start - now > 0 {
      assert ClockAfter(now, r) == start;
    } else {
      assert now + r == start + MinutesPerDay;
      assert ClockAfter(now, r) == start;
    }
  }

  /** One minute later the wait is one minute shorter, until the start is reached. */
  lemma MinutesUntilLunchCountsDown(lunchStart: string, now: int, k: nat)
    requires IsMinuteOfDay(now)
    requires ClockMinutes(lunchStart).Some? && IsMinuteOfDay(ClockMinutes(lunchStart).value)
    requires k < MinutesUntilLunch(lunchStart, now).value
    ensures MinutesUntilLunch(lunchStart, ClockAfter(now, k)).Some?
    ensures MinutesUntilLunch(lunchStart, ClockAfter(now, k)).value
            == MinutesUntilLunch(lunchStart, now).value - k
  {
    var start := ClockMinutes(lunchStart).value;
    if now + k < MinutesPerDay {
      assert ClockAfter(now, k) == now + k;
    } else {
      assert ClockAfter(now, k) == now + k - MinutesPerDay;
    }
  }
}
