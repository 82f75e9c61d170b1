/** Video durations (background.js `parseDurationToSeconds`, `formatDuration`).
    The source matches `/PT(?:(\d+)H)?(?:(\d+)M)?(?:(\d+)S)?/` anywhere in the
    text; here that regular expression is a hand-written scanner: find the
    leftmost "PT", then read an optional `digits H`, `digits M`, `digits S` in
    that order. This is the time part of an ISO 8601 duration (section
    4.4.3.2 of ISO 8601:2004). A duration with a date part, such as
    "P1DT2H30M", has no "PT" in it and so reads 0 seconds
    (`DayPartReadsZero`). */
module Duration {
  import opened Wrappers
  import opened Text

  /** The index just past the leftmost "PT" at or after `from`. */
  function FindPT(s: string, from: nat): (r: Option<nat>)
    ensures r.Some? ==> from + 2 <= r.value <= |s| && OccursAt(s, "PT", r.value - 2)
    ensures r.Some? ==> forall i :: from <= i < r.value - 2 ==> !OccursAt(s, "PT", i)
    ensures r.None? ==> forall i :: from <= i ==> !OccursAt(s, "PT", i)
    decreases |s| - from
  {
    if from + 2 > |s| then None
    else if s[from] == 'P' && s[from + 1] == 'T' then
      assert s[from..from + 2] == "PT";
      Some(from + 2)
    else
      assert !OccursAt(s, "PT", from);
      FindPT(s, from + 1)
  }

  /** The length of the run of digits at the front of `t`. */
  function DigitRun(t: string): (k: nat)
    ensures k <= |t|
    ensures AllDigits(t[..k])
    ensures k < |t| ==> !IsDigit(t[k])
    decreases |t|
  {
    if |t| == 0 || !IsDigit(t[0]) then 0
    else
      var k := 1 + DigitRun(t[1..]);
      assert t[..k] == [t[0]] + t[1..][..k - 1];
      k
  }

  /** One optional group `(?:(\d+)U)?`: when a digit run followed by `unit`
      starts `t`, its value and the text after the unit; otherwise 0 and `t`
      unchanged (the group matches nothing). */
  function Component(t: string, unit: char): (string, nat) {
    var k := DigitRun(t);
    if 0 < k < |t| && t[k] == unit then (t[k + 1..], DecimalValue(t[..k])) else (t, 0)
  }

  /** `parseDurationToSeconds`: hours, minutes and seconds after the leftmost
      "PT", each optional; text without "PT" reads 0 seconds. */
  function ParseDuration(s: string): nat {
    match FindPT(s, 0)
    case None => 0
    case Some(i) =>
      var (t1, h) := Component(s[i..], 'H');
      var (t2, m) := Component(t1, 'M');
      var (_, sec) := Component(t2, 'S');
      h * 3600 + m * 60 + sec
  }

  /** Text without "PT" anywhere reads 0 seconds. */
  lemma ParseDurationWithoutPT(s: string)
    requires !Contains(s, "PT")
    ensures ParseDuration(s) == 0
  {
  }

  /** A duration with a day part has no "PT" in it and reads 0 seconds, as
      the source's regular expression does not match it. */
  lemma DayPartReadsZero()
    ensures ParseDuration("P1DT2H30M") == 0
  {
    var s := "P1DT2H30M";
    forall i | 0 <= i <= |s| - 2 ensures !OccursAt(s, "PT", i) {
      if i == 0 {
        assert s[1] != 'T';
      } else {
        assert s[i] != 'P';
      }
    }
    ParseDurationWithoutPT(s);
  }

  /** The shape `PT[nH][nM][nS]`, each component present or absent. */
  datatype IsoTime = IsoTime(hours: Option<nat>, minutes: Option<nat>, seconds: Option<nat>)

  function Part(p: Option<nat>, unit: char): string {
    match p
    case None => ""
    case Some(n) => Decimal(n) + [unit]
  }

  function IsoText(d: IsoTime): string {
    "PT" + Part(d.hours, 'H') + Part(d.minutes, 'M') + Part(d.seconds, 'S')
  }

  function TotalSeconds(d: IsoTime): nat {
    d.hours.GetOr(0) * 3600 + d.minutes.GetOr(0) * 60 + d.seconds.GetOr(0)
  }

  /** The digit run of a numeral followed by a non-digit is exactly that numeral. */
  lemma {:induction false} DigitRunOfNumeral(a: string, rest: string)
    requires AllDigits(a)
    requires |rest| > 0 && !IsDigit(rest[0])
    ensures DigitRun(a + rest) == |a|
    decreases |a|
  {
    if |a| > 0 {
      assert (a + rest)[1..] == a[1..] + rest;
      DigitRunOfNumeral(a[1..], rest);
    } else {
      assert a + rest == rest;
    }
  }

  /** `t` does not start with a digit run followed by `unit`. */
  predicate NoGroupFor(t: string, unit: char) {
    var k := DigitRun(t);
    !(0 < k < |t| && t[k] == unit)
  }

  /** Reading a group of `unit` from a rendered component followed by `tail`
      yields the component's value and leaves `tail`. */
  lemma ComponentOfPart(p: Option<nat>, unit: char, tail: string)
    requires !IsDigit(unit)
    requires p.None? ==> NoGroupFor(tail, unit)
    ensures Component(Part(p, unit) + tail, unit) == (tail, p.GetOr(0))
  {
    if p.Some? {
      var a := Decimal(p.value);
      var t := a + [unit] + tail;
      assert t == a + ([unit] + tail);
      DigitRunOfNumeral(a, [unit] + tail);
      assert t[..|a|] == a;
      assert t[|a| + 1..] == tail;
      DecimalRoundTrip(p.value);
    } else {
      assert Part(p, unit) + tail == tail;
    }
  }

  /** A rendered component of another unit (or nothing) is never read as a group of `unit`. */
  lemma NoGroupBeforeOtherUnit(p: Option<nat>, other: char, tail: string, unit: char)
    requires !IsDigit(other) && other != unit
    requires p.None? ==> NoGroupFor(tail, unit)
    ensures NoGroupFor(Part(p, other) + tail, unit)
  {
    if p.Some? {
      var a := Decimal(p.value);
      assert a + [other] + tail == a + ([other] + tail);
      DigitRunOfNumeral(a, [other] + tail);
    } else {
      assert Part(p, other) + tail == tail;
    }
  }

  /** Reading the three groups from the rendered components gives each
      component's value. */
  lemma ReadParts(d: IsoTime)
    ensures var t1 := Component(Part(d.hours, 'H') + (Part(d.minutes, 'M') + Part(d.seconds, 'S')), 'H');
      var t2 := Component(t1.0, 'M');
      var t3 := Component(t2.0, 'S');
      t1.1 == d.hours.GetOr(0) && t2.1 == d.minutes.GetOr(0) && t3.1 == d.seconds.GetOr(0)
  {
    var sPart := Part(d.seconds, 'S');
    var mPart := Part(d.minutes, 'M');
    assert NoGroupFor("", 'S');
    assert NoGroupFor("", 'M');
    assert NoGroupFor("", 'H');
    assert sPart + "" == sPart;
    NoGroupBeforeOtherUnit(d.seconds, 'S', "", 'M');
    NoGroupBeforeOtherUnit(d.seconds, 'S', "", 'H');
    NoGroupBeforeOtherUnit(d.minutes, 'M', sPart, 'H');
    ComponentOfPart(d.hours, 'H', mPart + sPart);
    ComponentOfPart(d.minutes, 'M', sPart);
    ComponentOfPart(d.seconds, 'S', "");
  }

  /** Text that starts with "PT" has its leftmost "PT" at the start. */
  lemma LeadingPT(rest: string)
    ensures FindPT("PT" + rest, 0) == Some(2)
  {
    var s := "PT" + rest;
    assert s[..2] == "PT";
    assert OccursAt(s, "PT", 0);
  }

  /** `parseDurationToSeconds("PT{h}H{m}M{s}S")`, any component optional, is
      `h * 3600 + m * 60 + s`. */
  lemma ParseIsoRoundTrip(d: IsoTime)
    ensures ParseDuration(IsoText(d)) == TotalSeconds(d)
  {
    var rest := Part(d.hours, 'H') + (Part(d.minutes, 'M') + Part(d.seconds, 'S'));
    assert IsoText(d) == "PT" + rest;
    assert ("PT" + rest)[2..] == rest;
    LeadingPT(rest);
    ReadParts(d);
  }

  /** `formatDuration` on a number of seconds: `h:mm:ss` from one hour on,
      else `m:ss`, minutes and seconds padded to two digits. */
  function FormatSeconds(total: nat): string {
    var h := total / 3600;
    var m := (total % 3600) / 60;
    var s := total % 60;
    if h > 0 then Decimal(h) + ":" + Pad2(m) + ":" + Pad2(s)
    else Decimal(m) + ":" + Pad2(s)
  }

  /** `formatDuration(iso)`. */
  function FormatDuration(iso: string): string {
    FormatSeconds(ParseDuration(iso))
  }

  /** Reads the fields of "h:mm:ss" or "m:ss" text into seconds; `None` for
      any other shape. */
  function ReadFields(f: seq<string>): Option<nat> {
    if |f| == 3 && AllDigits(f[0]) && AllDigits(f[1]) && AllDigits(f[2]) then
      Some(DecimalValue(f[0]) * 3600 + DecimalValue(f[1]) * 60 + DecimalValue(f[2]))
    else if |f| == 2 && AllDigits(f[0]) && AllDigits(f[1]) then
      Some(DecimalValue(f[0]) * 60 + DecimalValue(f[1]))
    else None
  }

  /** Reads "h:mm:ss" or "m:ss" text back into seconds. */
  function ReadClockText(s: string): Option<nat> {
    ReadFields(Split(s))
  }

  lemma NoColonInDigits(s: string)
    requires AllDigits(s)
    ensures ':' !in s
  {
    forall i | 0 <= i < |s| ensures s[i] != ':' {
      assert IsDigit(s[i]);
    }
  }

  /** Two colon-free fields joined by a colon split back into those fields. */
  lemma SplitTwo(a: string, b: string)
    requires AllDigits(a) && AllDigits(b)
    ensures Split(a + ":" + b) == [a, b]
  {
    NoColonInDigits(a);
    NoColonInDigits(b);
    SplitNoColon(b);
    SplitAtColon(a, b);
  }

  /** Three colon-free fields joined by colons split back into those fields. */
  lemma SplitThree(a: string, b: string, c: string)
    requires AllDigits(a) && AllDigits(b) && AllDigits(c)
    ensures Split(a + ":" + b + ":" + c) == [a, b, c]
  {
    NoColonInDigits(a);
    SplitTwo(b, c);
    assert a + ":" + b + ":" + c == a + ":" + (b + ":" + c);
    SplitAtColon(a, b + ":" + c);
  }

  /** Hours, minutes and seconds of a total: the minutes and seconds are
      below 60, they add back up to the total, there are hours exactly from
      3600 on, and below that the minutes are `total / 60`. */
  lemma ClockFields(total: nat)
    ensures (total % 3600) / 60 < 60 && total % 60 < 60
    ensures (total / 3600) * 3600 + ((total % 3600) / 60) * 60 + total % 60 == total
    ensures total / 3600 > 0 <==> total >= 3600
    ensures total < 3600 ==> (total % 3600) / 60 == total / 60
  {
    var h, r := total / 3600, total % 3600;
    var m, s := r / 60, r % 60;
    assert total == h * 3600 + r && 0 <= r < 3600;
    assert r == m * 60 + s && 0 <= s < 60;
    assert total == (h * 60 + m) * 60 + s;
    assert total % 60 == s;
  }

  /** "h:mm:ss" fields split back into their three numerals. */
  lemma ThreeFields(h: nat, m: nat, s: nat)
    requires m < 60 && s < 60
    ensures var f := Split(Decimal(h) + ":" + Pad2(m) + ":" + Pad2(s));
      && f == [Decimal(h), Pad2(m), Pad2(s)]
      && (forall i :: 1 <= i < |f| ==> |f[i]| == 2 && AllDigits(f[i]) && DecimalValue(f[i]) < 60)
  {
    Pad2RoundTrip(m);
    Pad2RoundTrip(s);
    SplitThree(Decimal(h), Pad2(m), Pad2(s));
  }

  /** "m:ss" fields split back into their two numerals. */
  lemma TwoFields(m: nat, s: nat)
    requires s < 60
    ensures var f := Split(Decimal(m) + ":" + Pad2(s));
      && f == [Decimal(m), Pad2(s)]
      && (forall i :: 1 <= i < |f| ==> |f[i]| == 2 && AllDigits(f[i]) && DecimalValue(f[i]) < 60)
  {
    Pad2RoundTrip(s);
    SplitTwo(Decimal(m), Pad2(s));
  }

  /** The fields of the formatted text: three from one hour on, else two;
      every field after the first has two digits and reads below 60. */
  lemma FormatSecondsFields(total: nat)
    ensures var f := Split(FormatSeconds(total));
      && (total >= 3600 ==> f == [Decimal(total / 3600), Pad2((total % 3600) / 60), Pad2(total % 60)])
      && (total < 3600 ==> f == [Decimal(total / 60), Pad2(total % 60)])
      && (forall i :: 1 <= i < |f| ==> |f[i]| == 2 && AllDigits(f[i]) && DecimalValue(f[i]) < 60)
  {
    var h, m, s := total / 3600, (total % 3600) / 60, total % 60;
    ClockFields(total);
    if h > 0 {
      ThreeFields(h, m, s);
    } else {
      TwoFields(m, s);
    }
  }

  /** Three fields read back as `h * 3600 + m * 60 + s`. */
  lemma ReadThreeFields(h: nat, m: nat, s: nat)
    requires m < 60 && s < 60
    ensures ReadClockText(Decimal(h) + ":" + Pad2(m) + ":" + Pad2(s)) == Some(h * 3600 + m * 60 + s)
  {
    ThreeFields(h, m, s);
    DecimalRoundTrip(h);
    Pad2RoundTrip(m);
    Pad2RoundTrip(s);
  }

  /** Two fields read back as `m * 60 + s`. */
  lemma ReadTwoFields(m: nat, s: nat)
    requires s < 60
    ensures ReadClockText(Decimal(m) + ":" + Pad2(s)) == Some(m * 60 + s)
  {
    TwoFields(m, s);
    DecimalRoundTrip(m);
    Pad2RoundTrip(s);
  }

  /** Reading the formatted text back gives the number of seconds again. */
  lemma FormatSecondsRoundTrip(total: nat)
    ensures ReadClockText(FormatSeconds(total)) == Some(total)
  {
    var h, m, s := total / 3600, (total % 3600) / 60, total % 60;
    ClockFields(total);
    if h > 0 {
      ReadThreeFields(h, m, s);
    } else {
      ReadTwoFields(m, s);
    }
  }
}
