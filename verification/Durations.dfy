/** Duration text (model/time.rs): the fixed-unit part of the lexical form in section 3.2.6 of XML Schema
    Part 2, days to seconds with a fraction of up to nine digits. */
module Durations {
  import opened Wrappers
  import opened Text

  const U64_LIMIT := 0x1_0000_0000_0000_0000
  const BILLION := 1_000_000_000

  /** Seconds and nanoseconds. */
  datatype Duration = Duration(seconds: nat, nanos: nat)

  predicate Representable(d: Duration) { d.seconds <= 18_446_744_073_709_551_615 && d.nanos <= 999_999_999 }

  // ---- components ---------------------------------------------------------------------------

  predicate Numeral(text: string) { text != "" && AllDigits(text) }

  /** parse_unsigned: digits only, and the number fits 64 bits. */
  function ParseUnsigned(text: string): Option<nat> {
    if !Numeral(text) || Value(text) >= U64_LIMIT then None else Some(Value(text))
  }

  predicate Fraction(text: string) { Numeral(text) && |text| <= 9 }

  lemma ZerosAreDigits(text: string, n: nat)
    requires AllDigits(text)
    ensures AllDigits(text + Zeros(n))
  {
  }

  /** A fraction, filled up with zeros to nine digits. */
  function Nanos(fraction: string): nat
    requires Fraction(fraction)
  {
    ZerosAreDigits(fraction, 9 - |fraction|);
    Value(fraction + Zeros(9 - |fraction|))
  }

  /** parse_seconds. */
  function ParseSeconds(text: string): Option<(nat, nat)> {
    var parts := SplitOnce(text, '.');
    var whole := ParseUnsigned(if parts.Some? then parts.value.0 else text);
    if whole.None? then None
    else if parts.None? then Some((whole.value, 0))
    else if !Fraction(parts.value.1) then None
    else Some((whole.value, Nanos(parts.value.1)))
  }

  // ---- the parser ------------------------------------------------------------------------------

  datatype Times = Times(hours: nat, minutes: nat, seconds: nat, nanos: nat, components: nat)

  const NO_TIMES := Times(0, 0, 0, 0, 0)

  function Order(c: char): nat { if c == 'H' then 1 else if c == 'M' then 2 else if c == 'S' then 3 else 0 }

  predicate Skipped(c: char) { IsDigit(c) || c == '.' }

  /** A component that ends with the designator `c`. */
  function TakeComponent(t: Times, c: char, component: string): Option<Times> {
    if c == 'S' then
      var read := ParseSeconds(component);
      if read.None? then None
      else Some(t.(seconds := read.value.0, nanos := read.value.1, components := t.components + 1))
    else
      var read := ParseUnsigned(component);
      if read.None? then None
      else if c == 'H' then Some(t.(hours := read.value, components := t.components + 1))
      else Some(t.(minutes := read.value, components := t.components + 1))
  }

  /** The time part from here on; `pending` has been read since the last designator. */
  function ScanTime(rest: string, pending: string, last: nat, t: Times): Option<Times> {
    if rest == "" then (if pending == "" then Some(t) else None)
    else if Skipped(rest[0]) then ScanTime(rest[1..], pending + [rest[0]], last, t)
    else if Order(rest[0]) <= last then None
    else
      var taken := TakeComponent(t, rest[0], pending);
      if taken.None? then None else ScanTime(rest[1..], "", Order(rest[0]), taken.value)
  }

  function ParseTime(time: string): Option<Times> {
    var scanned := ScanTime(time, "", 0, NO_TIMES);
    if scanned.Some? && scanned.value.components == 0 then None else scanned
  }

  function ParseDays(date: string): Option<nat> {
    if date == "" then Some(0)
    else if date[|date| - 1] != 'D' then None
    else ParseUnsigned(date[..|date| - 1])
  }

  function Total(days: nat, t: Times): nat { days * 86_400 + t.hours * 3_600 + t.minutes * 60 + t.seconds }

  /** The sum, with every overflow an error. */
  function Checked(days: nat, t: Times): Option<Duration> {
    if Total(days, t) >= U64_LIMIT then None else Some(Duration(Total(days, t), t.nanos))
  }

  function Combined(days: Option<nat>, times: Option<Times>): Option<Duration> {
    if days.None? || times.None? then None else Checked(days.value, times.value)
  }

  function Parsed(value: string): Option<Duration> {
    if value == "" || value[0] != 'P' || value == "P" then None
    else
      var parts := SplitOnce(value[1..], 'T');
      if parts.None? then Combined(ParseDays(value[1..]), Some(NO_TIMES))
      else if parts.value.1 == "" || 'T' in parts.value.1 then None
      else Combined(ParseDays(parts.value.0), ParseTime(parts.value.1))
  }

  /** checked_mul and checked_add, as u64 has them. */
  function CheckedMul(a: nat, b: nat): Option<nat> { if a * b < U64_LIMIT then Some(a * b) else None }
  function CheckedAdd(a: nat, b: nat): Option<nat> { if a + b < U64_LIMIT then Some(a + b) else None }

  /** The checked sum of parse_iso_duration. */
  function CheckedTotal(days: nat, t: Times): Option<nat> {
    var d, h, m := CheckedMul(days, 86_400), CheckedMul(t.hours, 3_600), CheckedMul(t.minutes, 60);
    if d.None? || h.None? then None
    else
      var dh := CheckedAdd(d.value, h.value);
      if dh.None? || m.None? then None
      else
        var dhm := CheckedAdd(dh.value, m.value);
        if dhm.None? then None else CheckedAdd(dhm.value, t.seconds)
  }

  /** Step by step or at the end, an overflow is noticed. */
  lemma OverflowIsNoticed(days: nat, t: Times)
    ensures CheckedTotal(days, t) == (if Total(days, t) < U64_LIMIT then Some(Total(days, t)) else None)
  {
    hide CheckedMul, CheckedAdd;
    Scaled(days, 86_400);
    Scaled(t.hours, 3_600);
    Scaled(t.minutes, 60);
    var d, h, m := days * 86_400, t.hours * 3_600, t.minutes * 60;
    Summed(d, h);
    Summed(d + h, m);
    Summed(d + h + m, t.seconds);
  }

  lemma Scaled(a: nat, b: nat)
    ensures CheckedMul(a, b) == (if a * b < U64_LIMIT then Some(a * b) else None)
  {
  }

  lemma Summed(a: nat, b: nat)
    ensures CheckedAdd(a, b) == (if a + b < U64_LIMIT then Some(a + b) else None)
  {
  }

  /** The designator loop of parse_iso_duration. */
  method ScanComponents(time: string) returns (times: Option<Times>)
    ensures times == ParseTime(time)
  {
    var t := NO_TIMES;
    var start, lastOrder := 0, 0;
    for index := 0 to |time|
      invariant start <= index
      invariant ScanTime(time, "", 0, NO_TIMES) == ScanTime(time[index..], time[start..index], lastOrder, t)
    {
      var suffix := time[index];
      assert time[index..][1..] == time[index + 1..];
      if Skipped(suffix) {
        assert time[start..index] + [suffix] == time[start..index + 1];
      } else {
        if Order(suffix) <= lastOrder {
          return None;
        }
        var taken := TakeComponent(t, suffix, time[start..index]);
        if taken.None? {
          return None;
        }
        t := taken.value;
        lastOrder := Order(suffix);
        start := index + 1;
        assert time[start..index + 1] == "";
      }
    }
    assert time[|time|..] == "";
    if t.components == 0 || start != |time| {
      return None;
    }
    times := Some(t);
  }

  /** parse_iso_duration. */
  method ParseIsoDuration(value: string) returns (r: Option<Duration>)
    ensures r == Parsed(value)
  {
    if value == "" || value[0] != 'P' {
      return None;
    }
    var body := value[1..];
    if body == "" {
      assert value == "P";
      return None;
    }
    var parts := SplitOnce(body, 'T');
    if parts.Some? && (parts.value.1 == "" || 'T' in parts.value.1) {
      return None;
    }
    var date := if parts.Some? then parts.value.0 else body;
    var days := ParseDays(date);
    if days.None? {
      return None;
    }
    var times := NO_TIMES;
    if parts.Some? {
      var scanned := ScanComponents(parts.value.1);
      if scanned.None? {
        return None;
      }
      times := scanned.value;
    }
    OverflowIsNoticed(days.value, times);
    var total := CheckedTotal(days.value, times);
    r := if total.None? then None else Some(Duration(total.value, times.nanos));
  }

  // ---- the lexical form ------------------------------------------------------------------------------------

  /** The time components of a duration text. */
  datatype TimeForm = TimeForm(hours: Option<string>, minutes: Option<string>, seconds: Option<string>, fraction: Option<string>)
  datatype Form = Form(days: Option<string>, time: TimeForm)

  const NO_TIME := TimeForm(None, None, None, None)

  predicate NumeralIfAny(text: Option<string>) { text.None? || Numeral(text.value) }

  predicate ValidTime(t: TimeForm) {
    && NumeralIfAny(t.hours) && NumeralIfAny(t.minutes) && NumeralIfAny(t.seconds)
    && (t.fraction.Some? ==> t.seconds.Some? && Fraction(t.fraction.value))
  }

  predicate Valid(f: Form) { NumeralIfAny(f.days) && ValidTime(f.time) && (f.days.Some? || f.time != NO_TIME) }

  function Part(text: Option<string>, designator: string): string {
    if text.None? then "" else text.value + designator
  }

  function TimeText(t: TimeForm): string {
    Part(t.hours, "H") + (Part(t.minutes, "M") + SecondsText(t))
  }

  function SecondsText(t: TimeForm): string {
    if t.seconds.None? then ""
    else t.seconds.value + (if t.fraction.None? then "" else "." + t.fraction.value) + "S"
  }

  function FormText(f: Form): string {
    "P" + (Part(f.days, "D") + (if f.time == NO_TIME then "" else "T" + TimeText(f.time)))
  }

  function ValueIfAny(text: Option<string>): nat
    requires NumeralIfAny(text)
  {
    if text.None? then 0 else Value(text.value)
  }

  /** What the form means, as exact numbers. */
  function Meaning(f: Form): Duration
    requires Valid(f)
  {
    Duration(ValueIfAny(f.days) * 86_400 + ValueIfAny(f.time.hours) * 3_600
             + ValueIfAny(f.time.minutes) * 60 + ValueIfAny(f.time.seconds),
             if f.time.fraction.None? then 0 else Nanos(f.time.fraction.value))
  }

  // ---- what the designator loop accepts ---------------------------------------------------------------------

  /** Only components that may follow a designator of this order. */
  predicate Follows(last: nat, t: TimeForm) {
    (last >= 1 ==> t.hours.None?) && (last >= 2 ==> t.minutes.None?) && (last >= 3 ==> t.seconds.None?)
  }

  function One(text: Option<string>): nat { if text.None? then 0 else 1 }

  /** The times after the components of a form have been read. */
  function Applied(t: Times, f: TimeForm): Times
    requires ValidTime(f)
  {
    Times(if f.hours.None? then t.hours else Value(f.hours.value),
          if f.minutes.None? then t.minutes else Value(f.minutes.value),
          if f.seconds.None? then t.seconds else Value(f.seconds.value),
          if f.fraction.Some? then Nanos(f.fraction.value) else if f.seconds.Some? then 0 else t.nanos,
          t.components + One(f.hours) + One(f.minutes) + One(f.seconds))
  }

  /** The text of one component and the form with it in front. */
  lemma SecondsAreForm(t: Times, component: string) returns (f: TimeForm)
    requires TakeComponent(t, 'S', component).Some?
    ensures ValidTime(f) && f.hours.None? && f.minutes.None? && f.seconds.Some?
    ensures TimeText(f) == component + "S" && TakeComponent(t, 'S', component).value == Applied(t, f)
  {
    var parts := SplitOnce(component, '.');
    if parts.Some? {
      SplitOnceJoins(component, '.');
      f := TimeForm(None, None, Some(parts.value.0), Some(parts.value.1));
      assert component == parts.value.0 + ("." + parts.value.1);
      assert TimeText(f) == "" + ("" + SecondsText(f));
    } else {
      f := TimeForm(None, None, Some(component), None);
      assert component + "" + "S" == component + "S";
      assert TimeText(f) == "" + ("" + SecondsText(f));
    }
  }

  lemma HoursInFront(t: Times, component: string, f: TimeForm)
    requires TakeComponent(t, 'H', component).Some? && ValidTime(f) && Follows(1, f)
    ensures var g := f.(hours := Some(component));
      ValidTime(g) && TimeText(g) == component + ['H'] + TimeText(f)
      && Applied(TakeComponent(t, 'H', component).value, f) == Applied(t, g)
  {
    assert TimeText(f) == "" + (Part(f.minutes, "M") + SecondsText(f)) == Part(f.minutes, "M") + SecondsText(f);
  }

  lemma MinutesInFront(t: Times, component: string, f: TimeForm)
    requires TakeComponent(t, 'M', component).Some? && ValidTime(f) && Follows(2, f)
    ensures var g := f.(minutes := Some(component));
      ValidTime(g) && TimeText(g) == component + ['M'] + TimeText(f)
      && Applied(TakeComponent(t, 'M', component).value, f) == Applied(t, g)
  {
    assert TimeText(f) == "" + ("" + SecondsText(f)) == SecondsText(f);
    var g := f.(minutes := Some(component));
    assert TimeText(g) == "" + (component + "M" + SecondsText(f)) == component + "M" + SecondsText(f);
  }

  lemma ComponentIsForm(t: Times, c: char, component: string, f: TimeForm, last: nat) returns (g: TimeForm)
    requires last < Order(c) && TakeComponent(t, c, component).Some? && ValidTime(f) && Follows(Order(c), f)
    ensures ValidTime(g) && Follows(last, g) && TimeText(g) == component + [c] + TimeText(f)
    ensures Applied(TakeComponent(t, c, component).value, f) == Applied(t, g)
  {
    hide TakeComponent;
    if c == 'S' {
      g := SecondsAreForm(t, component);
      assert TimeText(f) == "" && component + [c] + "" == component + "S";
    } else if c == 'M' {
      g := f.(minutes := Some(component));
      MinutesInFront(t, component, f);
    } else {
      g := f.(hours := Some(component));
      HoursInFront(t, component, f);
    }
  }

  /** Whatever the loop accepts is the text of a form, and the loop reads its numbers. */
  lemma {:induction false} ScanIsForm(rest: string, pending: string, last: nat, t: Times) returns (f: TimeForm)
    requires ScanTime(rest, pending, last, t).Some?
    ensures ValidTime(f) && Follows(last, f) && TimeText(f) == pending + rest
    ensures ScanTime(rest, pending, last, t).value == Applied(t, f)
    decreases |rest|
  {
    hide TakeComponent, TimeText, Applied, ValidTime, Follows;
    if rest == "" {
      f := NO_TIME;
      NothingIsForm(t, last);
    } else if Skipped(rest[0]) {
      f := ScanIsForm(rest[1..], pending + [rest[0]], last, t);
      Regroup(pending, rest);
    } else {
      var taken := TakeComponent(t, rest[0], pending);
      var g := ScanIsForm(rest[1..], "", Order(rest[0]), taken.value);
      f := ComponentIsForm(t, rest[0], pending, g, last);
      assert "" + rest[1..] == rest[1..];
      Regroup(pending, rest);
    }
  }

  lemma NothingIsForm(t: Times, last: nat)
    ensures ValidTime(NO_TIME) && Follows(last, NO_TIME) && TimeText(NO_TIME) == "" && Applied(t, NO_TIME) == t
  {
  }

  lemma Regroup(pending: string, rest: string)
    requires rest != ""
    ensures pending + [rest[0]] + rest[1..] == pending + rest
  {
  }

  lemma {:induction false} DigitsAreSkipped(component: string, rest: string, pending: string, last: nat, t: Times)
    requires forall c <- component :: Skipped(c)
    ensures ScanTime(component + rest, pending, last, t) == ScanTime(rest, pending + component, last, t)
    decreases |component|
  {
    if component == "" {
      assert component + rest == rest && pending + component == pending;
    } else {
      var c, others := component[0], component[1..];
      assert component == [c] + others;
      assert (component + rest)[1..] == others + rest;
      DigitsAreSkipped(others, rest, pending + [c], last, t);
      assert (pending + [c]) + others == pending + component;
    }
  }

  lemma DesignatorIsRead(c: char, rest: string, component: string, last: nat, t: Times)
    requires Order(c) > last && TakeComponent(t, c, component).Some?
    ensures ScanTime([c] + rest, component, last, t) == ScanTime(rest, "", Order(c), TakeComponent(t, c, component).value)
  {
    assert ([c] + rest)[1..] == rest;
  }

  lemma ComponentIsScanned(component: string, c: char, rest: string, last: nat, t: Times)
    requires (forall x <- component :: Skipped(x)) && Order(c) > last && TakeComponent(t, c, component).Some?
    ensures ScanTime(component + [c] + rest, "", last, t)
            == ScanTime(rest, "", Order(c), TakeComponent(t, c, component).value)
  {
    hide ScanTime, TakeComponent;
    DigitsAreSkipped(component, [c] + rest, "", last, t);
    DesignatorIsRead(c, rest, component, last, t);
    assert component + [c] + rest == component + ([c] + rest);
    assert "" + component == component;
  }

  lemma SecondsAreTaken(t: Times, f: TimeForm)
    requires ValidTime(f) && f.hours.None? && f.minutes.None? && f.seconds.Some? && Value(f.seconds.value) < U64_LIMIT
    ensures var component := f.seconds.value + (if f.fraction.None? then "" else "." + f.fraction.value);
      && (forall c <- component :: Skipped(c))
      && TimeText(f) == component + ['S'] + ""
      && TakeComponent(t, 'S', component) == Some(Applied(t, f))
  {
    var whole := f.seconds.value;
    if f.fraction.Some? {
      var component := whole + "." + f.fraction.value;
      assert whole + ("." + f.fraction.value) == component;
      SplitOnceFirst(whole, f.fraction.value, '.');
    } else {
      SplitOnceAbsent(whole, '.');
      assert whole + "" == whole;
    }
    assert TimeText(f) == "" + ("" + SecondsText(f));
  }

  /** The loop accepts the text of every form whose numbers fit. */
  lemma {:induction false} FormIsScanned(f: TimeForm, last: nat, t: Times)
    requires ValidTime(f) && Follows(last, f)
    requires ValueIfAny(f.hours) < U64_LIMIT && ValueIfAny(f.minutes) < U64_LIMIT && ValueIfAny(f.seconds) < U64_LIMIT
    ensures ScanTime(TimeText(f), "", last, t) == Some(Applied(t, f))
    decreases One(f.hours) + One(f.minutes) + One(f.seconds)
  {
    if f.hours.Some? {
      var g, taken := f.(hours := None), t.(hours := Value(f.hours.value), components := t.components + 1);
      assert TakeComponent(t, 'H', f.hours.value) == Some(taken);
      hide ScanTime, TakeComponent, TimeText, Applied;
      FormIsScanned(g, 1, taken);
      HoursInFront(t, f.hours.value, g);
      ComponentIsScanned(f.hours.value, 'H', TimeText(g), last, t);
    } else if f.minutes.Some? {
      var g, taken := f.(minutes := None), t.(minutes := Value(f.minutes.value), components := t.components + 1);
      assert TakeComponent(t, 'M', f.minutes.value) == Some(taken);
      hide ScanTime, TakeComponent, TimeText, Applied;
      FormIsScanned(g, 2, taken);
      MinutesInFront(t, f.minutes.value, g);
      ComponentIsScanned(f.minutes.value, 'M', TimeText(g), last, t);
    } else if f.seconds.Some? {
      hide TakeComponent, TimeText, Applied;
      SecondsAreTaken(t, f);
      ComponentIsScanned(f.seconds.value + (if f.fraction.None? then "" else "." + f.fraction.value), 'S', "", last, t);
    } else {
      NothingIsForm(t, last);
    }
  }

  // ---- what the parser accepts -------------------------------------------------------------------------------

  lemma TimeTextIsPlain(f: TimeForm)
    requires ValidTime(f)
    ensures 'T' !in TimeText(f) && (f != NO_TIME ==> TimeText(f) != "")
  {
    assert 'T' !in Part(f.hours, "H") && 'T' !in Part(f.minutes, "M") && 'T' !in SecondsText(f);
    assert f.hours.Some? ==> Part(f.hours, "H") != "";
    assert f.minutes.Some? ==> Part(f.minutes, "M") != "";
    assert f.seconds.Some? ==> SecondsText(f) != "";
  }

  lemma DaysAreRead(days: Option<string>)
    requires NumeralIfAny(days) && ValueIfAny(days) < U64_LIMIT
    ensures ParseDays(Part(days, "D")) == Some(ValueIfAny(days)) && 'T' !in Part(days, "D")
    ensures days.Some? ==> Part(days, "D") != ""
  {
    if days.Some? {
      assert (days.value + "D")[..|days.value|] == days.value;
    }
  }

  lemma ComponentsFit(days: nat, hours: nat, minutes: nat, seconds: nat)
    requires days * 86_400 + hours * 3_600 + minutes * 60 + seconds < U64_LIMIT
    ensures days < U64_LIMIT && hours < U64_LIMIT && minutes < U64_LIMIT && seconds < U64_LIMIT
  {
  }

  lemma HoursOfNothing(f: TimeForm)
    requires ValidTime(f)
    ensures Applied(NO_TIMES, f).hours == ValueIfAny(f.hours)
  {
    hide Value, Nanos, AllDigits, Fraction;
  }

  lemma MinutesOfNothing(f: TimeForm)
    requires ValidTime(f)
    ensures Applied(NO_TIMES, f).minutes == ValueIfAny(f.minutes)
  {
    hide Value, Nanos, AllDigits, Fraction;
  }

  lemma SecondsOfNothing(f: TimeForm)
    requires ValidTime(f)
    ensures Applied(NO_TIMES, f).seconds == ValueIfAny(f.seconds)
  {
    hide Value, Nanos, AllDigits, Fraction;
  }

  lemma RestOfNothing(f: TimeForm)
    requires ValidTime(f)
    ensures Applied(NO_TIMES, f).nanos == (if f.fraction.None? then 0 else Nanos(f.fraction.value))
    ensures Applied(NO_TIMES, f).components == One(f.hours) + One(f.minutes) + One(f.seconds)
    ensures f != NO_TIME ==> Applied(NO_TIMES, f).components > 0
  {
    hide Value, Nanos, AllDigits, Fraction;
  }

  lemma AppliedToNothing(f: TimeForm)
    requires ValidTime(f)
    ensures Applied(NO_TIMES, f)
            == Times(ValueIfAny(f.hours), ValueIfAny(f.minutes), ValueIfAny(f.seconds),
                     if f.fraction.None? then 0 else Nanos(f.fraction.value),
                     One(f.hours) + One(f.minutes) + One(f.seconds))
    ensures f != NO_TIME ==> Applied(NO_TIMES, f).components > 0
  {
    hide Applied, Value, ValueIfAny, Nanos, AllDigits;
    HoursOfNothing(f);
    MinutesOfNothing(f);
    SecondsOfNothing(f);
    RestOfNothing(f);
  }

  lemma MeaningIsTotal(f: Form)
    requires Valid(f)
    ensures Checked(ValueIfAny(f.days), Applied(NO_TIMES, f.time))
            == (if Meaning(f).seconds < U64_LIMIT then Some(Meaning(f)) else None)
    ensures Meaning(f).seconds < U64_LIMIT ==>
      ValueIfAny(f.days) < U64_LIMIT && ValueIfAny(f.time.hours) < U64_LIMIT
      && ValueIfAny(f.time.minutes) < U64_LIMIT && ValueIfAny(f.time.seconds) < U64_LIMIT
    ensures f.time != NO_TIME ==> Applied(NO_TIMES, f.time).components > 0
  {
    hide Value, AllDigits, Nanos, Fraction, Applied, ValueIfAny;
    AppliedToNothing(f.time);
    if Meaning(f).seconds < U64_LIMIT {
      ComponentsFit(ValueIfAny(f.days), ValueIfAny(f.time.hours), ValueIfAny(f.time.minutes), ValueIfAny(f.time.seconds));
    }
  }

  lemma WithoutTime(date: string)
    requires date != "" && 'T' !in date
    ensures Parsed("P" + date) == Combined(ParseDays(date), Some(NO_TIMES))
  {
    hide ParseDays, Combined, SplitOnce;
    assert ("P" + date)[1..] == date;
    SplitOnceAbsent(date, 'T');
  }

  lemma WithTime(date: string, time: string)
    requires 'T' !in date && 'T' !in time && time != ""
    ensures Parsed("P" + (date + ("T" + time))) == Combined(ParseDays(date), ParseTime(time))
  {
    hide ParseDays, ParseTime, Combined, SplitOnce;
    var body := date + ("T" + time);
    assert ("P" + body)[1..] == body == date + ['T'] + time;
    SplitOnceFirst(date, time, 'T');
  }

  /** The parser accepts every text of the lexical form whose exact value fits, with that value. */
  lemma FormIsParsed(f: Form)
    requires Valid(f) && Meaning(f).seconds < U64_LIMIT
    ensures Parsed(FormText(f)) == Some(Meaning(f))
  {
    hide TimeText, Applied, ScanTime, Checked, Meaning, ParseDays, SplitOnce, Part, Parsed, ValidTime, ValueIfAny;
    MeaningIsTotal(f);
    DaysAreRead(f.days);
    TimeTextIsPlain(f.time);
    var date, time := Part(f.days, "D"), TimeText(f.time);
    if f.time == NO_TIME {
      assert date + "" == date;
      WithoutTime(date);
      NothingIsForm(NO_TIMES, 0);
    } else {
      NothingFollows(f.time);
      FormIsScanned(f.time, 0, NO_TIMES);
      WithTime(date, time);
    }
  }

  lemma NothingFollows(f: TimeForm)
    ensures Follows(0, f)
  {
  }

  lemma DaysAreForm(date: string) returns (days: Option<string>)
    requires ParseDays(date).Some?
    ensures NumeralIfAny(days) && Part(days, "D") == date && ParseDays(date).value == ValueIfAny(days)
    ensures days.None? <==> date == ""
  {
    if date == "" {
      days := None;
    } else {
      days := Some(date[..|date| - 1]);
    }
  }

  lemma TimeIsForm(time: string) returns (f: TimeForm)
    requires ParseTime(time).Some?
    ensures ValidTime(f) && TimeText(f) == time && ParseTime(time).value == Applied(NO_TIMES, f) && f != NO_TIME
  {
    hide ScanTime, TimeText, Applied, ValidTime;
    f := ScanIsForm(time, "", 0, NO_TIMES);
    assert "" + time == time;
    NothingIsForm(NO_TIMES, 0);
  }

  /** Whatever the parser accepts is a text of the lexical form, and the result is its exact value, which
      fits; so an overflow is always rejected. */
  lemma ParsedIsForm(value: string) returns (f: Form)
    requires Parsed(value).Some?
    ensures Valid(f) && FormText(f) == value && Parsed(value).value == Meaning(f) && Meaning(f).seconds < U64_LIMIT
  {
    hide TimeText, Applied, ScanTime, Checked, Meaning, ParseDays, ParseTime, SplitOnce, Part, ValidTime, ValueIfAny;
    var body := value[1..];
    assert value == "P" + body;
    var parts := SplitOnce(body, 'T');
    if parts.Some? {
      var (date, time) := parts.value;
      var days := DaysAreForm(date);
      var times := TimeIsForm(time);
      f := Form(days, times);
      SplitOnceJoins(body, 'T');
      assert date + ['T'] + time == date + ("T" + time);
    } else {
      var days := DaysAreForm(body);
      f := Form(days, NO_TIME);
      NothingIsForm(NO_TIMES, 0);
      assert body + "" == body;
    }
    MeaningIsTotal(f);
  }

  /** parse accepts a text exactly if it is of the lexical form and its exact value fits 64-bit seconds. */
  lemma ParsedExactly(value: string, d: Duration)
    ensures Parsed(value) == Some(d) <==> exists f :: Valid(f) && FormText(f) == value && Meaning(f) == d && Representable(d)
  {
    if Parsed(value) == Some(d) {
      var f := ParsedIsForm(value);
      MeaningIsNormal(f);
      assert Valid(f) && FormText(f) == value && Meaning(f) == d;
    }
    if f :| Valid(f) && FormText(f) == value && Meaning(f) == d && Representable(d) {
      FormIsParsed(f);
    }
  }

  lemma MeaningIsNormal(f: Form)
    requires Valid(f)
    ensures Meaning(f).nanos <= 999_999_999
  {
    if f.time.fraction.Some? {
      FractionExactly(f.time.fraction.value);
      DigitsAreFew(f.time.fraction.value);
      assert Power(3) == 1_000 && Power(6) == 1_000_000 && Power(9) == BILLION;
    }
  }

  /** The numerals of the lexical form are the numbers with any zeros in front. */
  lemma NumeralExactly(text: string)
    ensures Numeral(text) <==> exists zeros: nat, n: nat :: text == Zeros(zeros) + Decimal(n)
  {
    if Numeral(text) {
      var zeros := DigitsAreNumeral(text);
      assert text == Zeros(zeros) + Decimal(Value(text));
    }
    if zeros: nat, n: nat :| text == Zeros(zeros) + Decimal(n) {
      LeadingZeros(zeros, n);
      DecimalReads(n);
    }
  }

  /** A fraction is one to nine digits, and its nanoseconds are its exact value. */
  lemma FractionExactly(text: string)
    ensures Fraction(text) <==> 1 <= |text| <= 9 && forall c <- text :: '0' <= c <= '9'
    ensures Fraction(text) ==> Nanos(text) * Power(|text|) == Value(text) * 1_000_000_000
  {
    if Fraction(text) {
      ZerosScale(text, 9 - |text|);
      FilledUp(Value(text), |text|);
    }
  }

  lemma FilledUp(value: nat, width: nat)
    requires width <= 9
    ensures value * Power(9 - width) * Power(width) == value * 1_000_000_000
  {
    PowersMultiply(9 - width, width);
    assert Power(3) == 1_000 && Power(6) == 1_000_000 && Power(9) == BILLION;
    hide Power;
    assert value * Power(9 - width) * Power(width) == value * (Power(9 - width) * Power(width));
  }

  lemma {:induction false} ZerosScale(text: string, k: nat)
    requires AllDigits(text)
    ensures AllDigits(text + Zeros(k)) && Value(text + Zeros(k)) == Value(text) * Power(k)
  {
    if k == 0 {
      assert text + Zeros(0) == text;
    } else {
      ZerosScale(text, k - 1);
      OneMoreZero(text, k);
      TenTimes(Value(text), k);
    }
  }

  lemma OneMoreZero(text: string, k: nat)
    requires k > 0 && AllDigits(text + Zeros(k - 1))
    ensures AllDigits(text + Zeros(k)) && Value(text + Zeros(k)) == 10 * Value(text + Zeros(k - 1))
  {
    assert text + Zeros(k) == text + Zeros(k - 1) + [Digit(0)];
    ValueAppends(text + Zeros(k - 1), 0);
  }

  lemma TenTimes(a: nat, k: nat)
    requires k > 0
    ensures a * Power(k) == 10 * (a * Power(k - 1))
  {
    var b := Power(k - 1);
    assert Power(k) == 10 * b;
    hide Power;
    assert a * (10 * b) == 10 * (a * b);
  }

  lemma {:induction false} PowersMultiply(a: nat, b: nat)
    ensures Power(a) * Power(b) == Power(a + b)
  {
    if a > 0 {
      PowersMultiply(a - 1, b);
      TenTimes(Power(b), a);
    }
  }

  lemma {:induction false} DigitsAreFew(text: string)
    requires AllDigits(text)
    ensures Value(text) < Power(|text|)
  {
    if text != "" {
      DigitsAreFew(text[..|text| - 1]);
    }
  }

  // ---- the printer ---------------------------------------------------------------------------------------

  /** A numeral with leading zeros, `width` digits long. */
  function Padded(n: nat, width: nat): string {
    if width == 0 then "" else Padded(n / 10, width - 1) + [Digit(n % 10)]
  }

  function Stripped(text: string): string {
    if text == "" || text[|text| - 1] != '0' then text else Stripped(text[..|text| - 1])
  }

  function IfNonzero(n: nat): Option<string> { if n == 0 then None else Some(Decimal(n)) }

  /** The time components Display writes. */
  function TimeFormOf(hours: nat, minutes: nat, seconds: nat, nanos: nat): TimeForm {
    TimeForm(IfNonzero(hours), IfNonzero(minutes),
             if nanos != 0 || seconds != 0 || (hours == 0 && minutes == 0) then Some(Decimal(seconds)) else None,
             if nanos == 0 then None else Some(Stripped(Padded(nanos, 9))))
  }

  /** Which components Display writes. */
  function FormOf(d: Duration): Form {
    var days, hours, minutes, seconds :=
      d.seconds / 86_400, d.seconds % 86_400 / 3_600, d.seconds % 3_600 / 60, d.seconds % 60;
    Form(IfNonzero(days),
         if hours == 0 && minutes == 0 && seconds == 0 && d.nanos == 0 && days != 0 then NO_TIME
         else TimeFormOf(hours, minutes, seconds, d.nanos))
  }

  /** The digits of a fraction without the zeros at its end. */
  method FractionText(nanos: nat) returns (fraction: string)
    ensures fraction == Stripped(Padded(nanos, 9))
  {
    fraction := Padded(nanos, 9);
    while fraction != "" && fraction[|fraction| - 1] == '0'
      invariant Stripped(fraction) == Stripped(Padded(nanos, 9))
      decreases |fraction|
    {
      fraction := fraction[..|fraction| - 1];
    }
  }

  /** The time part of Display::fmt. */
  method DisplayTime(hours: nat, minutes: nat, seconds: nat, nanos: nat) returns (text: string)
    ensures text == TimeText(TimeFormOf(hours, minutes, seconds, nanos))
  {
    hide Decimal, Padded, Stripped;
    text := "";
    if hours != 0 {
      text := text + (Decimal(hours) + "H");
    }
    ghost var first := text;
    if minutes != 0 {
      text := text + (Decimal(minutes) + "M");
    }
    ghost var second := text;
    assert text == Part(IfNonzero(hours), "H") + Part(IfNonzero(minutes), "M");
    if nanos == 0 {
      if seconds != 0 || (hours == 0 && minutes == 0) {
        text := text + (Decimal(seconds) + "S");
        assert Decimal(seconds) + "" + "S" == Decimal(seconds) + "S";
      }
    } else {
      var fraction := FractionText(nanos);
      text := text + (Decimal(seconds) + "." + fraction + "S");
      assert Decimal(seconds) + ("." + fraction) + "S" == Decimal(seconds) + "." + fraction + "S";
    }
    ghost var f := TimeFormOf(hours, minutes, seconds, nanos);
    assert text == second + SecondsText(f);
    TimeTextParts(f);
  }

  lemma TimeTextParts(f: TimeForm)
    ensures Part(f.hours, "H") + Part(f.minutes, "M") + SecondsText(f) == TimeText(f)
  {
  }

  /** Display::fmt. */
  method Display(d: Duration) returns (text: string)
    ensures text == FormText(FormOf(d))
  {
    hide Decimal, TimeText, TimeFormOf;
    var days, hours, minutes, seconds :=
      d.seconds / 86_400, d.seconds % 86_400 / 3_600, d.seconds % 3_600 / 60, d.seconds % 60;
    text := "P";
    if days != 0 {
      text := text + (Decimal(days) + "D");
    }
    if hours != 0 || minutes != 0 || seconds != 0 || d.nanos != 0 || days == 0 {
      var time := DisplayTime(hours, minutes, seconds, d.nanos);
      text := text + ("T" + time);
      SomeTime(hours, minutes, seconds, d.nanos);
    }
  }

  lemma SomeTime(hours: nat, minutes: nat, seconds: nat, nanos: nat)
    ensures TimeFormOf(hours, minutes, seconds, nanos) != NO_TIME
  {
  }

  // ---- the round trip ------------------------------------------------------------------------------------

  function Power(width: nat): nat { if width == 0 then 1 else 10 * Power(width - 1) }

  lemma {:induction false} PaddedReads(n: nat, width: nat)
    requires n < Power(width)
    ensures |Padded(n, width)| == width && AllDigits(Padded(n, width)) && Value(Padded(n, width)) == n
  {
    if width > 0 {
      PaddedReads(n / 10, width - 1);
      ValueAppends(Padded(n / 10, width - 1), n % 10);
    }
  }

  /** Filling a stripped numeral up again gives the numeral. */
  lemma {:induction false} StrippedFills(text: string)
    ensures |Stripped(text)| <= |text| && text == Stripped(text) + Zeros(|text| - |Stripped(text)|)
    ensures AllDigits(text) ==> AllDigits(Stripped(text))
  {
    if text == "" || text[|text| - 1] != '0' {
      assert text + Zeros(0) == text;
    } else {
      var init := text[..|text| - 1];
      StrippedFills(init);
      var k := |init| - |Stripped(init)|;
      assert Zeros(k + 1) == Zeros(k) + "0";
      assert text == init + "0";
      assert Stripped(init) + Zeros(k) + "0" == Stripped(init) + (Zeros(k) + "0");
    }
  }

  lemma FractionReads(nanos: nat)
    requires 0 < nanos < BILLION
    ensures Fraction(Stripped(Padded(nanos, 9))) && Nanos(Stripped(Padded(nanos, 9))) == nanos
  {
    assert Power(3) == 1_000 && Power(6) == 1_000_000 && Power(9) == BILLION;
    var text := Padded(nanos, 9);
    PaddedReads(nanos, 9);
    StrippedFills(text);
    ZerosAreNothing(9);
    assert "" + Zeros(9) == Zeros(9);
  }

  lemma HourOfDay(seconds: nat)
    ensures seconds % 86_400 % 3_600 == seconds % 3_600
  {
    var q, day := seconds / 86_400, seconds % 86_400;
    var k, h := day / 3_600, day % 3_600;
    assert seconds == 3_600 * (24 * q + k) + h;
  }

  lemma MinuteOfHour(seconds: nat)
    ensures seconds % 3_600 % 60 == seconds % 60
  {
    var q, hour := seconds / 3_600, seconds % 3_600;
    var k, m := hour / 60, hour % 60;
    SixtyFold(seconds, 60 * q + k, m);
  }

  lemma SixtyFold(n: nat, q: nat, m: nat)
    requires n == 60 * q + m && m < 60
    ensures n % 60 == m
  {
  }

  lemma UnitsAddUp(seconds: nat)
    ensures seconds / 86_400 * 86_400 + seconds % 86_400 / 3_600 * 3_600 + seconds % 3_600 / 60 * 60 + seconds % 60 == seconds
  {
    HourOfDay(seconds);
    MinuteOfHour(seconds);
  }

  lemma NonzeroReads(n: nat)
    ensures NumeralIfAny(IfNonzero(n)) && ValueIfAny(IfNonzero(n)) == n
  {
    DecimalReads(n);
  }

  lemma FormOfMeans(d: Duration)
    requires d.nanos < BILLION
    ensures Valid(FormOf(d)) && Meaning(FormOf(d)) == d
  {
    hide Decimal, Value, Padded, Stripped, Nanos, IfNonzero, Fraction;
    var days, hours, minutes, seconds :=
      d.seconds / 86_400, d.seconds % 86_400 / 3_600, d.seconds % 3_600 / 60, d.seconds % 60;
    UnitsAddUp(d.seconds);
    NonzeroReads(days);
    NonzeroReads(hours);
    NonzeroReads(minutes);
    DecimalReads(seconds);
    NoneIsZero(days);
    if d.nanos > 0 {
      FractionReads(d.nanos);
    }
    SomeTime(hours, minutes, seconds, d.nanos);
  }

  lemma NoneIsZero(n: nat)
    ensures IfNonzero(n).None? <==> n == 0
  {
  }

  /** The round trip: reading what is printed for any duration gives the duration back. */
  lemma DurationRoundTrip(d: Duration)
    requires Representable(d)
    ensures Parsed(FormText(FormOf(d))) == Some(d)
  {
    FormOfMeans(d);
    FormIsParsed(FormOf(d));
  }
}
