/** POSIX cron expressions and their exact compilation to native calendar triggers (schedule.rs). */
module Cron {
  import opened Wrappers
  import opened Text
  import opened Calendar

  datatype ScheduleError = Invalid | NotRepresentable(required: Option<nat>)
  datatype Result<+T> = Ok(value: T) | Err(error: ScheduleError)

  /** The values of one field; a field is a wildcard only when it is written as a single star. */
  datatype Field = Field(values: set<nat>, wildcard: bool)

  datatype CronSchedule = CronSchedule(
    original: string, minutes: Field, hours: Field, daysOfMonth: Field, months: Field, daysOfWeek: Field)

  // ---- reading one field -------------------------------------------------------------------------

  const MONTH_NAMES: seq<(string, nat)> :=
    [("jan", 1), ("feb", 2), ("mar", 3), ("apr", 4), ("may", 5), ("jun", 6),
     ("jul", 7), ("aug", 8), ("sep", 9), ("oct", 10), ("nov", 11), ("dec", 12)]

  const WEEKDAY_NAMES: seq<(string, nat)> :=
    [("sun", 0), ("mon", 1), ("tue", 2), ("wed", 3), ("thu", 4), ("fri", 5), ("sat", 6)]

  /** What a field may hold: its range, its names, and whether 7 stands for 0. */
  datatype Kind = Kind(minimum: nat, maximum: nat, names: seq<(string, nat)>, sundayAlias: bool)

  const MINUTES := Kind(0, 59, [], false)
  const HOURS := Kind(0, 23, [], false)
  const DAYS_OF_MONTH := Kind(1, 31, [], false)
  const MONTHS := Kind(1, 12, MONTH_NAMES, false)
  const DAYS_OF_WEEK := Kind(0, 7, WEEKDAY_NAMES, true)

  function Lower(c: char): char { if 'A' <= c <= 'Z' then c - 'A' + 'a' else c }

  predicate EqualIgnoringCase(a: string, b: string) {
    |a| == |b| && forall i :: 0 <= i < |a| ==> Lower(a[i]) == Lower(b[i])
  }

  function FindName(names: seq<(string, nat)>, text: string): Option<nat> {
    if names == [] then None
    else if EqualIgnoringCase(names[0].0, text) then Some(names[0].1)
    else FindName(names[1..], text)
  }

  /** str::parse for u8: an optional plus sign, then digits, at most 255. */
  function ParseByte(text: string): Option<nat> {
    var digits := if text != "" && text[0] == '+' then text[1..] else text;
    if digits == "" || !AllDigits(digits) || Value(digits) > 255 then None else Some(Value(digits))
  }

  function FieldValue(k: Kind, text: string): Option<nat> {
    var name := FindName(k.names, text);
    if name.Some? then name else ParseByte(text)
  }

  /** The values start, start + step, ... up to end. */
  datatype Item = Item(start: nat, end: nat, step: nat)

  predicate InRange(k: Kind, item: Item) {
    k.minimum <= item.start <= item.end <= k.maximum && item.step > 0
  }

  /** The two ends of a part without its step; a lone value with a step runs to the end of the range. */
  function ParseRange(k: Kind, range: string, stepped: bool): Option<(nat, nat)> {
    if range == "*" then Some((k.minimum, k.maximum))
    else
      var dash := SplitOnce(range, '-');
      var start := FieldValue(k, if dash.Some? then dash.value.0 else range);
      var end := if dash.Some? then FieldValue(k, dash.value.1) else if stepped then Some(k.maximum) else start;
      if start.None? || end.None? then None else Some((start.value, end.value))
  }

  /** One comma-separated part. */
  function ParseItem(k: Kind, part: string): Option<Item> {
    var slash := SplitOnce(part, '/');
    if slash.None? then Checked(k, ParseRange(k, part, false), Some(1))
    else Checked(k, ParseRange(k, slash.value.0, true), ParseByte(slash.value.1))
  }

  function Checked(k: Kind, ends: Option<(nat, nat)>, step: Option<nat>): Option<Item> {
    if step.None? || step.value == 0 || ends.None? then None
    else
      var item := Item(ends.value.0, ends.value.1, step.value);
      if InRange(k, item) then Some(item) else None
  }

  predicate Selects(item: Item, v: nat) {
    item.start <= v <= item.end && item.step > 0 && (v - item.start) % item.step == 0
  }

  function Normal(k: Kind, v: nat): nat { if k.sundayAlias && v == 7 then 0 else v }

  /** A list of parts all of which can be read. */
  predicate Readable(k: Kind, parts: seq<string>) { forall part <- parts :: ParseItem(k, part).Some? }

  /** `v` is the normal form of a value that one of the parts selects. */
  ghost predicate Listed(k: Kind, parts: seq<string>, v: nat) {
    exists part, w :: part in parts && 0 <= w <= k.maximum && PartSelects(k, part, w) && Normal(k, w) == v
  }

  predicate PartSelects(k: Kind, part: string, w: nat) {
    ParseItem(k, part).Some? && InRange(k, ParseItem(k, part).value) && Selects(ParseItem(k, part).value, w)
  }

  /** What a field text means. */
  ghost predicate Means(k: Kind, text: string, f: Field) {
    && (forall v :: v in f.values <==> Listed(k, Split(text, ','), v))
    && (f.wildcard <==> text == "*")
  }

  /** Field::parse. */
  method ParseField(k: Kind, text: string) returns (r: Result<Field>)
    ensures r.Ok? <==> Readable(k, Split(text, ','))
    ensures r.Ok? ==> Means(k, text, r.value)
    ensures r.Err? ==> r.error == Invalid
  {
    var parts := Split(text, ',');
    var values: set<nat> := {};
    for i := 0 to |parts|
      invariant Readable(k, parts[..i])
      invariant forall v :: v in values <==> Listed(k, parts[..i], v)
    {
      assert parts[..i + 1] == parts[..i] + [parts[i]];
      var item := ParseItem(k, parts[i]);
      if item.None? {
        assert parts[i] in parts;
        return Err(Invalid);
      }
      var added := Expand(k, item.value);
      MoreParts(k, parts[..i], parts[i], item.value);
      values := values + added;
    }
    assert parts[..|parts|] == parts;
    FieldIsNotEmpty(k, parts);
    if values == {} {
      return Err(Invalid);
    }
    r := Ok(Field(values, text == "*"));
  }

  method Expand(k: Kind, item: Item) returns (values: set<nat>)
    requires InRange(k, item)
    ensures forall v :: v in values <==> exists w :: 0 <= w <= k.maximum && Selects(item, w) && Normal(k, w) == v
  {
    values := {};
    var value := item.start;
    while value <= item.end
      invariant item.start <= value && (value - item.start) % item.step == 0
      invariant forall v :: v in values <==> exists w :: 0 <= w <= k.maximum && Selects(item, w) && w < value && Normal(k, w) == v
      decreases item.end + item.step - value
    {
      NextSelected(item, value);
      values := values + {Normal(k, value)};
      value := value + item.step;
    }
  }

  /** Between two steps nothing is selected. */
  lemma NextSelected(item: Item, value: nat)
    requires item.step > 0 && item.start <= value && (value - item.start) % item.step == 0
    ensures (value + item.step - item.start) % item.step == 0
    ensures forall w :: value < w < value + item.step ==> !Selects(item, w)
  {
    var n := (value - item.start) / item.step;
    assert value - item.start == n * item.step;
    assert value + item.step - item.start == (n + 1) * item.step;
    MultipleMod(n + 1, item.step, 0);
    forall w | value < w < value + item.step ensures !Selects(item, w) {
      MultipleMod(n, item.step, w - value);
      assert w - item.start == n * item.step + (w - value);
    }
  }

  lemma MultipleMod(n: nat, m: nat, r: nat)
    requires r < m
    ensures (n * m + r) % m == r
  {
    var a := n * m + r;
    var q, d := a / m, n - a / m;
    assert a == q * m + a % m;
    assert d * m == a % m - r by {
      assert d * m == n * m - q * m;
    }
    if d != 0 {
      MultipleIsLarge(d, m);
      assert false;
    }
  }

  lemma MultipleIsLarge(d: int, m: nat)
    requires d != 0
    ensures d * m >= m || d * m <= 0 - m
  {
    if d > 0 {
      assert (d - 1) * m >= 0;
    } else {
      assert (0 - d - 1) * m >= 0;
    }
  }

  lemma MoreParts(k: Kind, parts: seq<string>, part: string, item: Item)
    requires ParseItem(k, part) == Some(item)
    ensures forall v ::
      Listed(k, parts + [part], v)
      <==> Listed(k, parts, v) || exists w :: 0 <= w <= k.maximum && Selects(item, w) && Normal(k, w) == v
  {
    assert forall p :: p in parts + [part] <==> p in parts || p == part;
    forall v | exists w :: 0 <= w <= k.maximum && Selects(item, w) && Normal(k, w) == v
      ensures Listed(k, parts + [part], v)
    {
      var w :| 0 <= w <= k.maximum && Selects(item, w) && Normal(k, w) == v;
      assert PartSelects(k, part, w);
    }
  }

  lemma FieldIsNotEmpty(k: Kind, parts: seq<string>)
    requires parts != [] && Readable(k, parts)
    ensures exists v :: Listed(k, parts, v)
  {
    var item := ParseItem(k, parts[0]).value;
    assert PartSelects(k, parts[0], item.start);
    assert Listed(k, parts, Normal(k, item.start));
  }

  // ---- reading an expression ---------------------------------------------------------------------------

  predicate IsBlank(c: char) { c == ' ' || c == '\t' || c == '\n' || c == '\U{000C}' || c == '\r' }

  /** split_ascii_whitespace: the maximal runs without blanks. */
  function Words(text: string): seq<string> {
    if text == "" then []
    else
      var rest := Words(text[1..]);
      if IsBlank(text[0]) then rest
      else if |text| > 1 && !IsBlank(text[1]) && rest != [] then [[text[0]] + rest[0]] + rest[1..]
      else [[text[0]]] + rest
  }

  function FieldKind(i: nat): Kind
    requires i < 5
  {
    [MINUTES, HOURS, DAYS_OF_MONTH, MONTHS, DAYS_OF_WEEK][i]
  }

  function FieldOf(c: CronSchedule, i: nat): Field
    requires i < 5
  {
    [c.minutes, c.hours, c.daysOfMonth, c.months, c.daysOfWeek][i]
  }

  /** CronSchedule::parse: five fields, each of which can be read, with the meaning of its text. */
  method Parse(expression: string) returns (r: Result<CronSchedule>)
    ensures var words := Words(expression);
      r.Ok? <==> |words| == 5 && forall i :: 0 <= i < 5 ==> Readable(FieldKind(i), Split(words[i], ','))
    ensures r.Ok? ==> WellFormed(r.value) && r.value.original == expression
    ensures r.Ok? ==> forall i :: 0 <= i < 5 ==> Means(FieldKind(i), Words(expression)[i], FieldOf(r.value, i))
    ensures r.Err? ==> r.error == Invalid
  {
    hide Readable, Means, WellFormed, Words, Split;
    assert FieldKind(0) == MINUTES && FieldKind(1) == HOURS && FieldKind(2) == DAYS_OF_MONTH;
    assert FieldKind(3) == MONTHS && FieldKind(4) == DAYS_OF_WEEK;
    var words := Words(expression);
    if |words| != 5 {
      return Err(Invalid);
    }
    var minutes := ParseField(MINUTES, words[0]);
    if minutes.Err? {
      return Err(minutes.error);
    }
    var hours := ParseField(HOURS, words[1]);
    if hours.Err? {
      return Err(hours.error);
    }
    var daysOfMonth := ParseField(DAYS_OF_MONTH, words[2]);
    if daysOfMonth.Err? {
      return Err(daysOfMonth.error);
    }
    var months := ParseField(MONTHS, words[3]);
    if months.Err? {
      return Err(months.error);
    }
    var daysOfWeek := ParseField(DAYS_OF_WEEK, words[4]);
    if daysOfWeek.Err? {
      return Err(daysOfWeek.error);
    }
    var c := CronSchedule(expression, minutes.value, hours.value, daysOfMonth.value, months.value, daysOfWeek.value);
    MeaningIsWellFormed(c, words);
    r := Ok(c);
  }

  /** Every value is one the calendar knows, every field has one, and a wildcard has them all; so the
      conversions to weekdays and months never meet a value they do not expect. */
  predicate FieldFits(f: Field, minimum: nat, maximum: nat) {
    && f.values != {}
    && (forall v <- f.values :: minimum <= v <= maximum)
    && (f.wildcard ==> forall v :: minimum <= v <= maximum ==> v in f.values)
  }

  predicate WellFormed(c: CronSchedule) {
    && FieldFits(c.minutes, 0, 59) && FieldFits(c.hours, 0, 23) && FieldFits(c.daysOfMonth, 1, 31)
    && FieldFits(c.months, 1, 12) && FieldFits(c.daysOfWeek, 0, 6)
  }

  lemma MeaningFits(k: Kind, text: string, f: Field)
    requires Readable(k, Split(text, ',')) && Means(k, text, f) && k.minimum <= k.maximum
    requires k.sundayAlias ==> k.minimum == 0 && k.maximum == 7
    ensures FieldFits(f, k.minimum, if k.sundayAlias then 6 else k.maximum)
  {
    var parts := Split(text, ',');
    FieldIsNotEmpty(k, parts);
    if f.wildcard {
      SplitPlain("*", ',');
      assert ParseItem(k, "*") == Some(Item(k.minimum, k.maximum, 1));
      forall v | k.minimum <= v <= k.maximum && Normal(k, v) == v ensures v in f.values {
        assert PartSelects(k, "*", v);
      }
    }
  }

  lemma MeaningIsWellFormed(c: CronSchedule, words: seq<string>)
    requires |words| == 5
    requires forall i :: 0 <= i < 5 ==> Readable(FieldKind(i), Split(words[i], ',')) && Means(FieldKind(i), words[i], FieldOf(c, i))
    ensures WellFormed(c)
  {
    hide Readable, Means, Split, FieldFits;
    forall i | 0 <= i < 5
      ensures FieldFits(FieldOf(c, i), FieldKind(i).minimum, if FieldKind(i).sundayAlias then 6 else FieldKind(i).maximum)
    {
      MeaningFits(FieldKind(i), words[i], FieldOf(c, i));
    }
    assert FieldOf(c, 0) == c.minutes && FieldOf(c, 1) == c.hours && FieldOf(c, 2) == c.daysOfMonth;
    assert FieldOf(c, 3) == c.months && FieldOf(c, 4) == c.daysOfWeek;
  }

  // ---- printing, as an independent reading of the syntax ------------------------------------------------

  /** The forms a part can take. */
  datatype Part = Every(step: Option<nat>) | One(value: nat, step: Option<nat>) | Span(from: nat, to: nat, step: Option<nat>)

  function ShowStep(step: Option<nat>): string { if step.Some? then "/" + Decimal(step.value) else "" }

  function ShowRange(p: Part): string {
    match p
    case Every(_) => "*"
    case One(v, _) => Decimal(v)
    case Span(a, b, _) => Decimal(a) + "-" + Decimal(b)
  }

  function Show(p: Part): string { ShowRange(p) + ShowStep(p.step) }

  /** What the form selects. */
  function PartItem(k: Kind, p: Part): Item {
    var step := if p.step.Some? then p.step.value else 1;
    match p
    case Every(_) => Item(k.minimum, k.maximum, step)
    case One(v, _) => Item(v, if p.step.Some? then k.maximum else v, step)
    case Span(a, b, _) => Item(a, b, step)
  }

  predicate PlainNames(names: seq<(string, nat)>) {
    forall n <- names :: n.0 != "" && !IsDigit(n.0[0])
  }

  lemma {:induction false} NumbersAreNoNames(names: seq<(string, nat)>, text: string)
    requires PlainNames(names) && text != "" && IsDigit(text[0])
    ensures FindName(names, text).None?
  {
    if names != [] {
      assert names[0] in names;
      NumbersAreNoNames(names[1..], text);
    }
  }

  lemma NumeralsAreRead(k: Kind, n: nat)
    requires PlainNames(k.names) && n <= 255
    ensures FieldValue(k, Decimal(n)) == Some(n) && ParseByte(Decimal(n)) == Some(n)
    ensures '/' !in Decimal(n) && '-' !in Decimal(n) && Decimal(n) != "*"
  {
    DecimalReads(n);
    NumbersAreNoNames(k.names, Decimal(n));
  }

  lemma PrintedRangeIsRead(k: Kind, p: Part)
    requires PlainNames(k.names) && k.maximum <= 255 && InRange(k, PartItem(k, p))
    ensures '/' !in ShowRange(p)
    ensures ParseRange(k, ShowRange(p), p.step.Some?) == Some((PartItem(k, p).start, PartItem(k, p).end))
  {
    if p.One? {
      NumeralsAreRead(k, p.value);
    } else if p.Span? {
      NumeralsAreRead(k, p.from);
      NumeralsAreRead(k, p.to);
      SplitOnceFirst(Decimal(p.from), Decimal(p.to), '-');
    }
    hide Decimal, FieldValue, ParseByte, SplitOnce;
    SplitOnceAbsent(ShowRange(p), '-');
  }

  lemma PartsOfShown(k: Kind, range: string, step: string)
    requires '/' !in range
    ensures ParseItem(k, range) == Checked(k, ParseRange(k, range, false), Some(1))
    ensures ParseItem(k, range + ['/'] + step) == Checked(k, ParseRange(k, range, true), ParseByte(step))
  {
    hide SplitOnce, ParseRange, ParseByte, Checked;
    SplitOnceAbsent(range, '/');
    SplitOnceFirst(range, step, '/');
  }

  lemma CheckedKeeps(k: Kind, item: Item)
    requires InRange(k, item)
    ensures Checked(k, Some((item.start, item.end)), Some(item.step)) == Some(item)
  {
  }

  /** Reading a printed part gives exactly the item it stands for. */
  lemma PrintedPartIsRead(k: Kind, p: Part)
    requires PlainNames(k.names) && k.maximum <= 255 && InRange(k, PartItem(k, p))
    requires p.step.Some? ==> p.step.value <= 255
    ensures ParseItem(k, Show(p)) == Some(PartItem(k, p))
  {
    hide Decimal, ParseByte, ParseRange, ShowRange, PlainNames, ParseItem, InRange, Checked;
    PrintedRangeIsRead(k, p);
    CheckedKeeps(k, PartItem(k, p));
    if p.step.Some? {
      NumeralsAreRead(k, p.step.value);
      PartsOfShown(k, ShowRange(p), Decimal(p.step.value));
      assert Show(p) == ShowRange(p) + ['/'] + Decimal(p.step.value);
    } else {
      PartsOfShown(k, ShowRange(p), "");
      assert Show(p) == ShowRange(p);
    }
  }

  lemma NumeralsAreOnePart(n: nat)
    ensures ',' !in Decimal(n)
  {
    DecimalReads(n);
  }

  lemma PrintedPartIsOnePart(p: Part)
    ensures ',' !in Show(p)
  {
    hide Decimal;
    if p.step.Some? {
      NumeralsAreOnePart(p.step.value);
    }
    match p {
      case Every(_) =>
      case One(v, _) => NumeralsAreOnePart(v);
      case Span(a, b, _) =>
        NumeralsAreOnePart(a);
        NumeralsAreOnePart(b);
    }
    assert ',' !in ShowRange(p) && ',' !in ShowStep(p.step);
  }

  /** A printed list of parts means the union of what the parts select. */
  lemma PrintedFieldMeans(k: Kind, parts: seq<Part>, f: Field, v: nat)
    requires PlainNames(k.names) && k.maximum <= 255 && parts != []
    requires forall p <- parts :: InRange(k, PartItem(k, p)) && (p.step.Some? ==> p.step.value <= 255)
    requires Means(k, Join(Shown(parts), ','), f)
    ensures v in f.values <==>
      exists p, w :: p in parts && 0 <= w <= k.maximum && Selects(PartItem(k, p), w) && Normal(k, w) == v
  {
    var shown := Shown(parts);
    forall p | p in parts ensures ',' !in Show(p) {
      PrintedPartIsOnePart(p);
    }
    SplitJoined(shown, ',');
    forall p | p in parts ensures Show(p) in shown && ParseItem(k, Show(p)) == Some(PartItem(k, p)) {
      var i :| 0 <= i < |parts| && parts[i] == p;
      assert shown[i] == Show(p);
      PrintedPartIsRead(k, p);
    }
    if v in f.values {
      var part, w :| part in shown && 0 <= w <= k.maximum && PartSelects(k, part, w) && Normal(k, w) == v;
      var i :| 0 <= i < |shown| && shown[i] == part;
      assert parts[i] in parts;
    }
    if p, w :| p in parts && 0 <= w <= k.maximum && Selects(PartItem(k, p), w) && Normal(k, w) == v {
      assert PartSelects(k, Show(p), w);
    }
  }

  function Shown(parts: seq<Part>): seq<string> { seq(|parts|, i requires 0 <= i < |parts| => Show(parts[i])) }

  // ---- and nothing else is read --------------------------------------------------------------------------------

  /** A numeral up to 255 with any number of zeros and perhaps a plus sign in front. */
  ghost predicate Spells(text: string, n: nat) {
    n <= 255 && exists zeros: nat :: text == Zeros(zeros) + Decimal(n) || text == "+" + (Zeros(zeros) + Decimal(n))
  }

  lemma ParseByteExactly(text: string, n: nat)
    ensures ParseByte(text) == Some(n) <==> Spells(text, n)
  {
    hide Value, Decimal;
    if ParseByte(text) == Some(n) {
      var plus := text != "" && text[0] == '+';
      var digits := if plus then text[1..] else text;
      var zeros := DigitsAreNumeral(digits);
      assert text == (if plus then "+" else "") + digits;
    }
    if Spells(text, n) {
      var zeros: nat :| text == Zeros(zeros) + Decimal(n) || text == "+" + (Zeros(zeros) + Decimal(n));
      NumeralsAreBytes(text, Zeros(zeros) + Decimal(n), n) by {
        LeadingZeros(zeros, n);
        DecimalReads(n);
      }
    }
  }

  lemma NumeralsAreBytes(text: string, digits: string, n: nat)
    requires text == digits || text == "+" + digits
    requires digits != "" && AllDigits(digits) && Value(digits) == n <= 255
    ensures ParseByte(text) == Some(n)
  {
    hide Value;
    assert digits[0] in digits;
    assert text != digits ==> text[1..] == digits;
  }

  /** The same word, each letter in either case. */
  predicate SameWord(lower: string, text: string) {
    |lower| == |text|
    && forall i :: 0 <= i < |lower| ==> 'a' <= lower[i] <= 'z' && (text[i] == lower[i] || text[i] == lower[i] - 'a' + 'A')
  }

  function LowerCase(text: string): string { seq(|text|, i requires 0 <= i < |text| => Lower(text[i])) }

  function FindExact(names: seq<(string, nat)>, text: string): Option<nat> {
    if names == [] then None else if names[0].0 == text then Some(names[0].1) else FindExact(names[1..], text)
  }

  lemma {:induction false} FindIsExact(names: seq<(string, nat)>, text: string)
    requires forall n <- names :: LowerCase(n.0) == n.0
    ensures FindName(names, text) == FindExact(names, LowerCase(text))
  {
    if names != [] {
      assert LowerCase(names[0].0) == names[0].0;
      assert EqualIgnoringCase(names[0].0, text) <==> names[0].0 == LowerCase(text) by {
        assert |LowerCase(text)| == |text| && |LowerCase(names[0].0)| == |names[0].0|;
        assert forall i :: 0 <= i < |text| ==> LowerCase(text)[i] == Lower(text[i]);
        assert forall i :: 0 <= i < |names[0].0| ==> LowerCase(names[0].0)[i] == Lower(names[0].0[i]);
      }
      FindIsExact(names[1..], text);
    }
  }

  lemma SameWordLower(lower: string, text: string)
    requires SameWord(lower, text)
    ensures LowerCase(text) == lower
  {
  }

  /** What is found is listed, and what is not found is not. */
  lemma {:induction false} FoundIsListed(names: seq<(string, nat)>, text: string)
    ensures var found := FindExact(names, text);
      if found.Some? then exists i :: 0 <= i < |names| && names[i] == (text, found.value)
      else forall i :: 0 <= i < |names| ==> names[i].0 != text
  {
    if names != [] {
      FoundIsListed(names[1..], text);
      var found := FindExact(names[1..], text);
      if names[0].0 == text {
        assert names[0] == (text, names[0].1);
      } else if found.Some? {
        var i :| 0 <= i < |names[1..]| && names[1..][i] == (text, found.value);
        assert names[i + 1] == (text, found.value);
      } else {
        assert forall i :: 1 <= i < |names| ==> names[i] == names[1..][i - 1];
      }
    }
  }

  lemma FirstQuarter()
    ensures FindExact(MONTH_NAMES, "jan") == Some(1)
    ensures FindExact(MONTH_NAMES, "feb") == Some(2)
    ensures FindExact(MONTH_NAMES, "mar") == Some(3)
  {
    hide FindExact;
    assert MONTH_NAMES[0] == ("jan", 1);
    FoundIsListed(MONTH_NAMES, "jan");
    assert MONTH_NAMES[1] == ("feb", 2);
    FoundIsListed(MONTH_NAMES, "feb");
    assert MONTH_NAMES[2] == ("mar", 3);
    FoundIsListed(MONTH_NAMES, "mar");
  }

  lemma SecondQuarter()
    ensures FindExact(MONTH_NAMES, "apr") == Some(4)
    ensures FindExact(MONTH_NAMES, "may") == Some(5)
    ensures FindExact(MONTH_NAMES, "jun") == Some(6)
  {
    hide FindExact;
    assert MONTH_NAMES[3] == ("apr", 4);
    FoundIsListed(MONTH_NAMES, "apr");
    assert MONTH_NAMES[4] == ("may", 5);
    FoundIsListed(MONTH_NAMES, "may");
    assert MONTH_NAMES[5] == ("jun", 6);
    FoundIsListed(MONTH_NAMES, "jun");
  }

  lemma ThirdQuarter()
    ensures FindExact(MONTH_NAMES, "jul") == Some(7)
    ensures FindExact(MONTH_NAMES, "aug") == Some(8)
    ensures FindExact(MONTH_NAMES, "sep") == Some(9)
  {
    hide FindExact;
    assert MONTH_NAMES[6] == ("jul", 7);
    FoundIsListed(MONTH_NAMES, "jul");
    assert MONTH_NAMES[7] == ("aug", 8);
    FoundIsListed(MONTH_NAMES, "aug");
    assert MONTH_NAMES[8] == ("sep", 9);
    FoundIsListed(MONTH_NAMES, "sep");
  }

  lemma FourthQuarter()
    ensures FindExact(MONTH_NAMES, "oct") == Some(10)
    ensures FindExact(MONTH_NAMES, "nov") == Some(11)
    ensures FindExact(MONTH_NAMES, "dec") == Some(12)
  {
    hide FindExact;
    assert MONTH_NAMES[9] == ("oct", 10);
    FoundIsListed(MONTH_NAMES, "oct");
    assert MONTH_NAMES[10] == ("nov", 11);
    FoundIsListed(MONTH_NAMES, "nov");
    assert MONTH_NAMES[11] == ("dec", 12);
    FoundIsListed(MONTH_NAMES, "dec");
  }

  lemma WeekBegins()
    ensures FindExact(WEEKDAY_NAMES, "sun") == Some(0)
    ensures FindExact(WEEKDAY_NAMES, "mon") == Some(1)
    ensures FindExact(WEEKDAY_NAMES, "tue") == Some(2)
  {
    hide FindExact;
    assert WEEKDAY_NAMES[0] == ("sun", 0);
    FoundIsListed(WEEKDAY_NAMES, "sun");
    assert WEEKDAY_NAMES[1] == ("mon", 1);
    FoundIsListed(WEEKDAY_NAMES, "mon");
    assert WEEKDAY_NAMES[2] == ("tue", 2);
    FoundIsListed(WEEKDAY_NAMES, "tue");
  }

  lemma WeekGoesOn()
    ensures FindExact(WEEKDAY_NAMES, "wed") == Some(3)
    ensures FindExact(WEEKDAY_NAMES, "thu") == Some(4)
    ensures FindExact(WEEKDAY_NAMES, "fri") == Some(5)
  {
    hide FindExact;
    assert WEEKDAY_NAMES[3] == ("wed", 3);
    FoundIsListed(WEEKDAY_NAMES, "wed");
    assert WEEKDAY_NAMES[4] == ("thu", 4);
    FoundIsListed(WEEKDAY_NAMES, "thu");
    assert WEEKDAY_NAMES[5] == ("fri", 5);
    FoundIsListed(WEEKDAY_NAMES, "fri");
  }

  lemma WeekEnds()
    ensures FindExact(WEEKDAY_NAMES, "sat") == Some(6)
  {
    hide FindExact;
    assert WEEKDAY_NAMES[6] == ("sat", 6);
    FoundIsListed(WEEKDAY_NAMES, "sat");
  }

  lemma NamesAreLower()
    ensures forall n <- MONTH_NAMES :: LowerCase(n.0) == n.0
    ensures forall n <- WEEKDAY_NAMES :: LowerCase(n.0) == n.0
  {
    forall n | n in MONTH_NAMES || n in WEEKDAY_NAMES ensures LowerCase(n.0) == n.0 {
      LowerStays(n.0);
    }
  }

  lemma LowerStays(text: string)
    requires |text| == 3 && 'a' <= text[0] <= 'z' && 'a' <= text[1] <= 'z' && 'a' <= text[2] <= 'z'
    ensures LowerCase(text) == text
  {
  }

  /** The names of the months stand for 1 to 12, and those of the weekdays for 0 to 6 from Sunday on. */
  lemma NamesAreNumbered()
    ensures FindExact(MONTH_NAMES, "jan") == Some(1)
    ensures FindExact(MONTH_NAMES, "feb") == Some(2)
    ensures FindExact(MONTH_NAMES, "mar") == Some(3)
    ensures FindExact(MONTH_NAMES, "apr") == Some(4)
    ensures FindExact(MONTH_NAMES, "may") == Some(5)
    ensures FindExact(MONTH_NAMES, "jun") == Some(6)
    ensures FindExact(MONTH_NAMES, "jul") == Some(7)
    ensures FindExact(MONTH_NAMES, "aug") == Some(8)
    ensures FindExact(MONTH_NAMES, "sep") == Some(9)
    ensures FindExact(MONTH_NAMES, "oct") == Some(10)
    ensures FindExact(MONTH_NAMES, "nov") == Some(11)
    ensures FindExact(MONTH_NAMES, "dec") == Some(12)
    ensures FindExact(WEEKDAY_NAMES, "sun") == Some(0)
    ensures FindExact(WEEKDAY_NAMES, "mon") == Some(1)
    ensures FindExact(WEEKDAY_NAMES, "tue") == Some(2)
    ensures FindExact(WEEKDAY_NAMES, "wed") == Some(3)
    ensures FindExact(WEEKDAY_NAMES, "thu") == Some(4)
    ensures FindExact(WEEKDAY_NAMES, "fri") == Some(5)
    ensures FindExact(WEEKDAY_NAMES, "sat") == Some(6)
  {
    hide FindExact;
    FirstQuarter();
    SecondQuarter();
    ThirdQuarter();
    FourthQuarter();
    WeekBegins();
    WeekGoesOn();
    WeekEnds();
  }

  /** They are read in upper and lower case and any mixture of the two. */
  lemma NamesAreRead(lower: string, text: string, v: nat)
    requires SameWord(lower, text)
    ensures FindExact(MONTH_NAMES, lower) == Some(v) ==> FieldValue(MONTHS, text) == Some(v)
    ensures FindExact(WEEKDAY_NAMES, lower) == Some(v) ==> FieldValue(DAYS_OF_WEEK, text) == Some(v)
  {
    hide SameWord, LowerCase, FindExact, FindName;
    NamesAreLower();
    FindIsExact(MONTH_NAMES, text);
    FindIsExact(WEEKDAY_NAMES, text);
    SameWordLower(lower, text);
  }

  /** What is read by name is one of the names, whatever the case of its letters. */
  lemma {:induction false} NamesAreKnown(names: seq<(string, nat)>, text: string)
    ensures var found := FindName(names, text);
      found.Some? ==> exists n <- names :: |n.0| == |text| && n.1 == found.value
  {
    if names != [] {
      NamesAreKnown(names[1..], text);
    }
  }

  /** The ends that a range text stands for. */
  ghost predicate RangeMeans(k: Kind, range: string, stepped: bool, start: nat, end: nat) {
    || (range == "*" && start == k.minimum && end == k.maximum)
    || (range != "*" && '-' !in range && FieldValue(k, range) == Some(start) && end == (if stepped then k.maximum else start))
    || (range != "*" && exists a, b :: '-' !in a && range == a + ['-'] + b
                                       && FieldValue(k, a) == Some(start) && FieldValue(k, b) == Some(end))
  }

  lemma RangeExactly(k: Kind, range: string, stepped: bool, start: nat, end: nat)
    ensures ParseRange(k, range, stepped) == Some((start, end)) <==> RangeMeans(k, range, stepped, start, end)
  {
    hide FieldValue, SplitOnce;
    SplitOnceAbsent(range, '-');
    if SplitOnce(range, '-').Some? {
      SplitOnceJoins(range, '-');
    }
    if a, b :| '-' !in a && range == a + ['-'] + b
               && FieldValue(k, a) == Some(start) && FieldValue(k, b) == Some(end) {
      SplitOnceFirst(a, b, '-');
    }
  }

  /** What a part stands for: a range within the limits of the field, perhaps with a step. */
  ghost predicate PartMeans(k: Kind, part: string, item: Item) {
    k.minimum <= item.start <= item.end <= k.maximum
    && ((item.step == 1 && '/' !in part && RangeMeans(k, part, false, item.start, item.end))
        || exists range, step :: '/' !in range && part == range + ['/'] + step && item.step > 0
                                 && Spells(step, item.step) && RangeMeans(k, range, true, item.start, item.end))
  }

  /** Every part is read exactly as the syntax says, and refused if the syntax does not say how. */
  lemma ItemExactly(k: Kind, part: string, item: Item)
    ensures ParseItem(k, part) == Some(item) <==> PartMeans(k, part, item)
  {
    hide ParseRange, ParseByte, SplitOnce, RangeMeans, Spells;
    SplitOnceAbsent(part, '/');
    var slash := SplitOnce(part, '/');
    if slash.None? {
      RangeExactly(k, part, false, item.start, item.end);
    } else {
      SplitOnceJoins(part, '/');
      RangeExactly(k, slash.value.0, true, item.start, item.end);
      ParseByteExactly(slash.value.1, item.step);
    }
    if range, step :| '/' !in range && part == range + ['/'] + step && item.step > 0
                      && Spells(step, item.step) && RangeMeans(k, range, true, item.start, item.end) {
      SplitOnceFirst(range, step, '/');
    }
  }

  /** Sunday has two numbers. */
  lemma SundayIsZero(f: Field)
    requires Means(DAYS_OF_WEEK, "7", f)
    ensures f.values == {0}
  {
    SevenIsRead();
    SplitPlain("7", ',');
    hide ParseItem, Split;
    assert PartSelects(DAYS_OF_WEEK, "7", 7) && Listed(DAYS_OF_WEEK, ["7"], 0);
  }

  lemma SevenIsRead()
    ensures ParseItem(DAYS_OF_WEEK, "7") == Some(Item(7, 7, 1))
  {
    hide ParseItem;
    assert Decimal(7) == "7" && Show(One(7, None)) == "7";
    PrintedPartIsRead(DAYS_OF_WEEK, One(7, None));
  }

  predicate NoBlanks(text: string) { text != "" && forall c <- text :: c !in {' ', '\t', '\n', '\U{000C}', '\r'} }

  /** Words are what stands between blanks. */
  lemma {:induction false} WordInFront(word: string, blank: char, rest: string)
    requires NoBlanks(word) && blank in {' ', '\t', '\n', '\U{000C}', '\r'}
    ensures Words(word + [blank] + rest) == [word] + Words(rest) && Words(word) == [word]
    ensures Words([blank] + rest) == Words(rest)
  {
    var text := word + [blank] + rest;
    assert ([blank] + rest)[1..] == rest && word[0] in word;
    if |word| == 1 {
      assert text[1..] == [blank] + rest && word[1..] == "" && [word[0]] == word;
    } else {
      assert forall c <- word[1..] :: c in word;
      WordInFront(word[1..], blank, rest);
      assert text[1..] == word[1..] + [blank] + rest;
      assert [word[0]] + word[1..] == word && word[1] in word;
    }
  }

  // ---- what expressions and triggers mean ------------------------------------------------------------------

  const MAX_TRIGGERS := 48

  /** A minute of civil time in the anchor's own offset. */
  datatype Minute = Minute(date: Date, hour: nat, minute: nat)

  /** POSIX: with both day fields restricted, either may match. */
  predicate DayMatches(c: CronSchedule, d: Date)
    requires Valid(d)
  {
    var inMonth, inWeek := d.day in c.daysOfMonth.values, Weekday(d) in c.daysOfWeek.values;
    if c.daysOfMonth.wildcard && c.daysOfWeek.wildcard then true
    else if c.daysOfMonth.wildcard then inWeek
    else if c.daysOfWeek.wildcard then inMonth
    else inMonth || inWeek
  }

  /** With both fields restricted neither can keep the other from matching; that is what no trigger can say. */
  lemma EitherDayMatches(c: CronSchedule, d: Date)
    requires Valid(d) && !c.daysOfMonth.wildcard && !c.daysOfWeek.wildcard
    ensures d.day in c.daysOfMonth.values ==> DayMatches(c, d)
    ensures Weekday(d) in c.daysOfWeek.values ==> DayMatches(c, d)
    ensures DayMatches(c, d) ==> d.day in c.daysOfMonth.values || Weekday(d) in c.daysOfWeek.values
  {
  }

  predicate DateMatches(c: CronSchedule, d: Date)
    requires Valid(d)
  {
    d.month in c.months.values && DayMatches(c, d)
  }

  predicate CronMatches(c: CronSchedule, at: Minute)
    requires Valid(at.date)
  {
    at.minute in c.minutes.values && at.hour in c.hours.values && DateMatches(c, at.date)
  }

  /** The anchor's date and offset; `timed` says whether its text has a time separator. */
  datatype Anchor = Anchor(date: Date, timed: bool, suffix: string)

  datatype Boundary = Boundary(date: Date, hour: nat, minute: nat, suffix: string)

  datatype Trigger =
    | Daily(boundary: Boundary)
    | Weekly(boundary: Boundary, weekdays: set<nat>)
    | MonthlyDow(boundary: Boundary, weeks: set<nat>, lastWeek: bool, weekdays: set<nat>, months: set<nat>)
    | Monthly(boundary: Boundary, days: set<nat>, months: set<nat>)

  predicate TriggerDate(t: Trigger, d: Date)
    requires Valid(d)
  {
    match t
    case Daily(_) => true
    case Weekly(_, weekdays) => Weekday(d) in weekdays
    case MonthlyDow(_, weeks, lastWeek, weekdays, months) =>
      d.month in months && Weekday(d) in weekdays && (Occurrence(d) in weeks || (lastWeek && LastOccurrence(d)))
    case Monthly(_, days, months) => d.month in months && d.day in days
  }

  /** When a trigger fires: at its boundary's time, from the boundary's date on. */
  predicate Fires(t: Trigger, at: Minute)
    requires Valid(at.date)
  {
    at.hour == t.boundary.hour && at.minute == t.boundary.minute
    && NotBefore(at.date, t.boundary.date) && TriggerDate(t, at.date)
  }

  /** Only one of the two day fields may be restricted. */
  predicate Representable(c: CronSchedule) { c.daysOfMonth.wildcard || c.daysOfWeek.wildcard }

  // ---- compilation -------------------------------------------------------------------------------------------

  function CalendarTrigger(c: CronSchedule, b: Boundary): Trigger {
    if c.daysOfMonth.wildcard && c.daysOfWeek.wildcard && c.months.wildcard then Daily(b)
    else if !c.daysOfWeek.wildcard && c.months.wildcard then Weekly(b, c.daysOfWeek.values)
    else if !c.daysOfWeek.wildcard then MonthlyDow(b, {1, 2, 3, 4}, true, c.daysOfWeek.values, c.months.values)
    else Monthly(b, c.daysOfMonth.values, c.months.values)
  }

  /** The first four weeks and the last cover every date of every month, whatever its length. */
  lemma WeeksCoverMonths(d: Date)
    requires Valid(d)
    ensures Occurrence(d) in {1, 2, 3, 4} || LastOccurrence(d)
  {
    if d.day <= 28 {
      assert 1 <= Occurrence(d) <= 4;
    }
  }

  /** The chosen trigger fires on exactly the dates the expression matches. */
  lemma TriggerIsExact(c: CronSchedule, b: Boundary, d: Date)
    requires WellFormed(c) && Representable(c) && Valid(d)
    ensures TriggerDate(CalendarTrigger(c, b), d) <==> DateMatches(c, d)
  {
    WeeksCoverMonths(d);
    hide Weekday, Occurrence, LastOccurrence;
  }

  /** A set in the order in which a sorted set is walked. */
  function Ascending(s: set<nat>, bound: nat): seq<nat> {
    if bound == 0 then []
    else Ascending(s, bound - 1) + (if bound - 1 in s then [bound - 1] else [])
  }

  lemma {:induction false} AscendingLists(s: set<nat>, bound: nat)
    ensures forall v :: v in Ascending(s, bound) <==> v in s && v < bound
    ensures forall i, j :: 0 <= i < j < |Ascending(s, bound)| ==> Ascending(s, bound)[i] < Ascending(s, bound)[j]
  {
    if bound > 0 {
      AscendingLists(s, bound - 1);
      var init := Ascending(s, bound - 1);
      forall i | 0 <= i < |init| ensures init[i] < bound - 1 {
        assert init[i] in init;
      }
    }
  }

  ghost function Elements(list: seq<nat>): set<nat> { set v | v in list }

  /** A list without repetitions is as long as its set is large. */
  lemma {:induction false} DistinctCount(list: seq<nat>)
    requires Rising(list)
    ensures |Elements(list)| == |list|
  {
    if list != [] {
      var init, last := list[..|list| - 1], list[|list| - 1];
      DistinctCount(init);
      assert list == init + [last];
      assert last !in init;
      assert Elements(list) == Elements(init) + {last};
    } else {
      assert Elements(list) == {};
    }
  }

  lemma WholeFieldListed(f: Field, minimum: nat, maximum: nat)
    requires FieldFits(f, minimum, maximum)
    ensures var listed := Ascending(f.values, maximum + 1);
      |listed| == |f.values| && (forall v :: v in listed <==> v in f.values) && Rising(listed)
  {
    var listed := Ascending(f.values, maximum + 1);
    AscendingLists(f.values, maximum + 1);
    DistinctCount(listed);
    assert f.values == Elements(listed);
  }

  /** Every hour with every minute, as the nested iteration yields them. */
  function Times(hours: seq<nat>, minutes: seq<nat>): seq<(nat, nat)> {
    if hours == [] then [] else Times(hours[..|hours| - 1], minutes) + Row(hours[|hours| - 1], minutes)
  }

  function Row(hour: nat, minutes: seq<nat>): seq<(nat, nat)> {
    seq(|minutes|, i requires 0 <= i < |minutes| => (hour, minutes[i]))
  }

  ghost predicate Rising(list: seq<nat>) { forall i, j :: 0 <= i < j < |list| ==> list[i] < list[j] }

  ghost predicate NoRepeats(times: seq<(nat, nat)>) { forall i, j :: 0 <= i < j < |times| ==> times[i] != times[j] }

  lemma RowLists(hour: nat, minutes: seq<nat>)
    requires Rising(minutes)
    ensures NoRepeats(Row(hour, minutes))
    ensures forall h, m :: (h, m) in Row(hour, minutes) <==> h == hour && m in minutes
  {
    forall m | m in minutes ensures (hour, m) in Row(hour, minutes) {
      var i :| 0 <= i < |minutes| && minutes[i] == m;
      assert Row(hour, minutes)[i] == (hour, m);
    }
  }

  lemma {:induction false} TimesList(hours: seq<nat>, minutes: seq<nat>)
    requires Rising(hours) && Rising(minutes)
    ensures |Times(hours, minutes)| == |hours| * |minutes| && NoRepeats(Times(hours, minutes))
    ensures forall h, m :: (h, m) in Times(hours, minutes) <==> h in hours && m in minutes
  {
    if hours != [] {
      var init, last := hours[..|hours| - 1], hours[|hours| - 1];
      TimesList(init, minutes);
      RowLists(last, minutes);
      assert hours == init + [last];
      assert last !in init;
      var before, row := Times(init, minutes), Row(last, minutes);
      hide Times, Row;
      assert (|init| + 1) * |minutes| == |init| * |minutes| + |minutes|;
      forall i, j | 0 <= i < |before| && 0 <= j < |row| ensures before[i] != row[j] {
        assert before[i] in before && row[j] in row;
        assert (before[i].0, before[i].1) in before && (row[j].0, row[j].1) in row;
      }
    }
  }

  /** Exactly one trigger fires. */
  ghost predicate FiresOnce(triggers: seq<Trigger>, at: Minute)
    requires Valid(at.date)
  {
    exists i :: 0 <= i < |triggers| && Fires(triggers[i], at)
                && forall j :: 0 <= j < |triggers| && Fires(triggers[j], at) ==> j == i
  }

  /** The triggers fire at the minutes the expression matches from the anchor's date on, each minute by
      exactly one trigger, and at no others. */
  ghost predicate Exact(triggers: seq<Trigger>, c: CronSchedule, from: Date) {
    forall at: Minute :: Valid(at.date) ==>
      if CronMatches(c, at) && NotBefore(at.date, from) then FiresOnce(triggers, at)
      else forall i :: 0 <= i < |triggers| ==> !Fires(triggers[i], at)
  }

  function TriggerAt(c: CronSchedule, first: Anchor, time: (nat, nat)): Trigger {
    CalendarTrigger(c, Boundary(first.date, time.0, time.1, first.suffix))
  }

  lemma TriggerAtFires(c: CronSchedule, first: Anchor, time: (nat, nat), at: Minute)
    requires WellFormed(c) && Representable(c) && Valid(at.date)
    ensures Fires(TriggerAt(c, first, time), at)
            <==> time == (at.hour, at.minute) && NotBefore(at.date, first.date) && DateMatches(c, at.date)
  {
    TriggerIsExact(c, Boundary(first.date, time.0, time.1, first.suffix), at.date);
  }

  lemma TimesAreExact(c: CronSchedule, first: Anchor, times: seq<(nat, nat)>, triggers: seq<Trigger>)
    requires WellFormed(c) && Representable(c) && NoRepeats(times)
    requires forall h, m :: (h, m) in times <==> h in c.hours.values && m in c.minutes.values
    requires |triggers| == |times| && forall n :: 0 <= n < |times| ==> triggers[n] == TriggerAt(c, first, times[n])
    ensures Exact(triggers, c, first.date)
  {
    hide WellFormed, TriggerAt, Fires, DateMatches, NotBefore;
    forall at: Minute | Valid(at.date)
      ensures if CronMatches(c, at) && NotBefore(at.date, first.date) then FiresOnce(triggers, at)
              else forall i :: 0 <= i < |triggers| ==> !Fires(triggers[i], at)
    {
      forall n | 0 <= n < |triggers|
        ensures Fires(triggers[n], at)
                <==> times[n] == (at.hour, at.minute) && NotBefore(at.date, first.date) && DateMatches(c, at.date)
      {
        TriggerAtFires(c, first, times[n], at);
      }
      assert forall n :: 0 <= n < |times| ==> times[n] in times;
      assert (at.hour, at.minute) in times <==> at.hour in c.hours.values && at.minute in c.minutes.values;
      if CronMatches(c, at) && NotBefore(at.date, first.date) {
        var n :| 0 <= n < |times| && times[n] == (at.hour, at.minute);
        assert Fires(triggers[n], at);
      }
    }
  }

  /** compile: the triggers mean exactly what the expression means from the anchor's date on, there is one
      for every hour and minute, and an expression is refused only when both day fields are restricted,
      when the anchor has no time separator, or when more than 48 triggers would be needed. */
  method Compile(c: CronSchedule, first: Anchor) returns (r: Result<seq<Trigger>>)
    requires WellFormed(c)
    ensures r.Ok? <==> (c.daysOfMonth.wildcard || c.daysOfWeek.wildcard) && first.timed
                       && |c.hours.values| * |c.minutes.values| <= 48
    ensures r.Ok? ==> |r.value| == |c.hours.values| * |c.minutes.values| && Exact(r.value, c, first.date)
    ensures r.Ok? ==> forall t <- r.value :: t.boundary.date == first.date && t.boundary.suffix == first.suffix
    ensures r.Ok? ==> forall t <- r.value :: Simplest(c, t)
    ensures r.Err? ==>
      r.error == if !Representable(c) then NotRepresentable(None)
                 else if !first.timed then Invalid
                 else NotRepresentable(Some(49))
  {
    hide Exact, CalendarTrigger, Ascending, FieldFits, Times;
    if !c.daysOfMonth.wildcard && !c.daysOfWeek.wildcard {
      return Err(NotRepresentable(None));
    }
    var hours, minutes := Ascending(c.hours.values, 24), Ascending(c.minutes.values, 60);
    WholeFieldListed(c.hours, 0, 23);
    WholeFieldListed(c.minutes, 0, 59);
    var times := Times(hours, minutes);
    TimesList(hours, minutes);
    SomeTime(c);
    var triggers: seq<Trigger> := [];
    for n := 0 to |times|
      invariant |triggers| == n <= MAX_TRIGGERS && (n > 0 ==> first.timed)
      invariant forall k :: 0 <= k < n ==> triggers[k] == TriggerAt(c, first, times[k])
    {
      if !first.timed {
        return Err(Invalid);
      }
      triggers := triggers + [CalendarTrigger(c, Boundary(first.date, times[n].0, times[n].1, first.suffix))];
      if |triggers| > MAX_TRIGGERS {
        return Err(NotRepresentable(Some(|triggers|)));
      }
    }
    TimesAreExact(c, first, times, triggers);
    TriggersAreAnchored(c, first, times, triggers);
    r := Ok(triggers);
  }

  /** The kind of trigger that says no more than needed. */
  predicate Simplest(c: CronSchedule, t: Trigger) {
    && (t.Daily? <==> c.daysOfMonth.wildcard && c.daysOfWeek.wildcard && c.months.wildcard)
    && (t.Weekly? <==> !c.daysOfWeek.wildcard && c.months.wildcard)
    && (t.MonthlyDow? <==> !c.daysOfWeek.wildcard && !c.months.wildcard)
  }

  lemma TriggersAreAnchored(c: CronSchedule, first: Anchor, times: seq<(nat, nat)>, triggers: seq<Trigger>)
    requires c.daysOfMonth.wildcard || c.daysOfWeek.wildcard
    requires |triggers| == |times| && forall n :: 0 <= n < |times| ==> triggers[n] == TriggerAt(c, first, times[n])
    ensures forall t <- triggers ::
              t.boundary.date == first.date && t.boundary.suffix == first.suffix && Simplest(c, t)
  {
  }

  lemma SomeTime(c: CronSchedule)
    requires WellFormed(c)
    ensures |c.hours.values| * |c.minutes.values| > 0
  {
    assert |c.hours.values| > 0 && |c.minutes.values| > 0;
  }
}
