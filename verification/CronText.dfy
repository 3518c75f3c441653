/**
  Cron fields as people write them: parsing a written list gives back the
  elements that were written, so the bits set are the values they name.
 */
module CronText {
  import opened Common
  import Calendar
  import opened CronNext
  import opened CronFields

  /** A value is written as a number, or as a month or weekday name in any case. */
  datatype Value = Number(v: nat) | Name(text: string, name: string, v: nat)

  /** The forms of a list element. */
  datatype Written =
    | Star
    | StarStep(n: nat)
    | Single(x: Value)
    | From(x: Value, n: nat)
    | Range(x: Value, y: Value)
    | RangeStep(x: Value, y: Value, n: nat)

  function Dec(n: nat): string {
    if n < 10 then [Digit(n)] else Dec(n / 10) + [Digit(n % 10)]
  }

  function Digit(d: nat): char
    requires d < 10
  {
    '0' + d as char
  }

  function Text(x: Value): string {
    match x
    case Number(v) => Dec(v)
    case Name(text, _, _) => text
  }

  predicate SmallLetters(s: string) {
    s != "" && forall i :: 0 <= i < |s| ==> 'a' <= s[i] <= 'z'
  }

  /** The same letters, each small or capital. */
  predicate InAnyCase(text: string, name: string) {
    |text| == |name| && forall i :: 0 <= i < |text| ==> text[i] == name[i] || text[i] as int == name[i] as int - 32
  }

  /** A name stands for its value in this field. */
  predicate Known(x: Value, names: map<string, int>) {
    x.Name? ==> SmallLetters(x.name) && InAnyCase(x.text, x.name) && x.name in names && names[x.name] == x.v
  }

  function Render(w: Written): string {
    match w
    case Star => "*"
    case StarStep(n) => "*" + ['/'] + Dec(n)
    case Single(x) => Text(x)
    case From(x, n) => Text(x) + ['/'] + Dec(n)
    case Range(x, y) => Text(x) + ['-'] + Text(y)
    case RangeStep(x, y, n) => Text(x) + ['-'] + Text(y) + ['/'] + Dec(n)
  }

  /** What a form means in a field of values lo..hi. */
  function Meaning(w: Written, lo: int, hi: int): Element {
    match w
    case Star => Element(lo, hi, 1)
    case StarStep(n) => Element(lo, hi, n)
    case Single(x) => Element(x.v, x.v, 1)
    case From(x, n) => Element(x.v, hi, n)
    case Range(x, y) => Element(x.v, y.v, 1)
    case RangeStep(x, y, n) => Element(x.v, y.v, n)
  }

  predicate Acceptable(w: Written, lo: int, hi: int, names: map<string, int>) {
    var e := Meaning(w, lo, hi);
    && lo <= e.a <= e.b <= hi && 1 <= e.step <= MAX_INT
    && (w.Single? || w.From? || w.Range? || w.RangeStep? ==> Known(w.x, names))
    && (w.Range? || w.RangeStep? ==> Known(w.y, names))
  }

  lemma {:induction false} DecDigits(n: nat)
    ensures AllDigits(Dec(n)) && DigitsValue(Dec(n)) == n
  {
    if n >= 10 {
      DecDigits(n / 10);
      var s := Dec(n);
      assert s[..|s| - 1] == Dec(n / 10);
    } else {
      assert Dec(n)[..0] == "";
    }
  }

  lemma AtoiDec(n: nat)
    requires n <= MAX_INT
    ensures Atoi(Dec(n)) == Some(n)
  {
    DecDigits(n);
    assert IsDigit(Dec(n)[0]);
  }

  /** Numbers are decimal, with an optional sign, and end where 64 bits end. */
  lemma AtoiSigned(n: nat)
    ensures Atoi(Dec(n)) == if n <= MAX_INT then Some(n) else None
    ensures Atoi(['+'] + Dec(n)) == if n <= MAX_INT then Some(n) else None
    ensures var m: int := n;
      Atoi(['-'] + Dec(n)) == if n <= MAX_INT + 1 then Some(-m) else None
  {
    DecDigits(n);
    assert IsDigit(Dec(n)[0]);
    AfterSign('+', Dec(n));
    AfterSign('-', Dec(n));
  }

  lemma AfterSign(sign: char, digits: string)
    requires (sign == '+' || sign == '-') && AllDigits(digits)
    ensures var m: int := DigitsValue(digits);
      var v := if sign == '-' then -m else m;
      Atoi([sign] + digits) == if -MAX_INT - 1 <= v <= MAX_INT then Some(v) else None
  {
    var s := [sign] + digits;
    assert s[1..] == digits && s[0] == sign;
  }

  /** A step is a positive number; zero, a negative one or one past 64 bits is an error. */
  lemma StepsPositive(n: nat)
    ensures ParseStep(Dec(n)) == if 0 < n <= MAX_INT then Some(n) else None
    ensures ParseStep(['-'] + Dec(n)) == None
  {
    AtoiSigned(n);
    DecDigits(n);
  }

  lemma TrimIdentity(s: string)
    requires s != "" && !IsSpace(s[0]) && !IsSpace(s[|s| - 1])
    ensures TrimSpace(s) == s
  {
  }

  /** Text with no blanks at all. */
  predicate Plain(s: string) {
    s != "" && forall i :: 0 <= i < |s| ==> !IsSpace(s[i])
  }

  lemma PlainText(s: string)
    requires Plain(s)
    ensures TrimSpace(s) == s
  {
    TrimIdentity(s);
  }

  lemma DecPlain(n: nat)
    ensures Plain(Dec(n)) && ToLower(Dec(n)) == Dec(n)
    ensures '/' !in Dec(n) && '-' !in Dec(n) && ',' !in Dec(n) && '*' !in Dec(n)
  {
    DecDigits(n);
    var s := Dec(n);
    forall i | 0 <= i < |s|
      ensures IsDigit(s[i])
    {
    }
  }

  lemma NamePlain(text: string, name: string)
    requires SmallLetters(name) && InAnyCase(text, name)
    ensures Plain(text) && ToLower(text) == name && Atoi(name) == None
    ensures '/' !in text && '-' !in text && ',' !in text && '*' !in text
  {
    forall i | 0 <= i < |text|
      ensures 'a' <= text[i] <= 'z' || 'A' <= text[i] <= 'Z'
      ensures ToLower(text)[i] == name[i]
    {
    }
    assert !IsDigit(name[0]);
  }

  lemma ValuePlain(x: Value, names: map<string, int>)
    requires Known(x, names)
    ensures Plain(Text(x))
    ensures '/' !in Text(x) && '-' !in Text(x) && ',' !in Text(x) && '*' !in Text(x)
  {
    match x
    case Number(v) => DecPlain(v);
    case Name(text, name, _) => NamePlain(text, name);
  }

  lemma ParseText(x: Value, names: map<string, int>)
    requires Known(x, names) && x.v <= MAX_INT
    ensures ParseValue(Text(x), names) == Some(x.v)
  {
    ValuePlain(x, names);
    PlainText(Text(x));
    match x
    case Number(v) =>
      DecPlain(v);
      AtoiDec(v);
    case Name(text, name, _) => NamePlain(text, name);
  }

  lemma {:induction false} CutAt(x: string, c: char, y: string)
    requires c !in x
    ensures Cut(x + [c] + y, c) == Some((x, y))
  {
    var s := x + [c] + y;
    if x == "" {
      assert s[1..] == y;
    } else {
      CutAt(x[1..], c, y);
      assert s[1..] == x[1..] + [c] + y;
      assert [x[0]] + x[1..] == x;
    }
  }

  lemma CutNone(s: string, c: char)
    requires c !in s
    ensures Cut(s, c) == None
  {
    CutShorter(s, c);
  }

  /** The base of each form, before any step. */
  function Base(w: Written): string {
    match w
    case Star => "*"
    case StarStep(n) => "*"
    case Single(x) => Text(x)
    case From(x, n) => Text(x)
    case Range(x, y) => Text(x) + ['-'] + Text(y)
    case RangeStep(x, y, n) => Text(x) + ['-'] + Text(y)
  }

  predicate HasStep(w: Written) {
    w.StarStep? || w.From? || w.RangeStep?
  }

  function StepText(w: Written): string {
    if HasStep(w) then Dec(w.n) else ""
  }

  lemma RenderIs(w: Written)
    ensures Render(w) == if HasStep(w) then Base(w) + ['/'] + StepText(w) else Base(w)
  {
  }

  lemma BasePlain(w: Written, lo: int, hi: int, names: map<string, int>)
    requires Acceptable(w, lo, hi, names)
    ensures Plain(Base(w)) && '/' !in Base(w) && ',' !in Base(w)
  {
    match w
    case Star =>
    case StarStep(_) =>
    case Single(x) => ValuePlain(x, names);
    case From(x, _) => ValuePlain(x, names);
    case Range(x, y) => DashPlain(x, y, names);
    case RangeStep(x, y, _) => DashPlain(x, y, names);
  }

  lemma DashPlain(x: Value, y: Value, names: map<string, int>)
    requires Known(x, names) && Known(y, names)
    ensures var s := Text(x) + ['-'] + Text(y);
      Plain(s) && '/' !in s && ',' !in s
  {
    ValuePlain(x, names);
    ValuePlain(y, names);
  }

  lemma RenderPlain(w: Written, lo: int, hi: int, names: map<string, int>)
    requires Acceptable(w, lo, hi, names)
    ensures Plain(Render(w)) && ',' !in Render(w)
  {
    RenderIs(w);
    BasePlain(w, lo, hi, names);
    if HasStep(w) {
      DecPlain(w.n);
    }
  }

  lemma ParseBaseIs(w: Written, lo: int, hi: int, names: map<string, int>)
    requires 0 <= lo <= hi <= 63 && Acceptable(w, lo, hi, names)
    ensures ParseBase(Base(w), HasStep(w), lo, hi, names) == Some((Meaning(w, lo, hi).a, Meaning(w, lo, hi).b))
  {
    match w
    case Star =>
    case StarStep(_) =>
    case Single(x) => OneValue(x, names);
    case From(x, _) => OneValue(x, names);
    case Range(x, y) => TwoValues(x, y, names);
    case RangeStep(x, y, _) => TwoValues(x, y, names);
  }

  lemma OneValue(x: Value, names: map<string, int>)
    requires Known(x, names) && x.v <= 63
    ensures Text(x) != "*" && Cut(Text(x), '-') == None && ParseValue(Text(x), names) == Some(x.v)
  {
    ValuePlain(x, names);
    CutNone(Text(x), '-');
    ParseText(x, names);
    assert "*"[0] == '*' && '*' in "*";
  }

  lemma TwoValues(x: Value, y: Value, names: map<string, int>)
    requires Known(x, names) && Known(y, names) && x.v <= 63 && y.v <= 63
    ensures var s := Text(x) + ['-'] + Text(y);
      s != "*" && Cut(s, '-') == Some((Text(x), Text(y)))
    ensures ParseValue(Text(x), names) == Some(x.v) && ParseValue(Text(y), names) == Some(y.v)
  {
    ValuePlain(x, names);
    CutAt(Text(x), '-', Text(y));
    ParseText(x, names);
    ParseText(y, names);
    var s := Text(x) + ['-'] + Text(y);
    assert s[|Text(x)|] == '-';
  }

  /** Parsing a written element gives back its meaning. */
  lemma ParseRendered(w: Written, lo: int, hi: int, names: map<string, int>)
    requires 0 <= lo <= hi <= 63 && Acceptable(w, lo, hi, names)
    ensures ParseElement(Render(w), lo, hi, names) == Some(Meaning(w, lo, hi))
  {
    RenderPlain(w, lo, hi, names);
    PlainText(Render(w));
    CutRendered(w, lo, hi, names);
    ParseBaseIs(w, lo, hi, names);
    ParseStepIs(w, lo, hi, names);
  }

  lemma ParseStepIs(w: Written, lo: int, hi: int, names: map<string, int>)
    requires Acceptable(w, lo, hi, names)
    ensures ParseStep(StepText(w)) == Some(Meaning(w, lo, hi).step)
    ensures HasStep(w) <==> StepText(w) != ""
  {
    if HasStep(w) {
      DecDigits(w.n);
      AtoiDec(w.n);
    }
  }

  lemma CutRendered(w: Written, lo: int, hi: int, names: map<string, int>)
    requires Acceptable(w, lo, hi, names)
    ensures Cut(Render(w), '/') == if HasStep(w) then Some((Base(w), StepText(w))) else None
  {
    RenderIs(w);
    BasePlain(w, lo, hi, names);
    if HasStep(w) {
      CutAt(Base(w), '/', StepText(w));
    } else {
      CutNone(Base(w), '/');
    }
  }

  /** A slash with nothing after it is no step at all. */
  lemma EmptyStep(w: Written, lo: int, hi: int, names: map<string, int>)
    requires 0 <= lo <= hi <= 63 && Acceptable(w, lo, hi, names) && !HasStep(w)
    ensures ParseElement(Render(w) + ['/'], lo, hi, names) == Some(Meaning(w, lo, hi))
  {
    var text := Render(w) + ['/'];
    RenderIs(w);
    BasePlain(w, lo, hi, names);
    PlainText(text);
    CutAt(Base(w), '/', "");
    assert text == Base(w) + ['/'] + "";
    ParseBaseIs(w, lo, hi, names);
  }

  // -------------------------------------------------------------------- lists

  function Renders(ws: seq<Written>): seq<string> {
    seq(|ws|, i requires 0 <= i < |ws| => Render(ws[i]))
  }

  function Join(parts: seq<string>): string
    requires parts != []
  {
    if |parts| == 1 then parts[0] else parts[0] + [','] + Join(parts[1..])
  }

  lemma {:induction false} SplitJoin(parts: seq<string>)
    requires parts != [] && forall i :: 0 <= i < |parts| ==> ',' !in parts[i]
    ensures Split(Join(parts), ',') == parts
  {
    if |parts| == 1 {
      CutNone(parts[0], ',');
    } else {
      CutAt(parts[0], ',', Join(parts[1..]));
      SplitJoin(parts[1..]);
    }
  }

  /**
    A written list whose values are in range is accepted, and, when no step is
    long enough to wrap, sets exactly the values its elements name.
   */
  lemma WrittenFieldMeaning(ws: seq<Written>, lo: int, hi: int, names: map<string, int>, bits: set<int>)
    requires ws != [] && 0 <= lo <= hi <= 63
    requires forall i :: 0 <= i < |ws| ==>
      Acceptable(ws[i], lo, hi, names) && Meaning(ws[i], lo, hi).a + 2 * Meaning(ws[i], lo, hi).step < WORD
    requires Sets(Join(Renders(ws)), lo, hi, names, bits)
    ensures forall v :: v in bits <==> exists i :: 0 <= i < |ws| && Denotes(Meaning(ws[i], lo, hi), v)
  {
    var f := Join(Renders(ws));
    WrittenParts(ws, lo, hi, names);
    FieldMeaning(f, lo, hi, names, bits);
    forall v
      ensures v in bits <==> exists i :: 0 <= i < |ws| && Denotes(Meaning(ws[i], lo, hi), v)
    {
      if v in bits {
        assert FieldDenotes(Split(f, ','), lo, hi, names, v);
        var i :| 0 <= i < |ws| && ParseElement(Split(f, ',')[i], lo, hi, names).Some?
          && Denotes(ParseElement(Split(f, ',')[i], lo, hi, names).value, v);
        assert Denotes(Meaning(ws[i], lo, hi), v);
      }
      if i :| 0 <= i < |ws| && Denotes(Meaning(ws[i], lo, hi), v) {
        assert ParseElement(Split(f, ',')[i], lo, hi, names).Some?;
        assert FieldDenotes(Split(f, ','), lo, hi, names, v);
      }
    }
  }

  lemma WrittenParts(ws: seq<Written>, lo: int, hi: int, names: map<string, int>)
    requires ws != [] && 0 <= lo <= hi <= 63
    requires forall i :: 0 <= i < |ws| ==> Acceptable(ws[i], lo, hi, names)
    ensures var parts := Split(Join(Renders(ws)), ',');
      && |parts| == |ws|
      && forall i :: 0 <= i < |parts| ==> ParseElement(parts[i], lo, hi, names) == Some(Meaning(ws[i], lo, hi))
  {
    forall i | 0 <= i < |ws|
      ensures ',' !in Renders(ws)[i]
      ensures ParseElement(Renders(ws)[i], lo, hi, names) == Some(Meaning(ws[i], lo, hi))
    {
      RenderPlain(ws[i], lo, hi, names);
      ParseRendered(ws[i], lo, hi, names);
    }
    SplitJoin(Renders(ws));
  }

  // -------------------------------------------------------------- expressions

  /** A star sets the field's first value, among others. */
  lemma StarSets(lo: int, hi: int, names: map<string, int>, bits: set<int>)
    requires 0 <= lo <= hi <= 63 && Sets("*", lo, hi, names, bits)
    ensures lo in bits
  {
    CutNone("*", ',');
    assert Split("*", ',') == ["*"];
    ParseRendered(Star, lo, hi, names);
    assert ParseElement("*", lo, hi, names) == Some(Element(lo, hi, 1));
    assert lo in ElementBits(Element(lo, hi, 1));
    assert Split("*", ',')[0] == "*";
  }

  /** Of the expressions whose five fields can be read, exactly those that never fire are turned away. */
  lemma RejectedIffNeverFires(fields: seq<string>, s: Schedule)
    requires Reads(fields, s)
    ensures CanFire(s) <==> exists t :: Matches(s, t)
  {
    ReadsAccepted(fields, s);
    SomeDay(fields, s);
    NothingEmpty(s);
    FeasibleMeans(s);
  }

  lemma SomeDay(fields: seq<string>, s: Schedule)
    requires Reads(fields, s)
    ensures s.domRestricted || 1 in s.dom
  {
    if !s.domRestricted {
      StarSets(1, 31, map[], s.dom);
    }
  }

  lemma NothingEmpty(s: Schedule)
    requires WellFormed(s)
    ensures CanFire(s) <==> Feasible(s)
  {
  }

  /** An alias is recognised in any case and with blanks around it. */
  lemma AliasParses(pre: string, text: string, post: string)
    requires AllBlank(pre) && AllBlank(post) && text != "" && text[0] !in BLANKS && text[|text| - 1] !in BLANKS
    requires Alias(ToLower(text)).Some?
    ensures ParsesTo(pre + text + post, Alias(ToLower(text)).value)
  {
    TrimPads(pre, text, post);
  }

  /** Five words with blanks between and around them are the five fields, unless the text is an alias. */
  lemma FieldsParse(pre: string, words: seq<string>, gaps: seq<string>, post: string, s: Schedule)
    requires |words| == |gaps| == 5 && AllBlank(pre) && AllBlank(post) && AreGaps(gaps) && gaps[4] == ""
    requires forall i :: 0 <= i < 5 ==> IsWord(words[i])
    requires Alias(ToLower(Spaced(words, gaps))).None?
    ensures ParsesTo(pre + Spaced(words, gaps) + post, s) <==> Reads(words, s) && CanFire(s)
  {
    var text := Spaced(words, gaps);
    SpacedEnds(words, gaps);
    WordsSpaced(words, gaps);
    TrimPads(pre, text, post);
  }

  /** Text of words starts and ends with one. */
  lemma {:induction false} SpacedEnds(words: seq<string>, gaps: seq<string>)
    requires |words| == |gaps| > 0 && gaps[|gaps| - 1] == ""
    requires forall i :: 0 <= i < |words| ==> IsWord(words[i])
    ensures var text := Spaced(words, gaps);
      text != "" && text[0] !in BLANKS && text[|text| - 1] !in BLANKS
  {
    if |words| > 1 {
      SpacedEnds(words[1..], gaps[1..]);
    } else {
      assert Spaced(words, gaps) == words[0] + gaps[0] + "" == words[0];
    }
  }

  /** The field names the value. */
  ghost predicate Named(f: string, lo: int, hi: int, names: map<string, int>, v: int) {
    FieldDenotes(Split(f, ','), lo, hi, names, v)
  }

  /** The day fields name the day: either one when neither is a star, else the one that is not, else any day. */
  ghost predicate DayNamed(dom: string, dow: string, t: Calendar.Minute) {
    var day := Named(dom, 1, 31, map[], Calendar.DayOfMonth(t));
    var weekday := exists v :: Named(dow, 0, 7, DOW_NAMES, v) && v % 7 == Calendar.WeekdayOf(t);
    && (dom == "*" && dow != "*" ==> weekday)
    && (dom != "*" && dow == "*" ==> day)
    && (dom != "*" && dow != "*" ==> day || weekday)
  }

  /** When an expression fires, in terms of what its fields say; its steps are short enough not to wrap. */
  lemma ExpressionMeaning(fields: seq<string>, s: Schedule, t: Calendar.Minute)
    requires Reads(fields, s) && StepsFit(fields)
    ensures Matches(s, t) <==>
      && Named(fields[0], 0, 59, map[], Calendar.MinuteOf(t))
      && Named(fields[1], 0, 23, map[], Calendar.HourOf(t))
      && Named(fields[3], 1, 12, MONTH_NAMES, Calendar.MonthOf(t))
      && DayNamed(fields[2], fields[4], t)
  {
    NamedIs(fields[0], 0, 59, map[], s.min, Calendar.MinuteOf(t));
    NamedIs(fields[1], 0, 23, map[], s.hour, Calendar.HourOf(t));
    NamedIs(fields[3], 1, 12, MONTH_NAMES, s.mon, Calendar.MonthOf(t));
    DayMeaning(fields, s, t);
  }

  lemma NamedIs(f: string, lo: int, hi: int, names: map<string, int>, bits: set<int>, v: int)
    requires 0 <= lo <= hi <= 63 && Sets(f, lo, hi, names, bits) && NoWrap(Split(f, ','), lo, hi, names)
    ensures Named(f, lo, hi, names, v) <==> v in bits
  {
    FieldMeaning(f, lo, hi, names, bits);
  }

  lemma DayMeaning(fields: seq<string>, s: Schedule, t: Calendar.Minute)
    requires Reads(fields, s) && StepsFit(fields)
    ensures DayMatches(s, t) <==> DayNamed(fields[2], fields[4], t)
  {
    NamedIs(fields[2], 1, 31, map[], s.dom, Calendar.DayOfMonth(t));
    WeekdayMeaning(fields, s, Calendar.WeekdayOf(t));
  }

  lemma WeekdayMeaning(fields: seq<string>, s: Schedule, w: int)
    requires Reads(fields, s) && StepsFit(fields) && 0 <= w <= 6
    ensures w in s.dow <==> exists v :: Named(fields[4], 0, 7, DOW_NAMES, v) && v % 7 == w
  {
    var raw :| Sets(fields[4], 0, 7, DOW_NAMES, raw) && s.dow == FoldDow(raw);
    FieldMeaning(fields[4], 0, 7, DOW_NAMES, raw);
    FoldKeepsMeaning(raw, w);
    if v :| v in raw && v % 7 == w {
      assert Named(fields[4], 0, 7, DOW_NAMES, v);
    }
    if v :| Named(fields[4], 0, 7, DOW_NAMES, v) && v % 7 == w {
      assert v in raw;
    }
  }
}
