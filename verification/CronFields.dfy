/**
  Parsing cron expressions: what a list of elements denotes, when the stepping loop
  sets exactly those bits, and that what parses is what the search can serve.
  Integers are 64-bit and wrap around.
 */
module CronFields {
  import opened Common
  import opened Calendar
  import opened CronNext

  const MAX_INT: int := 0x7FFF_FFFF_FFFF_FFFF
  const WORD: int := 0x1_0000_0000_0000_0000

  // ------------------------------------------------------------------- text

  predicate IsSpace(c: char) {
    c == ' ' || ('\t' <= c <= '\r')
  }

  function TrimLeft(s: string): string {
    if s != "" && IsSpace(s[0]) then TrimLeft(s[1..]) else s
  }

  function TrimRight(s: string): string {
    if s != "" && IsSpace(s[|s| - 1]) then TrimRight(s[..|s| - 1]) else s
  }

  function TrimSpace(s: string): string {
    TrimRight(TrimLeft(s))
  }

  function ToLower(s: string): string {
    seq(|s|, i requires 0 <= i < |s| => if 'A' <= s[i] <= 'Z' then (s[i] - 'A') + 'a' else s[i])
  }

  /** Everything up to the first c, and everything after it; None when there is no c. */
  function Cut(s: string, c: char): Option<(string, string)> {
    if s == "" then None
    else if s[0] == c then Some(("", s[1..]))
    else match Cut(s[1..], c)
      case None => None
      case Some((x, y)) => Some(([s[0]] + x, y))
  }

  function Split(s: string, c: char): seq<string>
    decreases |s|
  {
    match Cut(s, c)
    case None => [s]
    case Some((x, y)) => CutShorter(s, c); [x] + Split(y, c)
  }

  lemma {:induction false} CutShorter(s: string, c: char)
    ensures match Cut(s, c)
      case None => c !in s
      case Some((x, y)) => s == x + [c] + y && c !in x
  {
    if s != "" && s[0] != c {
      CutShorter(s[1..], c);
    }
  }

  predicate IsDigit(c: char) {
    '0' <= c <= '9'
  }

  predicate AllDigits(s: string) {
    s != "" && forall i :: 0 <= i < |s| ==> IsDigit(s[i])
  }

  function DigitsValue(s: string): nat
    requires forall i :: 0 <= i < |s| ==> IsDigit(s[i])
  {
    if s == "" then 0
    else
      assert IsDigit(s[|s| - 1]);
      10 * DigitsValue(s[..|s| - 1]) + (s[|s| - 1] - '0') as nat
  }

  /** Base ten, optional sign, within 64 bits. */
  function Atoi(s: string): Option<int> {
    var digits := if s != "" && (s[0] == '-' || s[0] == '+') then s[1..] else s;
    if !AllDigits(digits) then None
    else
      var n: int := DigitsValue(digits);
      var v := if s[0] == '-' then -n else n;
      if -MAX_INT - 1 <= v <= MAX_INT then Some(v) else None
  }

  // ----------------------------------------------------------------- elements

  /** One list element: a, a + step, a + 2 * step, ... up to b. */
  datatype Element = Element(a: int, b: int, step: int)

  function ParseValue(tok: string, names: map<string, int>): Option<int> {
    var t := ToLower(TrimSpace(tok));
    match Atoi(t)
    case Some(n) => Some(n)
    case None => if t in names then Some(names[t]) else None
  }

  function ParseStep(stepStr: string): Option<int> {
    if stepStr == "" then Some(1)
    else match Atoi(stepStr)
      case Some(n) => if n > 0 then Some(n) else None
      case None => None
  }

  /** The first and last value an element's base names. */
  function ParseBase(base: string, stepped: bool, lo: int, hi: int, names: map<string, int>): Option<(int, int)> {
    if base == "*" then Some((lo, hi))
    else match Cut(base, '-')
      case Some((x, y)) =>
        var a := ParseValue(x, names);
        var b := ParseValue(y, names);
        if a.Some? && b.Some? then Some((a.value, b.value)) else None
      case None =>
        match ParseValue(base, names)
        case Some(v) => Some((v, if stepped then hi else v))
        case None => None
  }

  function ParseElement(text: string, lo: int, hi: int, names: map<string, int>): (r: Option<Element>)
    ensures r.Some? ==> lo <= r.value.a <= r.value.b <= hi && 1 <= r.value.step <= MAX_INT
  {
    var part := TrimSpace(text);
    if part == "" then None
    else
      var pieces := match Cut(part, '/') case Some((x, y)) => (x, y) case None => (part, "");
      match ParseStep(pieces.1)
      case None => None
      case Some(step) =>
        match ParseBase(pieces.0, pieces.1 != "", lo, hi, names)
        case None => None
        case Some((a, b)) =>
          if a < lo || b > hi || a > b then None
          else (AtoiRange(pieces.1); Some(Element(a, b, step)))
  }

  lemma AtoiRange(s: string)
    ensures Atoi(s).Some? ==> -MAX_INT - 1 <= Atoi(s).value <= MAX_INT
  {
  }

  /** The values an element stands for. */
  predicate Denotes(e: Element, v: int) {
    e.a <= v <= e.b && e.step > 0 && (v - e.a) % e.step == 0
  }

  // ----------------------------------------------------------- the bit loop

  function WrapAdd(x: int, y: int): int {
    if x + y > MAX_INT then x + y - WORD else x + y
  }

  /** Steps so long that adding one can overflow before the field's end is passed. */
  predicate Huge(step: int) {
    step > MAX_INT - 63
  }

  /**
    Where the loop variable can be: from an overflow it lands far below zero,
    and one more step brings it back near, a little below where it was.
   */
  predicate Reachable(v: int, step: int) {
    && 1 <= step <= MAX_INT
    && v <= 63 + step
    && (if Huge(step) then v >= -126 || -126 <= v + step <= 63 else v >= 0)
  }

  function Turns(v: int, b: int, step: int): int {
    if v > b then 0
    else if !Huge(step) then b - v + 1
    else if v >= -126 then 2 * (v + 126) + 2
    else 2 * (v + step + 126) + 3
  }

  /** Bits set by the loop from v; shifting by a negative amount sets none. */
  function BitsFrom(v: int, b: int, step: int): set<int>
    requires Reachable(v, step) && b <= 63
    decreases Turns(v, b, step)
  {
    if v > b then {}
    else (if v >= 0 then {v} else {}) + BitsFrom(WrapAdd(v, step), b, step)
  }

  /** The loop over one element's values. */
  method SetBits(e: Element, bits: set<int>) returns (r: set<int>)
    requires 0 <= e.a <= e.b <= 63 && 1 <= e.step <= MAX_INT
    ensures r == bits + BitsFrom(e.a, e.b, e.step)
  {
    r := bits;
    var v := e.a;
    while v <= e.b
      invariant Reachable(v, e.step)
      invariant r + BitsFrom(v, e.b, e.step) == bits + BitsFrom(e.a, e.b, e.step)
      decreases Turns(v, e.b, e.step)
    {
      if v >= 0 {
        r := r + {v};
      }
      v := WrapAdd(v, e.step);
    }
  }

  lemma {:induction false} SmallStepBits(v: int, b: int, step: int, u: int)
    requires !Huge(step) && Reachable(v, step) && b <= 63
    ensures u in BitsFrom(v, b, step) <==> v <= u <= b && (u - v) % step == 0
    decreases Turns(v, b, step)
  {
    if v <= b {
      SmallStepBits(v + step, b, step, u);
      StepShift(u, v, step);
    }
  }

  /** The multiples from v on: v itself, and the multiples from v + step on. */
  lemma StepShift(u: int, v: int, step: int)
    requires step > 0
    ensures (v <= u && (u - v) % step == 0) <==> u == v || (v + step <= u && (u - (v + step)) % step == 0)
  {
    if v + step <= u {
      StepMod(u - (v + step), step);
      assert u - (v + step) + step == u - v;
    } else if v <= u {
      SmallMod(u - v, step);
    }
  }

  lemma StepMod(x: int, n: int)
    requires n > 0
    ensures (x + n) % n == x % n
  {
    DivUnique(x + n, n, x / n + 1, x % n);
  }

  lemma DivUnique(x: int, n: int, q: int, r: int)
    requires n > 0 && x == q * n + r && 0 <= r < n
    ensures x % n == r
  {
    var q' := x / n;
    assert (q' - q) * n == r - x % n;
    NoSmallMultiple(q' - q, n);
  }

  /** A multiple of n strictly between -n and n is 0. */
  lemma NoSmallMultiple(k: int, n: int)
    requires n > 0 && -n < k * n < n
    ensures k == 0
  {
    if k >= 1 {
      MulGrows(k, n);
    } else if k <= -1 {
      MulGrows(-k, n);
    }
  }

  lemma MulGrows(k: int, n: int)
    requires k >= 1 && n > 0
    ensures k * n >= n
  {
    assert k * n == (k - 1) * n + n;
  }

  lemma SmallMod(x: int, n: int)
    requires 0 <= x < n
    ensures x % n == x
  {
    DivUnique(x, n, 0, x);
  }

  /** With a huge step the loop either stops or overflows once and comes back at v + 2 * step - 2^64. */
  lemma HugeStepBits(a: int, b: int, step: int)
    requires Huge(step) && step <= MAX_INT && 0 <= a <= b <= 63
    ensures a in BitsFrom(a, b, step)
    ensures a + 2 * step < WORD ==> BitsFrom(a, b, step) == {a}
    ensures a + 2 * step >= WORD ==> a + 2 * step - WORD < a && a + 2 * step - WORD in BitsFrom(a, b, step)
  {
    var next := WrapAdd(a, step);
    if next <= b {
      var back := WrapAdd(next, step);
      assert back == a + 2 * step - WORD;
      assert BitsFrom(a, b, step) == {a} + BitsFrom(next, b, step);
      assert BitsFrom(next, b, step) == BitsFrom(back, b, step);
      if back < 0 {
        assert WrapAdd(back, step) > b;
        assert BitsFrom(WrapAdd(back, step), b, step) == {};
        assert BitsFrom(back, b, step) == {};
      } else {
        assert back in BitsFrom(back, b, step);
      }
    } else {
      assert BitsFrom(next, b, step) == {};
    }
  }

  /**
    The loop sets exactly the bits its element denotes if and only if two steps
    from its first value do not pass 2^64.
   */
  lemma BitsExactIff(e: Element)
    requires 0 <= e.a <= e.b <= 63 && 1 <= e.step <= MAX_INT
    ensures (forall v :: v in BitsFrom(e.a, e.b, e.step) <==> Denotes(e, v)) <==> e.a + 2 * e.step < WORD
  {
    if Huge(e.step) {
      HugeStepBits(e.a, e.b, e.step);
      forall v
        ensures Denotes(e, v) <==> v == e.a
      {
        if e.a < v <= e.b {
          SmallMod(v - e.a, e.step);
        } else if v == e.a {
          SmallMod(0, e.step);
        }
      }
      if e.a + 2 * e.step >= WORD {
        assert !Denotes(e, e.a + 2 * e.step - WORD);
      }
    } else {
      forall v
        ensures v in BitsFrom(e.a, e.b, e.step) <==> Denotes(e, v)
      {
        SmallStepBits(e.a, e.b, e.step, v);
      }
    }
  }

  /** What a step long enough to overflow comes back to: every (2^64 - 2 * step)-th value below the first. */
  predicate Wrapped(e: Element, v: int) {
    Huge(e.step) && 2 * e.step < WORD && 0 <= v <= e.a && (e.a - v) % (WORD - 2 * e.step) == 0
  }

  lemma {:induction false} HugeBitsExactly(v: int, b: int, step: int, u: int)
    requires Huge(step) && step <= MAX_INT && 0 <= v <= b <= 63
    ensures u in BitsFrom(v, b, step) <==> Wrapped(Element(v, b, step), u)
    decreases v
  {
    var back := v + 2 * step - WORD;
    HugeTurn(v, b, step);
    if 0 <= u <= back {
      StepMod(back - u, WORD - 2 * step);
    } else if 0 <= u <= v {
      SmallMod(v - u, WORD - 2 * step);
    }
    if back >= 0 {
      HugeBitsExactly(back, b, step, u);
    }
  }

  /** Two turns of the loop with such a step. */
  lemma HugeTurn(v: int, b: int, step: int)
    requires Huge(step) && step <= MAX_INT && 0 <= v <= b <= 63
    ensures var back := v + 2 * step - WORD;
      back < v && BitsFrom(v, b, step) == {v} + if back >= 0 then BitsFrom(back, b, step) else {}
  {
    var next := WrapAdd(v, step);
    var back := v + 2 * step - WORD;
    if next <= b {
      assert BitsFrom(next, b, step) == BitsFrom(back, b, step);
      if back < 0 {
        assert BitsFrom(WrapAdd(back, step), b, step) == {};
      }
    } else {
      assert BitsFrom(next, b, step) == {};
    }
  }

  /** Exactly the bits of an element, for every step. */
  lemma ElementBitsExactly(e: Element, v: int)
    requires 0 <= e.a <= e.b <= 63 && 1 <= e.step <= MAX_INT
    ensures v in BitsFrom(e.a, e.b, e.step) <==> Denotes(e, v) || Wrapped(e, v)
  {
    if Huge(e.step) {
      HugeBitsExactly(e.a, e.b, e.step, v);
      if v == e.a {
        SmallMod(0, WORD - 2 * e.step);
      } else if e.a < v <= e.b {
        SmallMod(v - e.a, e.step);
      }
    } else {
      SmallStepBits(e.a, e.b, e.step, v);
    }
  }

  /** For example "5/9223372036854775807" also sets bit 3. */
  lemma WrappedStepExample()
    ensures 3 in BitsFrom(5, 59, MAX_INT) && !Denotes(Element(5, 59, MAX_INT), 3)
  {
    HugeStepBits(5, 59, MAX_INT);
  }

  // ------------------------------------------------------------------ a field

  function ElementBits(e: Element): set<int>
    requires 0 <= e.a <= e.b <= 63 && 1 <= e.step <= MAX_INT
  {
    BitsFrom(e.a, e.b, e.step)
  }

  /** The union over the first k parts; every one of them must parse. */
  ghost predicate FieldBits(parts: seq<string>, k: nat, lo: int, hi: int, names: map<string, int>, bits: set<int>)
    requires k <= |parts| && 0 <= lo && hi <= 63
  {
    && (forall i :: 0 <= i < k ==> ParseElement(parts[i], lo, hi, names).Some?)
    && (forall v :: v in bits <==>
          exists i :: 0 <= i < k && ParseElement(parts[i], lo, hi, names).Some?
            && v in ElementBits(ParseElement(parts[i], lo, hi, names).value))
  }

  method ParseField(f: string, lo: int, hi: int, names: map<string, int>) returns (r: Option<set<int>>)
    requires 0 <= lo <= hi <= 63
    ensures r.Some? ==> FieldBits(Split(f, ','), |Split(f, ',')|, lo, hi, names, r.value)
    ensures r.None? ==> exists part :: part in Split(f, ',') && ParseElement(part, lo, hi, names).None?
  {
    var parts := Split(f, ',');
    var out: set<int> := {};
    for k := 0 to |parts|
      invariant FieldBits(parts, k, lo, hi, names, out)
    {
      var e := ParseElement(parts[k], lo, hi, names);
      if e.None? {
        assert parts[k] in parts;
        return None;
      }
      ghost var before := out;
      out := SetBits(e.value, out);
      FieldNext(parts, k, lo, hi, names, before, out);
    }
    return Some(out);
  }

  lemma FieldNext(parts: seq<string>, k: nat, lo: int, hi: int, names: map<string, int>,
                  before: set<int>, after: set<int>)
    requires k < |parts| && 0 <= lo && hi <= 63
    requires FieldBits(parts, k, lo, hi, names, before)
    requires ParseElement(parts[k], lo, hi, names).Some?
    requires after == before + ElementBits(ParseElement(parts[k], lo, hi, names).value)
    ensures FieldBits(parts, k + 1, lo, hi, names, after)
  {
    forall v
      ensures v in after <==>
        exists i :: 0 <= i < k + 1 && ParseElement(parts[i], lo, hi, names).Some?
          && v in ElementBits(ParseElement(parts[i], lo, hi, names).value)
    {
      if v in before {
        var i :| 0 <= i < k && ParseElement(parts[i], lo, hi, names).Some?
          && v in ElementBits(ParseElement(parts[i], lo, hi, names).value);
        assert 0 <= i < k + 1;
      }
      if i :| (0 <= i < k + 1 && ParseElement(parts[i], lo, hi, names).Some?
               && v in ElementBits(ParseElement(parts[i], lo, hi, names).value)) {
        assert i < k ==> v in before;
      }
    }
  }

  /** The step the field's parts use are short enough never to wrap. */
  ghost predicate NoWrap(parts: seq<string>, lo: int, hi: int, names: map<string, int>) {
    forall i :: 0 <= i < |parts| && ParseElement(parts[i], lo, hi, names).Some? ==>
      var e := ParseElement(parts[i], lo, hi, names).value;
      e.a + 2 * e.step < WORD
  }

  /** Some element of the field denotes v. */
  ghost predicate FieldDenotes(parts: seq<string>, lo: int, hi: int, names: map<string, int>, v: int) {
    exists i :: 0 <= i < |parts| && ParseElement(parts[i], lo, hi, names).Some?
      && Denotes(ParseElement(parts[i], lo, hi, names).value, v)
  }

  /** Some value, and all of them in range. */
  predicate InRange(values: set<int>, lo: int, hi: int) {
    (exists v :: v in values) && (forall v :: v in values ==> lo <= v <= hi)
  }

  /** Even a loop that overflows sets no bit past the element's end. */
  lemma {:induction false} BitsBounded(v: int, b: int, step: int, u: int)
    requires Reachable(v, step) && b <= 63 && u in BitsFrom(v, b, step)
    ensures 0 <= u <= b
    decreases Turns(v, b, step)
  {
    if u != v || v < 0 {
      BitsBounded(WrapAdd(v, step), b, step, u);
    }
  }

  /** Whatever the steps: an accepted field names a value in range, and none above it. */
  lemma FieldBounded(f: string, lo: int, hi: int, names: map<string, int>, bits: set<int>)
    requires 0 <= lo <= hi <= 63
    requires FieldBits(Split(f, ','), |Split(f, ',')|, lo, hi, names, bits)
    ensures Meets(bits, lo, hi)
    ensures forall v :: v in bits ==> 0 <= v <= hi
  {
    var parts := Split(f, ',');
    SplitNonempty(f, ',');
    var e := ParseElement(parts[0], lo, hi, names).value;
    assert ParseElement(parts[0], lo, hi, names).Some? && e.a in ElementBits(e);
    assert e.a in bits;
    forall v | v in bits
      ensures 0 <= v <= hi
    {
      var i :| 0 <= i < |parts| && ParseElement(parts[i], lo, hi, names).Some?
        && v in ElementBits(ParseElement(parts[i], lo, hi, names).value);
      var w := ParseElement(parts[i], lo, hi, names).value;
      BitsBounded(w.a, w.b, w.step, v);
    }
  }

  /** A bit is set if and only if some element denotes it; all bits are in range, and there is one. */
  lemma FieldMeaning(f: string, lo: int, hi: int, names: map<string, int>, bits: set<int>)
    requires 0 <= lo <= hi <= 63
    requires FieldBits(Split(f, ','), |Split(f, ',')|, lo, hi, names, bits)
    requires NoWrap(Split(f, ','), lo, hi, names)
    ensures forall v :: v in bits <==> FieldDenotes(Split(f, ','), lo, hi, names, v)
    ensures InRange(bits, lo, hi)
  {
    var parts := Split(f, ',');
    forall v
      ensures v in bits <==> FieldDenotes(parts, lo, hi, names, v)
      ensures v in bits ==> lo <= v <= hi
    {
      if v in bits {
        var i :| 0 <= i < |parts| && ParseElement(parts[i], lo, hi, names).Some?
          && v in ElementBits(ParseElement(parts[i], lo, hi, names).value);
        BitsExactIff(ParseElement(parts[i], lo, hi, names).value);
        assert Denotes(ParseElement(parts[i], lo, hi, names).value, v);
      }
      if FieldDenotes(parts, lo, hi, names, v) {
        var i :| 0 <= i < |parts| && ParseElement(parts[i], lo, hi, names).Some?
          && Denotes(ParseElement(parts[i], lo, hi, names).value, v);
        BitsExactIff(ParseElement(parts[i], lo, hi, names).value);
      }
    }
    SplitNonempty(f, ',');
    var e := ParseElement(parts[0], lo, hi, names).value;
    SmallMod(0, e.step);
    assert Denotes(e, e.a);
    assert FieldDenotes(parts, lo, hi, names, e.a);
  }

  /** Some element's loop overflows and comes back to v. */
  ghost predicate FieldWraps(parts: seq<string>, lo: int, hi: int, names: map<string, int>, v: int) {
    exists i :: 0 <= i < |parts| && ParseElement(parts[i], lo, hi, names).Some?
      && Wrapped(ParseElement(parts[i], lo, hi, names).value, v)
  }

  /**
    Exactly the bits of an accepted field, for every step; so they are what the
    field denotes if and only if all that its loops come back to is denoted too.
   */
  lemma FieldExactly(f: string, lo: int, hi: int, names: map<string, int>, bits: set<int>)
    requires 0 <= lo <= hi <= 63
    requires FieldBits(Split(f, ','), |Split(f, ',')|, lo, hi, names, bits)
    ensures var parts := Split(f, ',');
      && (forall v :: v in bits <==> FieldDenotes(parts, lo, hi, names, v) || FieldWraps(parts, lo, hi, names, v))
      && ((forall v :: v in bits <==> FieldDenotes(parts, lo, hi, names, v)) <==>
            forall v :: FieldWraps(parts, lo, hi, names, v) ==> FieldDenotes(parts, lo, hi, names, v))
  {
    forall v
      ensures var parts := Split(f, ',');
        v in bits <==> FieldDenotes(parts, lo, hi, names, v) || FieldWraps(parts, lo, hi, names, v)
    {
      FieldBit(f, lo, hi, names, bits, v);
    }
  }

  lemma FieldBit(f: string, lo: int, hi: int, names: map<string, int>, bits: set<int>, v: int)
    requires 0 <= lo <= hi <= 63
    requires FieldBits(Split(f, ','), |Split(f, ',')|, lo, hi, names, bits)
    ensures var parts := Split(f, ',');
      v in bits <==> FieldDenotes(parts, lo, hi, names, v) || FieldWraps(parts, lo, hi, names, v)
  {
    var parts := Split(f, ',');
    forall i | 0 <= i < |parts|
      ensures ParseElement(parts[i], lo, hi, names).Some?
      ensures var e := ParseElement(parts[i], lo, hi, names).value;
        v in ElementBits(e) <==> Denotes(e, v) || Wrapped(e, v)
    {
      ElementBitsExactly(ParseElement(parts[i], lo, hi, names).value, v);
    }
  }

  lemma SplitNonempty(s: string, c: char)
    ensures Split(s, c) != []
  {
  }

  // ------------------------------------------------------------ the schedule

  const MONTH_NAMES: map<string, int> := map[
    "jan" := 1, "feb" := 2, "mar" := 3, "apr" := 4, "may" := 5, "jun" := 6,
    "jul" := 7, "aug" := 8, "sep" := 9, "oct" := 10, "nov" := 11, "dec" := 12]

  const DOW_NAMES: map<string, int> := map[
    "sun" := 0, "mon" := 1, "tue" := 2, "wed" := 3, "thu" := 4, "fri" := 5, "sat" := 6]

  /** Weekday 7 is folded onto 0. */
  function FoldDow(raw: set<int>): set<int> {
    (set v | v in raw && 0 <= v < 7) + (if 7 in raw then {0} else {})
  }

  /** A weekday is allowed if the field names it, or names 7 when it is Sunday: 5-7 means Friday to Sunday. */
  lemma FoldKeepsMeaning(raw: set<int>, w: int)
    requires InRange(raw, 0, 7) && 0 <= w <= 6
    ensures w in FoldDow(raw) <==> exists v :: v in raw && v % 7 == w
    ensures InRange(FoldDow(raw), 0, 6)
  {
    var some :| some in raw;
    assert some % 7 in FoldDow(raw);
    if w in FoldDow(raw) {
      assert if w in raw then w % 7 == w else 7 in raw && w == 0;
    }
  }

  /** No step in any field is so long that it wraps. */
  ghost predicate StepsFit(fields: seq<string>) {
    && |fields| == 5
    && NoWrap(Split(fields[0], ','), 0, 59, map[]) && NoWrap(Split(fields[1], ','), 0, 23, map[])
    && NoWrap(Split(fields[2], ','), 1, 31, map[]) && NoWrap(Split(fields[3], ','), 1, 12, MONTH_NAMES)
    && NoWrap(Split(fields[4], ','), 0, 7, DOW_NAMES)
  }

  /** The schedule has the bits its five fields set. */
  ghost predicate Reads(fields: seq<string>, s: Schedule) {
    && |fields| == 5
    && Sets(fields[0], 0, 59, map[], s.min) && Sets(fields[1], 0, 23, map[], s.hour)
    && Sets(fields[2], 1, 31, map[], s.dom) && Sets(fields[3], 1, 12, MONTH_NAMES, s.mon)
    && (exists raw :: Sets(fields[4], 0, 7, DOW_NAMES, raw) && s.dow == FoldDow(raw))
    && s.domRestricted == (fields[2] != "*") && s.dowRestricted == (fields[4] != "*")
  }

  ghost predicate Sets(f: string, lo: int, hi: int, names: map<string, int>, bits: set<int>)
    requires 0 <= lo && hi <= 63
  {
    FieldBits(Split(f, ','), |Split(f, ',')|, lo, hi, names, bits)
  }

  lemma SetsUnique(f: string, lo: int, hi: int, names: map<string, int>, x: set<int>, y: set<int>)
    requires 0 <= lo && hi <= 63 && Sets(f, lo, hi, names, x) && Sets(f, lo, hi, names, y)
    ensures x == y
  {
    forall v
      ensures v in x <==> v in y
    {
    }
  }

  lemma ReadsUnique(fields: seq<string>, s: Schedule, t: Schedule)
    requires Reads(fields, s) && Reads(fields, t)
    ensures s == t
  {
    SetsUnique(fields[0], 0, 59, map[], s.min, t.min);
    SetsUnique(fields[1], 0, 23, map[], s.hour, t.hour);
    SetsUnique(fields[2], 1, 31, map[], s.dom, t.dom);
    SetsUnique(fields[3], 1, 12, MONTH_NAMES, s.mon, t.mon);
    var x :| Sets(fields[4], 0, 7, DOW_NAMES, x) && s.dow == FoldDow(x);
    var y :| Sets(fields[4], 0, 7, DOW_NAMES, y) && t.dow == FoldDow(y);
    SetsUnique(fields[4], 0, 7, DOW_NAMES, x, y);
  }

  lemma ReadsOnly(fields: seq<string>, s: Schedule)
    requires Reads(fields, s)
    ensures forall t :: Reads(fields, t) ==> t == s
  {
    forall t | Reads(fields, t) ensures t == s {
      ReadsUnique(fields, t, s);
    }
  }

  predicate CanFire(s: Schedule) {
    s.min != {} && s.hour != {} && (s.dom != {} || s.dow != {}) && s.mon != {} && Feasible(s)
  }

  /** As long as no step wraps, every bit of a parsed schedule is one its field can have. */
  lemma ReadsInRange(fields: seq<string>, s: Schedule)
    requires Reads(fields, s) && StepsFit(fields)
    ensures InRange(s.min, 0, 59) && InRange(s.hour, 0, 23)
    ensures InRange(s.dom, 1, 31) && InRange(s.mon, 1, 12) && InRange(s.dow, 0, 6)
  {
    var raw :| Sets(fields[4], 0, 7, DOW_NAMES, raw) && s.dow == FoldDow(raw);
    FieldMeaning(fields[0], 0, 59, map[], s.min);
    FieldMeaning(fields[1], 0, 23, map[], s.hour);
    FieldMeaning(fields[2], 1, 31, map[], s.dom);
    FieldMeaning(fields[3], 1, 12, MONTH_NAMES, s.mon);
    FieldMeaning(fields[4], 0, 7, DOW_NAMES, raw);
    FoldKeepsMeaning(raw, 0);
  }

  lemma FoldMeets(raw: set<int>)
    requires Meets(raw, 0, 7)
    ensures Meets(FoldDow(raw), 0, 6)
  {
    var v :| v in raw && 0 <= v <= 7;
    assert v % 7 in FoldDow(raw);
  }

  /** What parsing accepts is what the search's guarantees need, wrapped steps or not. */
  lemma ReadsAccepted(fields: seq<string>, s: Schedule)
    requires Reads(fields, s)
    ensures WellFormed(s) && (Feasible(s) ==> Accepted(s))
  {
    var raw :| Sets(fields[4], 0, 7, DOW_NAMES, raw) && s.dow == FoldDow(raw);
    FieldBounded(fields[0], 0, 59, map[], s.min);
    FieldBounded(fields[1], 0, 23, map[], s.hour);
    FieldBounded(fields[2], 1, 31, map[], s.dom);
    FieldBounded(fields[3], 1, 12, MONTH_NAMES, s.mon);
    FieldBounded(fields[4], 0, 7, DOW_NAMES, raw);
    FoldMeets(raw);
  }

  /** The five fields of an expression, already separated; None for the errors Parse reports. */
  method ParseFields(fields: seq<string>) returns (r: Option<Schedule>)
    ensures r.Some? ==> Reads(fields, r.value) && CanFire(r.value)
    ensures r.None? ==> forall s :: Reads(fields, s) ==> !CanFire(s)
  {
    if |fields| != 5 {
      return None;
    }
    var min := ParseField(fields[0], 0, 59, map[]);
    if min.None? {
      return None;
    }
    var hour := ParseField(fields[1], 0, 23, map[]);
    if hour.None? {
      return None;
    }
    var dom := ParseField(fields[2], 1, 31, map[]);
    if dom.None? {
      return None;
    }
    var mon := ParseField(fields[3], 1, 12, MONTH_NAMES);
    if mon.None? {
      return None;
    }
    var raw := ParseField(fields[4], 0, 7, DOW_NAMES);
    if raw.None? {
      return None;
    }
    var dow := FoldDow(raw.value);
    var out := Schedule(min.value, hour.value, dom.value, mon.value, dow, fields[2] != "*", fields[4] != "*");
    ReadsOnly(fields, out);
    if out.min == {} || out.hour == {} || (out.dom == {} && out.dow == {}) || out.mon == {} {
      return None;
    }
    var ok := CheckFeasible(out);
    if !ok {
      return None;
    }
    return Some(out);
  }

  // ----------------------------------------------------------- an expression

  const ALL_HOUR: set<int> := set v | 0 <= v <= 23
  const ALL_DOM: set<int> := set v | 1 <= v <= 31
  const ALL_MON: set<int> := set v | 1 <= v <= 12
  const ALL_DOW: set<int> := set v | 0 <= v <= 6

  /** An alias restricts a day field that does not allow every day. */
  function AliasOf(min: set<int>, hour: set<int>, dom: set<int>, mon: set<int>, dow: set<int>): Schedule {
    Schedule(min, hour, dom, mon, dow, dom != ALL_DOM, dow != ALL_DOW)
  }

  function Alias(name: string): Option<Schedule> {
    if name == "@yearly" || name == "@annually" then Some(AliasOf({0}, {0}, {1}, {1}, ALL_DOW))
    else if name == "@monthly" then Some(AliasOf({0}, {0}, {1}, ALL_MON, ALL_DOW))
    else if name == "@weekly" then Some(AliasOf({0}, {0}, ALL_DOM, ALL_MON, {0}))
    else if name == "@daily" || name == "@midnight" then Some(AliasOf({0}, {0}, ALL_DOM, ALL_MON, ALL_DOW))
    else if name == "@hourly" then Some(AliasOf({0}, ALL_HOUR, ALL_DOM, ALL_MON, ALL_DOW))
    else None
  }

  /** Every alias is a schedule the search's guarantees apply to, and fires whatever the year. */
  lemma AliasAccepted(name: string)
    requires Alias(name).Some?
    ensures Accepted(Alias(name).value) && HasOrdinaryDay(Alias(name).value)
  {
    var s := Alias(name).value;
    assert 0 in s.min && 0 in s.hour && 1 in s.dom && 1 in s.mon && 0 in s.dow;
    assert 1 <= MAX_DAYS[1];
  }

  predicate AtMidnight(t: Minute) {
    HourOf(t) == 0 && MinuteOf(t) == 0
  }

  /** When each alias fires. */
  lemma AliasMeaning(t: Minute)
    ensures forall name :: name in ["@yearly", "@annually"] ==>
      Alias(name).Some? && (Matches(Alias(name).value, t) <==> MonthOf(t) == 1 && DayOfMonth(t) == 1 && AtMidnight(t))
    ensures Alias("@monthly").Some? && (Matches(Alias("@monthly").value, t) <==> DayOfMonth(t) == 1 && AtMidnight(t))
    ensures Alias("@weekly").Some? && (Matches(Alias("@weekly").value, t) <==> WeekdayOf(t) == 0 && AtMidnight(t))
    ensures forall name :: name in ["@daily", "@midnight"] ==>
      Alias(name).Some? && (Matches(Alias(name).value, t) <==> AtMidnight(t))
    ensures Alias("@hourly").Some? && (Matches(Alias("@hourly").value, t) <==> MinuteOf(t) == 0)
  {
    Reading(t);
    DayFlags();
  }

  /** Which day fields the aliases restrict. */
  lemma DayFlags()
    ensures {1} != ALL_DOM && {0} != ALL_DOW
  {
    assert 2 in ALL_DOM && 1 in ALL_DOW;
  }

  /** The names in calendar order. */
  const MONTHS := ["jan", "feb", "mar", "apr", "may", "jun", "jul", "aug", "sep", "oct", "nov", "dec"]
  const DAYS := ["sun", "mon", "tue", "wed", "thu", "fri", "sat"]

  /** A month name is the month's number, a day name the weekday's, Sunday being 0; there are no other names. */
  lemma NamesInOrder()
    ensures |MONTHS| == 12 && forall i :: 0 <= i < 12 ==> MONTHS[i] in MONTH_NAMES && MONTH_NAMES[MONTHS[i]] == i + 1
    ensures |DAYS| == 7 && forall i :: 0 <= i < 7 ==> DAYS[i] in DOW_NAMES && DOW_NAMES[DAYS[i]] == i
    ensures forall name :: (name in MONTH_NAMES <==> name in MONTHS) && (name in DOW_NAMES <==> name in DAYS)
  {
  }

  /** The text up to the first blank. */
  function Word(s: string): (w: string)
    ensures |w| <= |s| && (s != "" && !IsSpace(s[0]) ==> w != "")
  {
    if s == "" || IsSpace(s[0]) then "" else [s[0]] + Word(s[1..])
  }

  /** The words between blanks. */
  function Words(s: string): seq<string>
    decreases |s|
  {
    if s == "" then []
    else if IsSpace(s[0]) then Words(s[1..])
    else [Word(s)] + Words(s[|Word(s)|..])
  }

  /** The ASCII blanks: space, tab, line feed, vertical tab, form feed and carriage return. */
  const BLANKS: set<char> := {' ', '\t', '\n', '\U{0B}', '\U{0C}', '\r'}

  predicate AllBlank(s: string) {
    forall i :: 0 <= i < |s| ==> s[i] in BLANKS
  }

  predicate IsWord(w: string) {
    w != "" && forall i :: 0 <= i < |w| ==> w[i] !in BLANKS
  }

  lemma BlankIs(c: char)
    ensures IsSpace(c) <==> c in BLANKS
  {
  }

  /** Words with a gap after each; the last gap may be empty. */
  function Spaced(words: seq<string>, gaps: seq<string>): string
    requires |gaps| == |words|
  {
    if words == [] then "" else words[0] + gaps[0] + Spaced(words[1..], gaps[1..])
  }

  predicate AreGaps(gaps: seq<string>) {
    forall i :: 0 <= i < |gaps| ==> AllBlank(gaps[i]) && (i < |gaps| - 1 ==> gaps[i] != "")
  }

  lemma {:induction false} WordOf(w: string, rest: string)
    requires forall i :: 0 <= i < |w| ==> w[i] !in BLANKS
    requires rest == "" || rest[0] in BLANKS
    ensures Word(w + rest) == w
  {
    var s := w + rest;
    if w == "" {
      assert s == rest;
    } else {
      WordOf(w[1..], rest);
      BlankIs(w[0]);
      assert s[1..] == w[1..] + rest;
      assert w == [w[0]] + w[1..];
    }
  }

  lemma {:induction false} GapSkipped(gap: string, rest: string)
    requires AllBlank(gap)
    ensures Words(gap + rest) == Words(rest)
  {
    if gap == "" {
      assert gap + rest == rest;
    } else {
      GapSkipped(gap[1..], rest);
      BlankIs(gap[0]);
      assert (gap + rest)[1..] == gap[1..] + rest;
    }
  }

  /** Words written with blanks between them are read back. */
  lemma {:induction false} WordsSpaced(words: seq<string>, gaps: seq<string>)
    requires |gaps| == |words| && AreGaps(gaps) && forall i :: 0 <= i < |words| ==> IsWord(words[i])
    ensures Words(Spaced(words, gaps)) == words
  {
    if words != [] {
      var w, rest := words[0], gaps[0] + Spaced(words[1..], gaps[1..]);
      assert Spaced(words, gaps) == w + rest;
      if gaps[0] == "" {
        assert |words| == 1 && rest == "";
      }
      WordOf(w, rest);
      BlankIs(w[0]);
      assert (w + rest)[0] == w[0] && (w + rest)[|w|..] == rest;
      GapSkipped(gaps[0], Spaced(words[1..], gaps[1..]));
      WordsSpaced(words[1..], gaps[1..]);
    }
  }

  /** Blanks around the text are dropped, and nothing else. */
  lemma {:induction false} TrimPads(pre: string, text: string, post: string)
    requires AllBlank(pre) && AllBlank(post)
    requires text != "" && text[0] !in BLANKS && text[|text| - 1] !in BLANKS
    ensures TrimSpace(pre + text + post) == text
    decreases |pre| + |post|
  {
    var s := pre + text + post;
    if pre != "" {
      BlankIs(s[0]);
      assert s[1..] == pre[1..] + text + post;
      TrimPads(pre[1..], text, post);
    } else {
      BlankIs(s[0]);
      assert s == text + post && TrimLeft(s) == s;
      TrimEnd(text, post);
    }
  }

  lemma {:induction false} TrimEnd(text: string, post: string)
    requires AllBlank(post) && text != "" && text[|text| - 1] !in BLANKS
    ensures TrimRight(text + post) == text
  {
    var s := text + post;
    BlankIs(s[|s| - 1]);
    if post == "" {
      assert s == text;
    } else {
      assert s[..|s| - 1] == text + post[..|post| - 1];
      TrimEnd(text, post[..|post| - 1]);
    }
  }

  /** What an expression means: an alias, or five fields that name a schedule that can fire. */
  ghost predicate ParsesTo(spec: string, s: Schedule) {
    var text := TrimSpace(spec);
    && text != ""
    && (match Alias(ToLower(text))
        case Some(known) => s == known
        case None => Reads(Words(text), s) && CanFire(s))
  }

  method Parse(spec: string) returns (r: Option<Schedule>)
    ensures r.Some? ==> ParsesTo(spec, r.value)
    ensures r.None? ==> forall s :: !ParsesTo(spec, s)
  {
    var text := TrimSpace(spec);
    if text == "" {
      return None;
    }
    var known := Alias(ToLower(text));
    if known.Some? {
      return known;
    }
    r := ParseFields(Words(text));
  }

  /** Every expression that parses names one schedule, which the search's guarantees apply to. */
  lemma ParsedAccepted(spec: string, s: Schedule)
    requires ParsesTo(spec, s)
    ensures Accepted(s) && forall t :: ParsesTo(spec, t) ==> t == s
  {
    var text := TrimSpace(spec);
    if Alias(ToLower(text)).Some? {
      AliasAccepted(ToLower(text));
    } else {
      ReadsAccepted(Words(text), s);
      ReadsOnly(Words(text), s);
    }
  }

  /** Every schedule that parses fires whenever the search window holds a leap day. */
  lemma ParsedFires(spec: string, s: Schedule, t: Minute)
    requires ParsesTo(spec, s) && HoldsLeapDay(t, Limit(t))
    ensures Fires(s, t, Limit(t))
  {
    ParsedAccepted(spec, s);
    AcceptedFires(s, t);
  }

  /** And what the search returns for a schedule that parses is a time, exactly when there is one to return. */
  lemma ParsedNext(spec: string, s: Schedule, afterNs: int, r: Option<Minute>)
    requires ParsesTo(spec, s) && IsNext(s, afterNs, r)
    ensures Accepted(s)
    ensures var t := FirstMinute(afterNs);
      && (HoldsLeapDay(t, Limit(t)) ==> r.Some?)
      && (r.Some? <==> HasOrdinaryDay(s) || LeapDayInReach(t, Limit(t), FirstTime(s), LastTime(s)))
  {
    var t := FirstMinute(afterNs);
    ParsedAccepted(spec, s);
    NextExactly(s, afterNs, r);
    IsNextMeans(s, afterNs, r);
    if HoldsLeapDay(t, Limit(t)) {
      AcceptedFires(s, t);
      var u :| t <= u < Limit(t) && Matches(s, u);
    }
  }
}
