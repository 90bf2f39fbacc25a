/**
 * The two conversions the page applies to its widget values before the call
 * (app.py, lines 125-126): the size option "WxH" split into width and height
 * with int(), and the seed text turned into an integer only when its stripped
 * form is all digits. Characters are ASCII here: Unicode digits and Unicode
 * whitespace are not modelled. str.strip() and int() disagree on what
 * whitespace is, so both sets are modelled.
 */
module UiParams {
  import opened Wrappers

  /** The size options the page offers. */
  const SIZE_OPTIONS: seq<string> := ["1024x1024", "768x768", "512x512"]

  /**
   * The two ASCII whitespace sets in play: str.strip() and str.isspace() take
   * space, tab to carriage return and 0x1c to 0x1f; int() skips only space and
   * tab to carriage return around its digits.
   */
  datatype Whitespace = StripSet | IntSet

  predicate IsSpace(c: char, ws: Whitespace) {
    c == ' ' || (9 <= c as int <= 13) || (ws == StripSet && 28 <= c as int <= 31)
  }

  predicate IsDigit(c: char) {
    '0' <= c <= '9'
  }

  predicate AllDigits(s: string) {
    forall i :: 0 <= i < |s| ==> IsDigit(s[i])
  }

  /** str.isdigit: non-empty and nothing but digits. */
  predicate IsDigitString(s: string) {
    |s| > 0 && AllDigits(s)
  }

  predicate AllSpace(s: string, ws: Whitespace) {
    forall i :: 0 <= i < |s| ==> IsSpace(s[i], ws)
  }

  /** What int() accepts once its whitespace is skipped: digits, optionally
      after one sign. */
  predicate IsIntLiteral(t: string) {
    IsDigitString(t) || (|t| > 0 && (t[0] == '+' || t[0] == '-') && IsDigitString(t[1..]))
  }

  /** The digits of an int() literal, without its sign. */
  function LiteralDigits(t: string): string
    requires IsIntLiteral(t)
  {
    if IsDigitString(t) then t else t[1..]
  }

  /** CPython's limit on the number of digits int() converts from text and str()
      writes (sys.int_info.default_max_str_digits); leading zeros count. */
  const MAX_STR_DIGITS: nat := 4300

  function DigitValue(c: char): nat
    requires IsDigit(c)
  {
    c as int - '0' as int
  }

  function DigitChar(d: nat): (c: char)
    requires d < 10
    ensures IsDigit(c) && DigitValue(c) == d
  {
    ('0' as int + d) as char
  }

  /** The number a digit string denotes in decimal (leading zeros allowed). */
  function DigitsValue(s: string): nat
    requires AllDigits(s)
    decreases |s|
  {
    if s == [] then 0 else 10 * DigitsValue(s[..|s| - 1]) + DigitValue(s[|s| - 1])
  }

  /** Decimal notation of a natural number, without leading zeros. */
  function NatToString(n: nat): (s: string)
    ensures IsDigitString(s)
    decreases n
  {
    if n < 10 then [DigitChar(n)] else NatToString(n / 10) + [DigitChar(n % 10)]
  }

  /** Python's str(i) for an integer. */
  function IntToString(i: int): string {
    if i < 0 then "-" + NatToString(-i) else NatToString(i)
  }

  /** The number of leading whitespace characters. */
  function LeadingSpaces(s: string, ws: Whitespace): (k: nat)
    ensures k <= |s|
    ensures forall i :: 0 <= i < k ==> IsSpace(s[i], ws)
    ensures k < |s| ==> !IsSpace(s[k], ws)
  {
    if |s| > 0 && IsSpace(s[0], ws) then 1 + LeadingSpaces(s[1..], ws) else 0
  }

  /** The number of trailing whitespace characters. */
  function TrailingSpaces(s: string, ws: Whitespace): (k: nat)
    ensures k <= |s|
    ensures forall i :: |s| - k <= i < |s| ==> IsSpace(s[i], ws)
    ensures k < |s| ==> !IsSpace(s[|s| - 1 - k], ws)
  {
    if |s| > 0 && IsSpace(s[|s| - 1], ws) then 1 + TrailingSpaces(s[..|s| - 1], ws) else 0
  }

  /** The text between the leading and the trailing whitespace: str.strip() for
      StripSet, what int() reads for IntSet. */
  function Strip(s: string, ws: Whitespace): (r: string)
    ensures LeadingSpaces(s, ws) + |r| <= |s|
    ensures r == s[LeadingSpaces(s, ws)..LeadingSpaces(s, ws) + |r|]
    ensures forall i :: LeadingSpaces(s, ws) + |r| <= i < |s| ==> IsSpace(s[i], ws)
    ensures r == [] || (!IsSpace(r[0], ws) && !IsSpace(r[|r| - 1], ws))
  {
    var t := s[LeadingSpaces(s, ws)..];
    t[..|t| - TrailingSpaces(t, ws)]
  }

  /**
   * Python's int() on text, without underscores: optional whitespace around an
   * optional sign followed by at least one and at most MAX_STR_DIGITS digits;
   * None where int() raises.
   */
  function PyInt(s: string): (n: Option<int>)
    ensures var t := Strip(s, IntSet);
            n.Some? <==> IsIntLiteral(t) && |LiteralDigits(t)| <= MAX_STR_DIGITS
    ensures var t := Strip(s, IntSet);
            IsDigitString(t) && |t| <= MAX_STR_DIGITS ==> n == Some(DigitsValue(t))
    ensures var t := Strip(s, IntSet);
            IsIntLiteral(t) && t[0] == '-' && |t| - 1 <= MAX_STR_DIGITS ==>
              n == Some(-(DigitsValue(t[1..]) as int))
    ensures var t := Strip(s, IntSet);
            IsIntLiteral(t) && t[0] == '+' && |t| - 1 <= MAX_STR_DIGITS ==>
              n == Some(DigitsValue(t[1..]))
  {
    var t := Strip(s, IntSet);
    if |t| > 0 && (t[0] == '+' || t[0] == '-') then
      if IsDigitString(t[1..]) && |t| - 1 <= MAX_STR_DIGITS then
        var v: int := DigitsValue(t[1..]);
        Some(if t[0] == '-' then -v else v)
      else None
    else if IsDigitString(t) && |t| <= MAX_STR_DIGITS then Some(DigitsValue(t))
    else None
  }

  /** The first position of `c` in `s`. */
  function IndexOf(s: string, c: char): (i: nat)
    requires c in s
    ensures i < |s| && s[i] == c && c !in s[..i]
  {
    if s[0] == c then 0
    else
      var i := 1 + IndexOf(s[1..], c);
      assert s[..i] == [s[0]] + s[1..][..i - 1];
      i
  }

  /** The inverse of Split: the parts with the separator between them. */
  function Join(parts: seq<string>, sep: char): string
    requires |parts| >= 1
  {
    if |parts| == 1 then parts[0] else parts[0] + [sep] + Join(parts[1..], sep)
  }

  /** str.split(sep): the pieces between separators, one more than there are
      separators, empty pieces kept. */
  function Split(s: string, sep: char): (parts: seq<string>)
    ensures |parts| >= 1
    ensures forall i :: 0 <= i < |parts| ==> sep !in parts[i]
    ensures Join(parts, sep) == s
    decreases |s|
  {
    if sep !in s then [s]
    else
      var i := IndexOf(s, sep);
      var rest := Split(s[i + 1..], sep);
      assert s == s[..i] + [sep] + s[i + 1..];
      [s[..i]] + rest
  }

  /**
   * `w, h = map(int, size.split("x"))`: exactly two pieces, each accepted by
   * int(); None where the source raises.
   */
  function ParseSize(size: string): (wh: Option<(int, int)>)
    ensures wh.Some? ==>
              'x' in size &&
              var i := IndexOf(size, 'x');
              'x' !in size[i + 1..] &&
              PyInt(size[..i]) == Some(wh.value.0) &&
              PyInt(size[i + 1..]) == Some(wh.value.1)
  {
    var parts := Split(size, 'x');
    if |parts| != 2 then None
    else
      match (PyInt(parts[0]), PyInt(parts[1]))
      case (Some(w), Some(h)) =>
        assert size == parts[0] + ['x'] + parts[1];
        assert size[..|parts[0]|] == parts[0];
        assert size[|parts[0]| + 1..] == parts[1];
        SplitPrefix(parts[0], parts[1], 'x');
        Some((w, h))
      case _ => None
  }

  /** Splitting a + [sep] + b, where a has no separator, isolates a. */
  lemma SplitPrefix(a: string, b: string, sep: char)
    requires sep !in a
    ensures sep in a + [sep] + b && IndexOf(a + [sep] + b, sep) == |a|
  {
    var s := a + [sep] + b;
    assert s[|a|] == sep;
    assert s[..|a|] == a;
  }

  /** Splitting undoes joining when no part contains the separator. */
  lemma {:induction false} SplitJoin(parts: seq<string>, sep: char)
    requires |parts| >= 1
    requires forall i :: 0 <= i < |parts| ==> sep !in parts[i]
    ensures Split(Join(parts, sep), sep) == parts
  {
    if |parts| > 1 {
      var s := Join(parts, sep);
      var rest := Join(parts[1..], sep);
      assert s == parts[0] + [sep] + rest;
      SplitPrefix(parts[0], rest, sep);
      assert s[..|parts[0]|] == parts[0];
      assert s[|parts[0]| + 1..] == rest;
      SplitJoin(parts[1..], sep);
    }
  }

  /** A size written as two integers around an "x" parses to those integers. */
  lemma {:induction false} ParseSizeOfParts(a: string, b: string, w: int, h: int)
    requires 'x' !in a && 'x' !in b
    requires PyInt(a) == Some(w) && PyInt(b) == Some(h)
    ensures ParseSize(a + "x" + b) == Some((w, h))
  {
    SplitJoin([a, b], 'x');
    assert Join([a, b], 'x') == a + "x" + b;
  }

  /** Decimal notation read back gives the number. */
  lemma {:induction false} DigitsRoundTrip(n: nat)
    ensures DigitsValue(NatToString(n)) == n
    decreases n
  {
    if n >= 10 {
      DigitsRoundTrip(n / 10);
      var s := NatToString(n);
      assert s[..|s| - 1] == NatToString(n / 10);
    }
  }

  /** Text without whitespace at either end is its own strip, whatever whitespace
      surrounds it. */
  lemma {:induction false} StripPadded(pre: string, s: string, post: string, ws: Whitespace)
    requires AllSpace(pre, ws) && AllSpace(post, ws)
    requires s != [] && !IsSpace(s[0], ws) && !IsSpace(s[|s| - 1], ws)
    ensures Strip(pre + s + post, ws) == s
  {
    var x := pre + s + post;
    var k := LeadingSpaces(x, ws);
    assert x[|pre|] == s[0];
    assert forall i :: 0 <= i < |pre| ==> x[i] == pre[i];
    assert k == |pre|;
    var t := x[k..];
    assert t == s + post;
    var m := TrailingSpaces(t, ws);
    assert t[|s| - 1] == s[|s| - 1];
    assert forall i :: |s| <= i < |t| ==> t[i] == post[i - |s|];
    assert m == |post|;
  }

  /** A digit string, possibly after a minus sign, is what int() reads of itself. */
  lemma StripSigned(sign: string, digits: string)
    requires sign == "" || sign == "-"
    requires IsDigitString(digits)
    ensures Strip(sign + digits, IntSet) == sign + digits
  {
    var s := sign + digits;
    assert s[|s| - 1] == digits[|digits| - 1];
    StripPadded("", s, "", IntSet);
    assert "" + s + "" == s;
  }

  /** int() reads back str() of every integer within the digit limit. */
  lemma {:induction false} PyIntRoundTrip(i: int)
    requires |NatToString(if i < 0 then -i else i)| <= MAX_STR_DIGITS
    ensures PyInt(IntToString(i)) == Some(i)
  {
    if i < 0 {
      var digits := NatToString(-i);
      DigitsRoundTrip(-i);
      StripSigned("-", digits);
      assert ("-" + digits)[1..] == digits;
    } else {
      var digits := NatToString(i);
      DigitsRoundTrip(i);
      StripSigned("", digits);
      assert "" + digits == digits;
    }
  }

  /** A size written by str(w) + "x" + str(h) parses back to (w, h). */
  lemma {:induction false} SizeRoundTrip(w: int, h: int)
    requires |NatToString(if w < 0 then -w else w)| <= MAX_STR_DIGITS
    requires |NatToString(if h < 0 then -h else h)| <= MAX_STR_DIGITS
    ensures ParseSize(IntToString(w) + "x" + IntToString(h)) == Some((w, h))
  {
    PyIntRoundTrip(w);
    PyIntRoundTrip(h);
    var a, b := IntToString(w), IntToString(h);
    assert forall i :: 0 <= i < |a| ==> a[i] == '-' || IsDigit(a[i]);
    assert forall i :: 0 <= i < |b| ==> b[i] == '-' || IsDigit(b[i]);
    ParseSizeOfParts(a, b, w, h);
  }

  /** A square size option "NxN" parses to (N, N). */
  lemma {:induction false} SquareOption(n: nat, option: string)
    requires option == NatToString(n) + "x" + NatToString(n)
    requires |NatToString(n)| <= MAX_STR_DIGITS
    ensures ParseSize(option) == Some((n, n))
  {
    SizeRoundTrip(n, n);
  }

  /** The decimal notations of the three sides the page offers. */
  lemma SideNotations()
    ensures NatToString(1024) == "1024"
    ensures NatToString(768) == "768"
    ensures NatToString(512) == "512"
  {
    assert NatToString(10) == "10";
    assert NatToString(102) == "102";
    assert NatToString(76) == "76";
    assert NatToString(51) == "51";
  }

  /** The sides of the size options, in the order the page lists them. */
  const SIDES: seq<nat> := [1024, 768, 512]

  /** Every size the page offers parses to a square of side 1024, 768 or 512. */
  lemma SizeOptionsAreSquare(i: nat)
    requires i < |SIZE_OPTIONS|
    ensures ParseSize(SIZE_OPTIONS[i]) == Some((SIDES[i], SIDES[i]))
  {
    SideNotations();
    assert SIZE_OPTIONS[i] == NatToString(SIDES[i]) + "x" + NatToString(SIDES[i]);
    SquareOption(SIDES[i], SIZE_OPTIONS[i]);
  }

  /**
   * When str.strip() leaves digits, int() reads the same text exactly when the
   * two whitespace sets strip the same characters; otherwise what int() sees
   * starts or ends with a character it does not skip, and it raises.
   */
  lemma {:induction false} IntStripAgrees(text: string)
    requires IsDigitString(Strip(text, StripSet))
    ensures IsIntLiteral(Strip(text, IntSet)) <==> Strip(text, IntSet) == Strip(text, StripSet)
  {
    var r, q := Strip(text, StripSet), Strip(text, IntSet);
    var a, b := LeadingSpaces(text, StripSet), LeadingSpaces(text, IntSet);
    if IsIntLiteral(q) {
      assert text[a] == r[0];
      assert b == a;
      assert |q| == |r|;
    }
  }

  /** What the page makes of the seed text: no seed, a seed, or the ValueError
      that int() raises, which nothing catches. */
  datatype SeedText = NoSeed | Seed(value: int) | IntRaised

  /**
   * `int(seed_text) if seed_text.strip().isdigit() else None`: no seed unless
   * the stripped text is a non-empty digit string; then a seed, its decimal
   * value, exactly when int() skips the same whitespace as strip() and the
   * digits are within int()'s limit, and otherwise the error int() raises.
   */
  function ParseSeed(text: string): (seed: SeedText)
    ensures seed.NoSeed? <==> !IsDigitString(Strip(text, StripSet))
    ensures seed.Seed? <==>
              IsDigitString(Strip(text, StripSet)) && Strip(text, IntSet) == Strip(text, StripSet) &&
              |Strip(text, StripSet)| <= MAX_STR_DIGITS
    ensures seed.Seed? ==> seed.value == DigitsValue(Strip(text, StripSet)) && seed.value >= 0
  {
    if IsDigitString(Strip(text, StripSet)) then
      IntStripAgrees(text);
      match PyInt(text)
      case Some(n) => Seed(n)
      case None => IntRaised
    else NoSeed
  }

  /** A seed typed as its decimal notation, within int()'s digit limit and with
      whitespace around it that int() skips, is read as that number. */
  lemma {:induction false} SeedRoundTrip(n: nat, pre: string, post: string)
    requires AllSpace(pre, IntSet) && AllSpace(post, IntSet)
    requires |NatToString(n)| <= MAX_STR_DIGITS
    ensures ParseSeed(pre + NatToString(n) + post) == Seed(n)
  {
    var s := NatToString(n);
    assert !IsSpace(s[0], StripSet) && !IsSpace(s[|s| - 1], StripSet);
    assert AllSpace(pre, StripSet) && AllSpace(post, StripSet);
    StripPadded(pre, s, post, StripSet);
    StripPadded(pre, s, post, IntSet);
    DigitsRoundTrip(n);
  }

  /** A digit string after one of 0x1c..0x1f passes the isdigit guard, since
      strip() removes that character, but int() does not skip it and raises. */
  lemma {:induction false} SeparatorBeforeSeedRaises(c: char, n: nat)
    requires 28 <= c as int <= 31
    ensures ParseSeed([c] + NatToString(n)) == IntRaised
  {
    var d := NatToString(n);
    var text := [c] + d;
    assert !IsSpace(d[0], StripSet) && !IsSpace(d[|d| - 1], StripSet);
    StripPadded([c], d, "", StripSet);
    assert [c] + d + "" == text;
    assert LeadingSpaces(text, IntSet) == 0;
    assert Strip(text, IntSet) != d;
  }

  /** A digit string longer than int()'s limit passes the isdigit guard, and then
      int() raises (4301 zeros, say). */
  lemma {:induction false} TooManyDigitsRaises(digits: string)
    requires IsDigitString(digits) && |digits| > MAX_STR_DIGITS
    ensures ParseSeed(digits) == IntRaised
  {
    assert IsDigit(digits[0]) && IsDigit(digits[|digits| - 1]);
    assert "" + digits + "" == digits;
    StripPadded("", digits, "", StripSet);
    assert Strip(digits, StripSet) == digits;
    var seed := ParseSeed(digits);
    assert !seed.NoSeed? && !seed.Seed?;
  }

  /** Blank text gives no seed: the server picks one. */
  lemma {:induction false} BlankSeedIsNone(text: string)
    requires AllSpace(text, StripSet)
    ensures ParseSeed(text) == NoSeed
  {
  }

  /** A signed number gives no seed: isdigit rejects the sign that int() would
      have accepted. */
  lemma {:induction false} SignedSeedIsNone(sign: char, digits: string)
    requires sign == '+' || sign == '-'
    ensures ParseSeed([sign] + digits) == NoSeed
  {
    var text := [sign] + digits;
    assert LeadingSpaces(text, StripSet) == 0;
    var r := Strip(text, StripSet);
    if r != [] {
      assert r[0] == sign;
    }
  }
}
