/** Decimal wire amounts and 64-bit minor units: the parser, the printer, and the round trip between them. */
module WireMoney {
  import opened GoTime
  import opened Payments
  import opened Text

  /** 1 << 62. */
  const CEILING := 0x4000_0000_0000_0000

  /** The largest whole part: ⌊2^62 / 100⌋. */
  const MAX_WHOLE := CEILING / 100

  // -- decimal text -------------------------------------------------------------

  predicate Digit(c: char) { '0' <= c <= '9' }

  predicate Digits(s: string) { forall i :: 0 <= i < |s| ==> Digit(s[i]) }

  function DigitValue(c: char): (d: nat)
    requires Digit(c)
    ensures d < 10
  {
    c as int - '0' as int
  }

  function DigitChar(d: nat): (c: char)
    requires d < 10
    ensures Digit(c) && DigitValue(c) == d
  {
    ('0' as int + d) as char
  }

  /** An integer part: "0", or digits that do not start with 0. */
  predicate Whole(w: string) { w == "0" || (w != "" && Digits(w) && w[0] != '0') }

  /** The value of a run of digits. */
  function Value(w: string): nat
    requires Digits(w)
  {
    if w == "" then 0 else 10 * Value(w[..|w| - 1]) + DigitValue(w[|w| - 1])
  }

  /** The cents of a fraction of at most two digits. */
  function Hundredths(f: string): nat
    requires Digits(f) && |f| <= 2
  {
    if f == "" then 0 else if |f| == 1 then 10 * DigitValue(f[0]) else 10 * DigitValue(f[0]) + DigitValue(f[1])
  }

  /** The wire pattern: `w`, or `w.f` with one or two fraction digits. */
  ghost predicate Pattern(s: string, w: string, f: string) {
    Whole(w) && Digits(f) && |f| <= 2 && s == if f == "" then w else w + "." + f
  }

  datatype Parts = Parts(whole: string, frac: string)

  function Dot(s: string): (k: nat)
    ensures k <= |s| && (k < |s| ==> s[k] == '.') && '.' !in s[..k]
  {
    if s == "" || s[0] == '.' then 0
    else
      var k := Dot(s[1..]);
      assert s[..k + 1] == [s[0]] + s[1..][..k];
      k + 1
  }

  /** The submatches of the wire pattern. */
  function Submatch(s: string): Option<Parts> {
    var k := Dot(s);
    if k == |s| then if Whole(s) then Some(Parts(s, "")) else None
    else
      var w, f := s[..k], s[k + 1..];
      if Whole(w) && 1 <= |f| <= 2 && Digits(f) then Some(Parts(w, f)) else None
  }

  lemma {:induction false} DotAfter(w: string, rest: string)
    requires Digits(w) && (rest == "" || rest[0] == '.')
    ensures Dot(w + rest) == |w|
    decreases w
  {
    if w == "" {
      assert w + rest == rest;
    } else {
      assert (w + rest)[1..] == w[1..] + rest;
      DotAfter(w[1..], rest);
    }
  }

  lemma PatternMatches(s: string, w: string, f: string)
    requires Pattern(s, w, f)
    ensures Submatch(s) == Some(Parts(w, f))
  {
    if f == "" {
      assert s == w + "";
      DotAfter(w, "");
    } else {
      assert s == w + ("." + f);
      DotAfter(w, "." + f);
      assert s[..|w|] == w && s[|w| + 1..] == f;
    }
  }

  lemma MatchIsPattern(s: string)
    requires Submatch(s).Some?
    ensures Pattern(s, Submatch(s).value.whole, Submatch(s).value.frac)
  {
    var k := Dot(s);
    if k < |s| {
      assert s == s[..k] + "." + s[k + 1..];
    }
  }

  /** The submatches are the pattern's parts, and a string has at most one pair of them. */
  lemma SubmatchIsPattern(s: string, w: string, f: string)
    ensures Pattern(s, w, f) <==> Submatch(s) == Some(Parts(w, f))
  {
    hide Pattern, Submatch;
    if Pattern(s, w, f) {
      PatternMatches(s, w, f);
    }
    if Submatch(s).Some? {
      MatchIsPattern(s);
    }
  }

  // -- parsing ------------------------------------------------------------------

  /** What a wire string is worth: exact cents, or nothing. */
  function Parse(raw: string): Option<int> {
    match Submatch(Strip(raw, true))
    case None => None
    case Some(m) => if Value(m.whole) > MAX_WHOLE then None else Some(100 * Value(m.whole) + Hundredths(m.frac))
  }

  lemma {:induction false} PrefixIsSmaller(w: string, i: nat)
    requires Digits(w) && i <= |w|
    ensures Value(w[..i]) <= Value(w)
    decreases |w|
  {
    if i < |w| {
      PrefixIsSmaller(w[..|w| - 1], i);
      assert w[..|w| - 1][..i] == w[..i];
    } else {
      assert w[..i] == w;
    }
  }

  /** The parser's arithmetic, every intermediate value a 64-bit integer. */
  method ParseWireAmountMinor(raw: string) returns (minor: Option<int>)
    ensures minor == Parse(raw)
  {
    hide Strip, Submatch, Dot;
    var s := Strip(raw, true);
    var m := Submatch(s);
    if |s| > 0 && s[0] == '-' {
      MinusIsNoMatch(s);
      return None;
    }
    if m.None? {
      return None;
    }
    SubmatchIsPattern(s, m.value.whole, m.value.frac);
    var digits := m.value.whole;
    var whole: Int64 := 0;
    for i := 0 to |digits|
      invariant whole == Value(digits[..i]) && 0 <= whole <= CEILING
    {
      assert digits[..i + 1][..i] == digits[..i];
      var d: Int64 := DigitValue(digits[i]);
      var room: Int64 := CEILING - d;
      if whole > room / 10 {
        PrefixIsSmaller(digits, i + 1);
        return None;
      }
      var tens: Int64 := whole * 10;
      whole := tens + d;
    }
    assert digits[..|digits|] == digits;
    if whole > MAX_WHOLE {
      return None;
    }
    var cents: Int64 := whole * 100;
    var frac := m.value.frac;
    if frac != "" {
      if |frac| == 1 {
        frac := frac + "0";
      }
      var hundredths: Int64 := DigitValue(frac[0]) * 10 + DigitValue(frac[1]);
      cents := cents + hundredths;
    }
    return Some(cents);
  }

  lemma MinusIsNoMatch(s: string)
    requires |s| > 0 && s[0] == '-'
    ensures Submatch(s) == None
  {
  }

  /** `s` is the decimal `w.f`, small enough, and worth `cents`. */
  ghost predicate Worth(s: string, w: string, f: string, cents: nat) {
    Pattern(s, w, f) && Value(w) <= MAX_WHOLE && cents == 100 * Value(w) + Hundredths(f)
  }

  /** Accepted exactly: the pattern, with a whole part of at most ⌊2^62 / 100⌋, for its exact cents. */
  lemma ParseAcceptsExactly(raw: string, cents: nat)
    ensures Parse(raw) == Some(cents) <==>
            exists w, f :: Worth(Strip(raw, true), w, f, cents)
  {
    hide Strip, Submatch;
    var s := Strip(raw, true);
    if Parse(raw) == Some(cents) {
      var m := Submatch(s).value;
      SubmatchIsPattern(s, m.whole, m.frac);
      assert Worth(s, m.whole, m.frac, cents);
    }
    forall w, f | Worth(s, w, f, cents)
      ensures Parse(raw) == Some(cents)
    {
      SubmatchIsPattern(s, w, f);
    }
  }

  // -- printing -----------------------------------------------------------------

  function Tail(v: nat): (s: string)
    ensures Digits(s)
  {
    if v == 0 then "" else Tail(v / 10) + [DigitChar(v % 10)]
  }

  function Itoa(v: nat): string { if v == 0 then "0" else Tail(v) }

  function Pad2(v: nat): string { if |Itoa(v)| == 1 then "0" + Itoa(v) else Itoa(v) }

  /** The decimal string of an amount; the most negative 64-bit value has no negation to print. */
  function Print(minor: Int64): string
    requires minor > MIN_DURATION
  {
    if minor < 0 then "-" + Itoa(-minor / 100) + "." + Pad2(-minor % 100)
    else Itoa(minor / 100) + "." + Pad2(minor % 100)
  }

  function Pow10(n: nat): nat { if n == 0 then 1 else 10 * Pow10(n - 1) }

  lemma TwentyDigits(v: Int64)
    ensures v < Pow10(20)
  {
    assert Pow10(5) == 100_000;
    assert Pow10(10) == 10_000_000_000;
    assert Pow10(15) == 1_000_000_000_000_000;
    assert Pow10(20) == 100_000_000_000_000_000_000;
  }

  lemma NextDigit(rest: nat, i: nat)
    requires 0 < rest < Pow10(i)
    ensures i > 0 && rest / 10 < Pow10(i - 1) && Tail(rest) == Tail(rest / 10) + [DigitChar(rest % 10)]
  {
  }

  lemma Edges(v: nat)
    ensures Tail(0) == "" && Pow10(0) == 1 && (v > 0 ==> Itoa(v) == Tail(v)) && Itoa(0) == "0"
  {
  }

  /** Digits fill a 20-byte buffer from its end. */
  method FormatInt(v: Int64) returns (s: string)
    requires v >= 0
    ensures s == Itoa(v)
  {
    hide Tail, Pow10, Itoa, DigitChar;
    Edges(v);
    if v == 0 {
      return "0";
    }
    var buf := new char[20];
    var i, rest := 20, v;
    TwentyDigits(v);
    while rest > 0
      invariant 0 <= i <= 20 && 0 <= rest < Pow10(i)
      invariant Tail(v) == Tail(rest) + buf[i..]
    {
      NextDigit(rest, i);
      i := i - 1;
      buf[i] := DigitChar(rest % 10);
      assert buf[i..] == [DigitChar(rest % 10)] + buf[i + 1..];
      rest := rest / 10;
    }
    return buf[i..];
  }

  method FormatPadded(v: Int64) returns (s: string)
    requires v >= 0
    ensures s == Pad2(v)
  {
    s := FormatInt(v);
    if |s| == 1 {
      s := "0" + s;
    }
  }

  /** Negating a negative 64-bit value makes it positive unless it is the most negative one, which it gives back. */
  lemma NegationSticksExactly(minor: int)
    requires MIN_DURATION <= minor < 0
    ensures Wrap64(-minor) == (if minor == MIN_DURATION then minor else -minor)
    ensures Wrap64(-minor) < 0 <==> minor == MIN_DURATION
  {
  }

  lemma PrintNegative(minor: int)
    requires MIN_DURATION < minor < 0
    ensures Print(minor) == "-" + Print(-minor)
  {
    hide Itoa, Pad2;
    var w, c := Itoa(-minor / 100), Pad2(-minor % 100);
    assert "-" + w + "." + c == "-" + (w + "." + c);
  }

  /** `None` is a call that does not return: it calls itself with the value it was called with. */
  method MinorToDecimalString(minor: Int64) returns (s: Option<string>)
    ensures s == if minor == MIN_DURATION then None else Some(Print(minor))
    decreases minor < 0
  {
    hide Itoa, Pad2, Wrap64;
    if minor < 0 {
      var value: int := minor;
      NegationSticksExactly(value);
      var negated := Wrap64(-value);
      if negated == value {
        return None;
      }
      var positive := MinorToDecimalString(negated);
      PrintNegative(minor);
      return Some("-" + positive.value);
    }
    var whole := FormatInt(minor / 100);
    var cents := FormatPadded(minor % 100);
    return Some(whole + "." + cents);
  }

  // -- the round trip -----------------------------------------------------------

  lemma ValueAppend(w: string, d: nat)
    requires Digits(w) && d < 10
    ensures Digits(w + [DigitChar(d)]) && Value(w + [DigitChar(d)]) == 10 * Value(w) + d
  {
  }

  lemma {:induction false} TailIs(v: nat)
    requires v > 0
    ensures Tail(v) != "" && Tail(v)[0] != '0' && Value(Tail(v)) == v
  {
    hide Value;
    ValueAppend(Tail(v / 10), v % 10);
    if v >= 10 {
      TailIs(v / 10);
      assert Tail(v)[0] == Tail(v / 10)[0];
    } else {
      OneDigit(v);
    }
  }

  lemma OneDigit(v: nat)
    requires 0 < v < 10
    ensures Tail(v) == [DigitChar(v)] && DigitChar(v) != '0' && Value(Tail(v / 10)) == 0
  {
  }

  lemma ItoaIs(v: nat)
    ensures Whole(Itoa(v)) && Value(Itoa(v)) == v
  {
    if v > 0 {
      TailIs(v);
    } else {
      assert "0"[..0] == "" && Value("") == 0;
    }
  }

  lemma Pad2Is(v: nat)
    requires v < 100
    ensures |Pad2(v)| == 2 && Digits(Pad2(v)) && Hundredths(Pad2(v)) == v
  {
    if v >= 10 {
      assert Tail(v / 10) == Tail(v / 10 / 10) + [DigitChar(v / 10 % 10)];
      assert Tail(v) == [DigitChar(v / 10)] + [DigitChar(v % 10)];
    } else if v > 0 {
      assert Tail(v) == [DigitChar(v)];
    }
  }

  lemma DigitsAreTight(s: string)
    requires s != "" && Digit(s[0]) && Digit(s[|s| - 1])
    ensures Strip(s, true) == s
  {
  }

  /** Parsing what was printed gives the amount back, over the parser's whole range. */
  lemma RoundTrip(minor: Int64)
    requires 0 <= minor && minor / 100 <= MAX_WHOLE
    ensures Parse(Print(minor)) == Some(minor)
  {
    hide Strip, Submatch, Itoa, Pad2, Hundredths, Value;
    var w, f := Itoa(minor / 100), Pad2(minor % 100);
    ItoaIs(minor / 100);
    Pad2Is(minor % 100);
    var s := Print(minor);
    assert s == w + "." + f;
    assert s[0] == w[0] && s[|s| - 1] == f[1];
    DigitsAreTight(s);
    SubmatchIsPattern(s, w, f);
  }

  /** Outside that range it refuses: a printed negative, or a whole part too large, is never money. */
  lemma RoundTripRefusesTheRest(minor: Int64)
    requires minor > MIN_DURATION && (minor < 0 || minor / 100 > MAX_WHOLE)
    ensures Parse(Print(minor)) == None
  {
    hide Strip, Submatch, Itoa, Pad2, Hundredths, Value;
    var s := Print(minor);
    var v := if minor < 0 then -minor else minor;
    var w, f := Itoa(v / 100), Pad2(v % 100);
    ItoaIs(v / 100);
    Pad2Is(v % 100);
    if minor < 0 {
      assert s == "-" + w + "." + f;
      assert s[|s| - 1] == f[1];
      StripUnwraps("", s, "", true);
      assert "" + s + "" == s;
      MinusIsNoMatch(s);
    } else {
      assert s == w + "." + f;
      assert s[0] == w[0] && s[|s| - 1] == f[1];
      DigitsAreTight(s);
      SubmatchIsPattern(s, w, f);
    }
  }

  // -- every spelling -----------------------------------------------------------

  /** How an amount may be written: in full, without a last zero, or without a fraction of zeros. */
  ghost predicate Spells(s: string, cents: nat) {
    var w, f := Itoa(cents / 100), Pad2(cents % 100);
    || s == w + "." + f
    || (cents % 10 == 0 && |f| == 2 && s == w + "." + f[..1])
    || (cents % 100 == 0 && s == w)
  }

  /** Digits that do not start with 0 are those of their value. */
  lemma {:induction false} TailOfValue(w: string)
    requires Digits(w) && w != "" && w[0] != '0'
    ensures Value(w) > 0 && Tail(Value(w)) == w
  {
    hide Tail;
    var front, d := w[..|w| - 1], DigitValue(w[|w| - 1]);
    assert w == front + [w[|w| - 1]] && DigitChar(d) == w[|w| - 1];
    if front == "" {
      OneDigit(d);
      assert Value(w) == d;
    } else {
      TailOfValue(front);
      assert Value(w) == 10 * Value(front) + d;
      LastDigit(Value(front), d);
    }
  }

  lemma LastDigit(v: nat, d: nat)
    requires d < 10 && v > 0
    ensures Tail(10 * v + d) == Tail(v) + [DigitChar(d)]
  {
  }

  lemma WholeIsItoa(w: string)
    requires Whole(w)
    ensures w == Itoa(Value(w))
  {
    if w == "0" {
      assert "0"[..0] == "" && Value("") == 0;
    } else {
      TailOfValue(w);
    }
  }

  lemma TwoDigits(a: nat, b: nat)
    requires a < 10 && b < 10
    ensures Pad2(10 * a + b) == [DigitChar(a), DigitChar(b)]
  {
    hide Tail;
    if a > 0 {
      LastDigit(a, b);
      OneDigit(a);
    } else if b > 0 {
      OneDigit(b);
    } else {
      Edges(0);
      assert DigitChar(0) == '0';
    }
  }

  lemma FractionSpells(f: string)
    requires Digits(f) && |f| <= 2
    ensures var h := Hundredths(f);
            && h < 100 && |Pad2(h)| == 2
            && (|f| == 2 ==> f == Pad2(h)) && (|f| == 1 ==> h % 10 == 0 && f == Pad2(h)[..1]) && (f == "" ==> h == 0)
  {
    hide Pad2;
    if |f| == 2 {
      TwoDigits(DigitValue(f[0]), DigitValue(f[1]));
    } else if |f| == 1 {
      TwoDigits(DigitValue(f[0]), 0);
    } else {
      TwoDigits(0, 0);
    }
  }

  /** The fraction digits that write `h` hundredths: both, the first if the second is 0, or none for 0. */
  lemma SpelledFraction(f: string, h: nat)
    requires h < 100 && |Pad2(h)| == 2
    requires f == Pad2(h) || (h % 10 == 0 && f == Pad2(h)[..1]) || (h == 0 && f == "")
    ensures Digits(f) && |f| <= 2 && Hundredths(f) == h
  {
    hide Pad2;
    TwoDigits(h / 10, h % 10);
  }

  lemma ByHundred(x: nat, v: nat, h: nat)
    requires x == 100 * v + h && h < 100
    ensures x / 100 == v && x % 100 == h
  {
  }

  lemma ByTen(x: nat, v: nat, d: nat)
    requires x == 10 * v + d && d < 10
    ensures x % 10 == d
  {
  }

  lemma Split(v: nat, h: nat)
    requires h < 100
    ensures (100 * v + h) / 100 == v && (100 * v + h) % 100 == h && (100 * v + h) % 10 == h % 10
  {
    ByHundred(100 * v + h, v, h);
    var tens, d := h / 10, h % 10;
    assert h == 10 * tens + d;
    ByTen(100 * v + h, 10 * v + tens, d);
  }

  lemma WorthSpells(s: string, w: string, f: string, cents: nat)
    requires Worth(s, w, f, cents)
    ensures Spells(s, cents) && cents / 100 <= MAX_WHOLE
  {
    hide Value, Hundredths, Itoa, Pad2;
    WholeIsItoa(w);
    FractionSpells(f);
    Split(Value(w), Hundredths(f));
  }

  lemma SpelledIsWorth(s: string, cents: nat) returns (w: string, f: string)
    requires Spells(s, cents) && cents / 100 <= MAX_WHOLE
    ensures Worth(s, w, f, cents)
  {
    hide Value, Hundredths, Itoa, Pad2, Whole, Digits;
    var v, h := cents / 100, cents % 100;
    ItoaIs(v);
    Pad2Is(h);
    LastOfTwo(cents);
    w := Itoa(v);
    f := if s == w + "." + Pad2(h) then Pad2(h) else if h % 10 == 0 && s == w + "." + Pad2(h)[..1] then Pad2(h)[..1] else "";
    SpelledFraction(f, h);
    Emptied(w, f, s);
  }

  lemma LastOfTwo(cents: nat)
    ensures cents % 100 < 100 && cents == 100 * (cents / 100) + cents % 100 && cents % 100 % 10 == cents % 10
  {
    var q, h := cents / 100, cents % 100;
    var tens, d := h / 10, h % 10;
    assert h == 10 * tens + d;
    ByTen(cents, 10 * q + tens, d);
  }

  lemma Emptied(w: string, f: string, s: string)
    ensures f != "" ==> w + "." + f != w
  {
    assert |w + "." + f| == |w| + 1 + |f|;
  }

  /**
   * The parser reads exactly the spellings of an amount of at most 46,116,860,184,273,879 whole units: the
   * printed form, or that form with its closing zeros left off.
   */
  lemma ParsesExactlySpellings(raw: string, cents: nat)
    ensures Parse(raw) == Some(cents)
            <==> Spells(Strip(raw, true), cents) && cents / 100 <= 46_116_860_184_273_879
  {
    hide Strip, Parse, Spells, Worth;
    var s := Strip(raw, true);
    ParseAcceptsExactly(raw, cents);
    if w, f :| Worth(s, w, f, cents) {
      WorthSpells(s, w, f, cents);
    }
    if Spells(s, cents) && cents / 100 <= MAX_WHOLE {
      var w, f := SpelledIsWorth(s, cents);
    }
  }

  // -- initiation amounts -------------------------------------------------------

  datatype Shillings = Shillings(value: Int64) | Negative | NotWhole

  function WholeShillings(minor: Int64): Shillings {
    if minor < 0 then Negative else if minor % 100 != 0 then NotWhole else Shillings(minor / 100)
  }

  /** An initiation amount never rounds: it is the minor amount, or it is refused. */
  lemma ShillingsNeverRound(minor: Int64, value: Int64)
    ensures WholeShillings(minor) == Shillings(value) <==> value >= 0 && value * 100 == minor
    ensures WholeShillings(minor) == Negative <==> minor < 0
  {
  }
}
