/**
 * The demo bank's money: `parse_minor` reads a decimal amount into hundredths, `format_minor`
 * writes hundredths back with two decimals. Balances are 64-bit signed integers.
 */
module Money {
  import opened Basics
  import opened Decimal

  const I64_MAX: int := 0x7FFF_FFFF_FFFF_FFFF

  datatype AmountError = Empty | NotAnAmount | TooManyDecimals | TooLarge | NotPositive

  /** Unicode white space, which `trim` removes at both ends. */
  predicate IsWhitespace(c: char) {
    var u := c as int;
    0x09 <= u <= 0x0D || u == 0x20 || u == 0x85 || u == 0xA0 || u == 0x1680 || 0x2000 <= u <= 0x200A
    || u == 0x2028 || u == 0x2029 || u == 0x202F || u == 0x205F || u == 0x3000
  }

  function Trim(s: string): string {
    if s == "" then s
    else if IsWhitespace(s[0]) then Trim(s[1..])
    else if IsWhitespace(s[|s| - 1]) then Trim(s[..|s| - 1])
    else s
  }

  /** The position of the first `.`, or the length. */
  function PointIn(s: string): (i: nat)
    ensures i <= |s| && (i < |s| ==> s[i] == '.') && forall k :: 0 <= k < i ==> s[k] != '.'
  {
    if s == "" || s[0] == '.' then 0 else 1 + PointIn(s[1..])
  }

  /** `split_once('.')`, with an empty fraction where there is no point. */
  function SplitAtPoint(s: string): (string, string) {
    var i := PointIn(s);
    (s[..i], if i == |s| then "" else s[i + 1..])
  }

  /** `{frac:0<2}` read as a number. */
  function Cents(frac: string): (c: nat)
    requires |frac| <= 2 && AllDigits(frac)
    ensures c < 100
  {
    var padded := if |frac| == 0 then "00" else if |frac| == 1 then frac + "0" else frac;
    TwoDigitsIsUnique(padded);
    Number(padded)
  }

  function ParseMinor(raw: string): (r: Result<int, AmountError>)
    ensures r.Ok? ==> 0 < r.value <= I64_MAX
  {
    var s := Trim(raw);
    if s == "" then Err(Empty) else
    var (whole, frac) := SplitAtPoint(s);
    if whole == "" || !AllDigits(whole) then Err(NotAnAmount)
    else if |frac| > 2 || !AllDigits(frac) then Err(TooManyDecimals)
    else if Number(whole) > I64_MAX then Err(TooLarge)
    else if Number(whole) * 100 > I64_MAX then Err(TooLarge)
    else if Number(whole) * 100 + Cents(frac) > I64_MAX then Err(TooLarge)
    else if Number(whole) * 100 + Cents(frac) <= 0 then Err(NotPositive)
    else Ok(Number(whole) * 100 + Cents(frac))
  }

  function FormatMinor(minor: int): string
    requires -I64_MAX - 1 <= minor <= I64_MAX
  {
    var sign := if minor < 0 then "-" else "";
    var abs := if minor < 0 then -minor else minor;
    sign + ToDecimal(abs / 100) + "." + TwoDigits(abs % 100)
  }

  // ---------- what the parser accepts ----------

  /** What at most two decimals are worth: the first counts tens of hundredths, the second hundredths. */
  function Hundredths(frac: string): nat
    requires |frac| <= 2 && AllDigits(frac)
  {
    (if |frac| >= 1 then 10 * DigitOf(frac[0]) else 0) + (if |frac| == 2 then DigitOf(frac[1]) else 0)
  }

  lemma CentsAreHundredths(frac: string)
    requires |frac| <= 2 && AllDigits(frac)
    ensures Cents(frac) == Hundredths(frac)
  {
    hide DigitOf;
    if |frac| == 0 {
      NumberOfTwo('0', '0');
      assert DigitOf('0') == 0 by { ZeroDigit(); }
    } else if |frac| == 1 {
      NumberOfTwo(frac[0], '0');
      assert frac + "0" == [frac[0], '0'];
      assert DigitOf('0') == 0 by { ZeroDigit(); }
    } else {
      NumberOfTwo(frac[0], frac[1]);
      assert frac == [frac[0], frac[1]];
    }
  }

  lemma ZeroDigit()
    ensures DigitOf('0') == 0
  {
  }

  lemma NumberOfTwo(c: char, d: char)
    requires IsDigit(c) && IsDigit(d)
    ensures Number([c, d]) == 10 * DigitOf(c) + DigitOf(d)
  {
    hide DigitOf;
    assert [c, d][..1] == [c] && [c][..0] == "";
    assert Number([c]) == DigitOf(c);
  }

  /** Digits, optionally a point and at most two more digits, worth `m` hundredths. */
  ghost predicate Denotes(s: string, m: int) {
    exists whole, frac :: DenotesBy(s, whole, frac, m)
  }

  ghost predicate DenotesBy(s: string, whole: string, frac: string, m: int) {
    && |whole| > 0 && AllDigits(whole) && |frac| <= 2 && AllDigits(frac)
    && (s == whole + "." + frac || (s == whole && frac == ""))
    && m == 100 * Number(whole) + Hundredths(frac)
  }

  lemma {:induction false} PointAfterDigits(whole: string, frac: string)
    requires AllDigits(whole)
    ensures PointIn(whole + "." + frac) == |whole| && PointIn(whole) == |whole|
  {
    if whole == "" {
      assert (whole + "." + frac)[0] == '.';
    } else {
      var s := whole + "." + frac;
      assert s[0] == whole[0] && s[1..] == whole[1..] + "." + frac;
      PointAfterDigits(whole[1..], frac);
      assert IsDigit(whole[0]);
      assert PointIn(s) == 1 + PointIn(s[1..]);
      assert PointIn(whole) == 1 + PointIn(whole[1..]);
    }
  }

  lemma SplitOfDenoting(s: string, whole: string, frac: string, m: int)
    requires DenotesBy(s, whole, frac, m)
    ensures s != "" && SplitAtPoint(s) == (whole, frac)
  {
    hide Number, Hundredths;
    PointAfterDigits(whole, frac);
    if s == whole && frac == "" {
      assert s[..|s|] == whole;
    } else {
      assert s[..|whole|] == whole && s[|whole| + 1..] == frac;
    }
  }

  /**
   * Accepted are exactly the amounts so written, positive and within 64 bits, with any white
   * space around them. More than two decimals, a sign or any other character is refused.
   */
  lemma AcceptedAmounts(raw: string, m: int)
    ensures ParseMinor(raw) == Ok(m) <==> Denotes(Trim(raw), m) && 0 < m <= 0x7FFF_FFFF_FFFF_FFFF
    ensures Denotes(Trim(raw), m) && m > 0x7FFF_FFFF_FFFF_FFFF ==> ParseMinor(raw) == Err(TooLarge)
  {
    hide Number, Cents, Hundredths, Trim, PointIn;
    var s := Trim(raw);
    if ParseMinor(raw) == Ok(m) {
      var (whole, frac) := SplitAtPoint(s);
      CentsAreHundredths(frac);
      assert s == whole + "." + frac || (s == whole && frac == "");
      assert DenotesBy(s, whole, frac, m);
    }
    forall whole, frac | DenotesBy(s, whole, frac, m)
      ensures s != "" && SplitAtPoint(s) == (whole, frac) && Cents(frac) == Hundredths(frac)
    {
      SplitOfDenoting(s, whole, frac, m);
      CentsAreHundredths(frac);
    }
  }

  /** In particular, no, one and two decimals: `w`, `w.` and `w.c` and `w.cd`. */
  lemma AmountsByDecimals(whole: string, c: char, d: char)
    requires |whole| > 0 && AllDigits(whole) && IsDigit(c) && IsDigit(d)
    ensures var m := 100 * Number(whole); 0 < m <= I64_MAX ==>
              ParseMinor(whole) == Ok(m) && ParseMinor(whole + ".") == Ok(m)
    ensures var m := 100 * Number(whole) + 10 * DigitOf(c); 0 < m <= I64_MAX ==>
              ParseMinor(whole + "." + [c]) == Ok(m)
    ensures var m := 100 * Number(whole) + 10 * DigitOf(c) + DigitOf(d); 0 < m <= I64_MAX ==>
              ParseMinor(whole + "." + [c, d]) == Ok(m)
  {
    hide Number, DigitOf, ParseMinor;
    AmountOf(whole, whole, "");
    AmountOf(whole + ".", whole, "");
    AmountOf(whole + "." + [c], whole, [c]);
    AmountOf(whole + "." + [c, d], whole, [c, d]);
  }

  lemma AmountOf(s: string, whole: string, frac: string)
    requires |whole| > 0 && AllDigits(whole) && |frac| <= 2 && AllDigits(frac)
    requires s == whole + "." + frac || (s == whole && frac == "")
    ensures var m := 100 * Number(whole) + Hundredths(frac); 0 < m <= I64_MAX ==> ParseMinor(s) == Ok(m)
  {
    hide Number, Hundredths, ParseMinor, Trim, IsWhitespace, IsDigit;
    var m := 100 * Number(whole) + Hundredths(frac);
    SolidEnds(s, whole, frac);
    TrimKeepsSolid(s);
    assert DenotesBy(s, whole, frac, m);
    AcceptedAmounts(s, m);
  }

  lemma SolidEnds(s: string, whole: string, frac: string)
    requires |whole| > 0 && AllDigits(whole) && AllDigits(frac)
    requires s == whole + "." + frac || (s == whole && frac == "")
    ensures s != "" && !IsWhitespace(s[0]) && !IsWhitespace(s[|s| - 1])
  {
    hide IsWhitespace;
    assert s[0] == whole[0];
    DigitsAreSolid(whole[0]);
    assert s[|s| - 1] == '.' || IsDigit(s[|s| - 1]);
    if s[|s| - 1] == '.' { PointIsSolid(); } else { DigitsAreSolid(s[|s| - 1]); }
  }

  lemma PointIsSolid()
    ensures !IsWhitespace('.')
  {
  }

  // ---------- what the parser refuses, and why ----------

  /** The text begins with `n` digits, at least one, and ends there or goes on with a point. */
  predicate WholeIs(s: string, n: int) {
    0 < n <= |s| && AllDigits(s[..n]) && (n == |s| || s[n] == '.')
  }

  /** Every refusal has its own condition on the trimmed text. */
  lemma RefusedAmounts(raw: string)
    ensures var s := Trim(raw);
            && (ParseMinor(raw) == Err(Empty) <==> s == "")
            && (ParseMinor(raw) == Err(NotAnAmount) <==> s != "" && forall n :: !WholeIs(s, n))
            && (ParseMinor(raw) == Err(TooManyDecimals) <==>
                  exists n :: WholeIs(s, n) && n < |s| && (|s| - n - 1 > 2 || !AllDigits(s[n + 1..])))
            && (ParseMinor(raw) == Err(TooLarge) <==> exists m :: Denotes(s, m) && m > I64_MAX)
            && (ParseMinor(raw) == Err(NotPositive) <==> Denotes(s, 0))
  {
    hide Number, Cents, Hundredths, Trim, PointIn, DigitOf;
    var s := Trim(raw);
    var (whole, frac) := SplitAtPoint(s);
    var p := PointIn(s);
    assert whole == s[..p];
    assert forall n :: WholeIs(s, n) ==> n == p by { WholeEndsAtPoint(s); }
    assert p > 0 && AllDigits(whole) <==> WholeIs(s, p);
    if WholeIs(s, p) && |frac| <= 2 && AllDigits(frac) {
      CentsAreHundredths(frac);
      var m := 100 * Number(whole) + Hundredths(frac);
      assert s == whole + "." + frac || (s == whole && frac == "");
      assert DenotesBy(s, whole, frac, m);
      forall n | Denotes(s, n) ensures n == m {
        DenotesOneValue(s, m, n);
      }
      assert Denotes(s, m);
      assert (exists n :: Denotes(s, n) && n > I64_MAX) <==> m > I64_MAX;
    } else {
      forall m ensures !Denotes(s, m) {
        OnlySplitDenotes(s, m);
      }
    }
  }

  lemma WholeEndsAtPoint(s: string)
    ensures forall n :: WholeIs(s, n) ==> n == PointIn(s)
  {
    hide PointIn;
    forall n | WholeIs(s, n) ensures n == PointIn(s) {
      forall k | 0 <= k < n ensures IsDigit(s[k]) {
        assert s[..n][k] == s[k];
      }
    }
  }

  /** What denotes an amount splits into digits and at most two digits. */
  lemma OnlySplitDenotes(s: string, m: int)
    ensures Denotes(s, m) ==>
              var (whole, frac) := SplitAtPoint(s);
              s != "" && WholeIs(s, PointIn(s)) && |frac| <= 2 && AllDigits(frac)
  {
    hide Number, Hundredths, PointIn;
    if Denotes(s, m) {
      var whole, frac :| DenotesBy(s, whole, frac, m);
      SplitOfDenoting(s, whole, frac, m);
      assert s[..PointIn(s)] == whole;
    }
  }

  // ---------- white space ----------

  /** The characters of Unicode's White_Space property. */
  const WHITE_SPACE: string :=
    "\t\n\U{0B}\U{0C}\r \U{85}\U{A0}\U{1680}\U{2000}\U{2001}\U{2002}\U{2003}\U{2004}\U{2005}\U{2006}"
    + "\U{2007}\U{2008}\U{2009}\U{200A}\U{2028}\U{2029}\U{202F}\U{205F}\U{3000}"

  lemma WhitespaceIs(c: char)
    ensures IsWhitespace(c) <==> c in WHITE_SPACE
  {
  }

  /** Trimming drops white space at both ends, and all of it. */
  lemma {:induction false} TrimIs(s: string) returns (i: nat)
    ensures var n := |Trim(s)|;
            && i + n <= |s| && Trim(s) == s[i..i + n]
            && (forall k :: 0 <= k < i || i + n <= k < |s| ==> IsWhitespace(s[k]))
            && (n > 0 ==> !IsWhitespace(s[i]) && !IsWhitespace(s[i + n - 1]))
    decreases |s|
  {
    hide IsWhitespace;
    i := 0;
    if s != "" {
      if IsWhitespace(s[0]) {
        var rest := s[1..];
        var j := TrimIs(rest);
        i := j + 1;
        assert forall k :: 0 < k < |s| ==> s[k] == rest[k - 1];
        assert Trim(s) == Trim(rest) && s[i..i + |Trim(s)|] == rest[j..j + |Trim(s)|];
      } else if IsWhitespace(s[|s| - 1]) {
        var front := s[..|s| - 1];
        i := TrimIs(front);
        assert forall k :: 0 <= k < |front| ==> s[k] == front[k];
        assert Trim(s) == Trim(front) && s[i..i + |Trim(s)|] == front[i..i + |Trim(s)|];
      }
    }
  }

  // ---------- round trips ----------

  /** Two decimals, and no zero before the first significant digit. */
  ghost predicate IsCanonical(s: string) {
    |s| >= 4 && s[|s| - 3] == '.' && AllDigits(s[..|s| - 3]) && AllDigits(s[|s| - 2..]) && NoLeadingZero(s[..|s| - 3])
  }

  lemma TrimKeepsSolid(s: string)
    requires s != "" && !IsWhitespace(s[0]) && !IsWhitespace(s[|s| - 1])
    ensures Trim(s) == s
  {
  }

  lemma DigitsAreSolid(c: char)
    requires IsDigit(c)
    ensures !IsWhitespace(c)
  {
  }

  /** What is printed for any 64-bit value: a canonical text of it, after a sign when it is negative. */
  lemma FormatIsCanonical(m: int)
    requires -I64_MAX - 1 <= m <= I64_MAX
    ensures m >= 0 ==> IsCanonical(FormatMinor(m)) && Denotes(FormatMinor(m), m)
    ensures m < 0 ==> FormatMinor(m) != "" && FormatMinor(m)[0] == '-'
                      && IsCanonical(FormatMinor(m)[1..]) && Denotes(FormatMinor(m)[1..], -m)
  {
    hide Number, IsCanonical, Denotes;
    var abs := if m < 0 then -m else m;
    var s := ToDecimal(abs / 100) + "." + TwoDigits(abs % 100);
    UnsignedIsCanonical(abs);
    if m < 0 {
      assert FormatMinor(m) == "-" + s;
    } else {
      assert FormatMinor(m) == s;
    }
  }

  lemma UnsignedIsCanonical(n: nat)
    ensures var s := ToDecimal(n / 100) + "." + TwoDigits(n % 100); IsCanonical(s) && Denotes(s, n)
  {
    hide Number;
    var whole, frac := ToDecimal(n / 100), TwoDigits(n % 100);
    var s := whole + "." + frac;
    ToDecimalIsShortest(n / 100);
    assert s[..|s| - 3] == whole && s[|s| - 2..] == frac;
    CentsAreHundredths(frac);
    assert DenotesBy(s, whole, frac, n);
  }

  lemma CanonicalIsSolid(s: string)
    requires IsCanonical(s)
    ensures Trim(s) == s && IsDigit(s[0])
  {
    hide Trim, IsWhitespace;
    assert IsDigit(s[0]) && IsDigit(s[|s| - 1]) by {
      assert s[0] == s[..|s| - 3][0] && s[|s| - 1] == s[|s| - 2..][1];
    }
    DigitsAreSolid(s[0]);
    DigitsAreSolid(s[|s| - 1]);
    TrimKeepsSolid(s);
  }

  /** Parsing undoes formatting for every positive amount, and refuses what is printed for any other. */
  lemma ParseOfFormat(m: int)
    requires -I64_MAX - 1 <= m <= I64_MAX
    ensures if m > 0 then ParseMinor(FormatMinor(m)) == Ok(m) else ParseMinor(FormatMinor(m)).Err?
  {
    hide ParseMinor, Trim, IsWhitespace, ToDecimal, TwoDigits, Denotes, IsCanonical, FormatMinor, IsDigit;
    var s := FormatMinor(m);
    FormatIsCanonical(m);
    if m >= 0 {
      CanonicalIsSolid(s);
    } else {
      SignedIsSolid(s);
    }
    if ParseMinor(s).Ok? {
      AcceptedAmounts(s, ParseMinor(s).value);
      if m < 0 {
        SignDenotesNothing(s, ParseMinor(s).value);
      } else {
        DenotesOneValue(s, m, ParseMinor(s).value);
      }
    }
    if m > 0 {
      AcceptedAmounts(s, m);
    }
  }

  lemma SignedIsSolid(s: string)
    requires s != "" && s[0] == '-' && IsCanonical(s[1..])
    ensures Trim(s) == s
  {
    hide Trim;
    assert s[|s| - 1] == s[1..][|s[1..]| - 2..][1];
    assert IsDigit(s[|s| - 1]);
    DigitsAreSolid(s[|s| - 1]);
    TrimKeepsSolid(s);
  }

  lemma SignDenotesNothing(s: string, m: int)
    requires s != "" && s[0] == '-'
    ensures !Denotes(s, m)
  {
    hide Number, Hundredths;
    forall whole, frac ensures !DenotesBy(s, whole, frac, m) {
      assert |whole| > 0 && s == whole + "." + frac ==> s[0] == whole[0];
    }
  }

  /** A text denotes one value at most. */
  lemma DenotesOneValue(s: string, m: int, n: int)
    requires Denotes(s, m) && Denotes(s, n)
    ensures m == n
  {
    hide Number, Hundredths, SplitAtPoint;
    var w, f :| DenotesBy(s, w, f, m);
    var v, g :| DenotesBy(s, v, g, n);
    SplitOfDenoting(s, w, f, m);
    SplitOfDenoting(s, v, g, n);
  }

  /** An accepted amount has one canonical form, the formatted one. */
  lemma CanonicalFormIsFormat(s: string, m: int)
    requires IsCanonical(s) && Denotes(s, m) && m <= I64_MAX
    ensures s == FormatMinor(m)
  {
    hide Number, PointIn, FormatMinor;
    var whole, frac := s[..|s| - 3], s[|s| - 2..];
    assert s == whole + "." + frac;
    var w, f :| DenotesBy(s, w, f, m);
    SplitOfDenoting(s, w, f, m);
    PointAfterDigits(whole, frac);
    assert w == whole && f == frac;
    TwoDigitsIsUnique(frac);
    CentsAreHundredths(frac);
    FormatOfParts(whole, frac);
  }

  lemma FormatOfParts(whole: string, frac: string)
    requires |whole| > 0 && AllDigits(whole) && NoLeadingZero(whole) && |frac| == 2 && AllDigits(frac)
    requires Number(frac) < 100 && 100 * Number(whole) + Number(frac) <= I64_MAX
    ensures FormatMinor(100 * Number(whole) + Number(frac)) == whole + "." + frac
  {
    hide Number, ToDecimal, TwoDigits;
    ShortestIsUnique(whole);
    TwoDigitsIsUnique(frac);
    var m := 100 * Number(whole) + Number(frac);
    assert m / 100 == Number(whole) && m % 100 == Number(frac);
    assert "" + whole == whole;
  }

  /** Rewriting an accepted amount in its canonical form changes neither its value nor, again, its form. */
  lemma FormatNormalises(raw: string)
    requires ParseMinor(raw).Ok?
    ensures var s := FormatMinor(ParseMinor(raw).value);
      IsCanonical(s) && ParseMinor(s) == ParseMinor(raw) && FormatMinor(ParseMinor(s).value) == s
  {
    hide ParseMinor, FormatMinor;
    ParseOfFormat(ParseMinor(raw).value);
    FormatIsCanonical(ParseMinor(raw).value);
  }
}
