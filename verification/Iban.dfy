/**
 * Turkish IBANs: ISO 13616 with the MOD 97-10 check digits of ISO/IEC 7064.
 *
 * `IsValid` and `Generate` are the source's expressions; the loops under them are methods
 * proved equal to the true remainder of the number a digit string denotes.
 */
module Iban {
  import opened Decimal

  newtype U32 = x: int | 0 <= x < 0x1_0000_0000

  predicate IsLetter(c: char) {
    'A' <= c <= 'Z' || 'a' <= c <= 'z'
  }

  /** A = 10 ... Z = 35, in either case. */
  function LetterValue(c: char): (v: nat)
    requires IsLetter(c)
    ensures 10 <= v <= 35
  {
    if c <= 'Z' then (c - 'A') as nat + 10 else (c - 'a') as nat + 10
  }

  const CAPITALS: string := "ABCDEFGHIJKLMNOPQRSTUVWXYZ"
  const SMALLS: string := "abcdefghijklmnopqrstuvwxyz"

  /** The letters are those of the Latin alphabet in either case. */
  lemma LettersAre(c: char)
    ensures IsLetter(c) <==> c in CAPITALS || c in SMALLS
  {
    CapitalsAre(c);
    SmallsAre(c);
  }

  lemma CapitalsAre(c: char)
    ensures 'A' <= c <= 'Z' <==> c in CAPITALS
  {
  }

  lemma SmallsAre(c: char)
    ensures 'a' <= c <= 'z' <==> c in SMALLS
  {
  }

  /** Each counts ten and its place in the alphabet. */
  lemma LetterCounts(k: nat)
    requires k < 26
    ensures IsLetter(CAPITALS[k]) && LetterValue(CAPITALS[k]) == 10 + k
    ensures IsLetter(SMALLS[k]) && LetterValue(SMALLS[k]) == 10 + k
  {
    hide IsLetter, LetterValue;
    CapitalCounts(k);
    SmallCounts(k);
  }

  lemma CapitalCounts(k: nat)
    requires k < 26
    ensures IsLetter(CAPITALS[k]) && LetterValue(CAPITALS[k]) == 10 + k
  {
  }

  lemma SmallCounts(k: nat)
    requires k < 26
    ensures IsLetter(SMALLS[k]) && LetterValue(SMALLS[k]) == 10 + k
  {
  }

  /** What one character contributes to the digit sequence; other characters contribute nothing. */
  function NumericOf(c: char): (s: string)
    ensures AllDigits(s)
  {
    if IsDigit(c) then [c] else if IsLetter(c) then ToDecimal(LetterValue(c)) else ""
  }

  function Numeric(input: string): (s: string)
    ensures AllDigits(s)
  {
    if input == "" then "" else Numeric(input[..|input| - 1]) + NumericOf(input[|input| - 1])
  }

  function DigitsOnly(s: string): (d: string)
    ensures AllDigits(d)
    ensures AllDigits(s) ==> d == s
  {
    if s == "" then "" else
      var front := DigitsOnly(s[..|s| - 1]);
      if IsDigit(s[|s| - 1]) then front + [s[|s| - 1]] else front
  }

  method ToNumeric(input: string) returns (out: string)
    ensures out == Numeric(input)
  {
    out := "";
    for i := 0 to |input|
      invariant out == Numeric(input[..i])
    {
      var ch := input[i];
      if IsDigit(ch) {
        out := out + [ch];
      } else if IsLetter(ch) {
        out := out + ToDecimal(LetterValue(ch));
      }
      assert input[..i + 1][..i] == input[..i];
    }
    assert input[..|input|] == input;
  }

  /** The remainder modulo 97 of a digit string of any length, in 32 bits. */
  method Mod97(numeric: string) returns (rem: U32)
    ensures rem as int == Number(DigitsOnly(numeric)) % 97
  {
    hide Number, DigitsOnly, DigitOf;
    rem := 0;
    DigitsOnlyOfNone();
    for i := 0 to |numeric|
      invariant rem < 97 && rem as int == Number(DigitsOnly(numeric[..i])) % 97
    {
      DigitsOnlySnoc(numeric, i);
      if IsDigit(numeric[i]) {
        RemainderStep(Number(DigitsOnly(numeric[..i])), DigitOf(numeric[i]));
        rem := (rem * 10 + DigitOf(numeric[i]) as U32) % 97;
      }
    }
    assert numeric[..|numeric|] == numeric;
  }

  lemma DigitsOnlyOfNone()
    ensures Number(DigitsOnly("")) == 0
  {
  }

  lemma DigitsOnlySnoc(numeric: string, i: nat)
    requires i < |numeric|
    ensures var front, grown := DigitsOnly(numeric[..i]), DigitsOnly(numeric[..i + 1]);
            Number(grown) == if IsDigit(numeric[i]) then 10 * Number(front) + DigitOf(numeric[i]) else Number(front)
  {
    hide DigitOf;
    assert numeric[..i + 1][..i] == numeric[..i];
    var front := DigitsOnly(numeric[..i]);
    assert (front + [numeric[i]])[..|front|] == front;
  }

  lemma RemainderStep(n: nat, d: nat)
    ensures (n % 97 * 10 + d) % 97 == (10 * n + d) % 97
  {
    var q, r := n / 97, n % 97;
    assert 10 * n + d == 97 * (10 * q) + (10 * r + d);
    AddMultiple(10 * r + d, 10 * q);
  }

  lemma AddMultiple(x: int, k: int)
    ensures (x + 97 * k) % 97 == x % 97
  {
  }

  // ---------- generation and validation ----------

  function Remainder(s: string): nat {
    Number(Numeric(s)) % 97
  }

  function CheckDigits(bban: string): (c: nat)
    ensures 2 <= c <= 98
  {
    98 - Remainder(bban + "TR00")
  }

  function Generate(bban: string): string {
    "TR" + TwoDigits(CheckDigits(bban)) + bban
  }

  predicate IsAlphanumeric(s: string) {
    forall i :: 0 <= i < |s| ==> IsDigit(s[i]) || IsLetter(s[i])
  }

  predicate IsValid(iban: string) {
    && |iban| == 26 && iban[..2] == "TR"
    && IsAlphanumeric(iban)
    && AllDigits(iban[2..])
    && Remainder(iban[4..] + iban[..4]) == 1
  }

  method TrIban(bban: string) returns (iban: string)
    ensures iban == Generate(bban)
  {
    hide Number, Numeric, DigitsOnly, TwoDigits;
    var numeric := ToNumeric(bban + "TR00");
    var rem := Mod97(numeric);
    return "TR" + TwoDigits(98 - rem as int) + bban;
  }

  method IsValidTrIban(iban: string) returns (ok: bool)
    ensures ok == IsValid(iban)
    ensures ok <==> exists check, bban :: IsParts(iban, check, bban) && Fits(check, bban)
  {
    hide Fits;
    ValidIffFits(iban);
    if |iban| != 26 || iban[..2] != "TR" {
      return false;
    }
    if !IsAlphanumeric(iban) {
      return false;
    }
    if !AllDigits(iban[2..]) {
      return false;
    }
    var numeric := ToNumeric(iban[4..] + iban[..4]);
    var rem := Mod97(numeric);
    return rem == 1;
  }

  // ---------- the rearranged number ----------

  predicate IsBban(s: string) {
    |s| == 22 && AllDigits(s)
  }

  /** `TR`, two check digits and a BBAN. */
  ghost predicate IsParts(iban: string, check: string, bban: string) {
    |check| == 2 && AllDigits(check) && IsBban(bban) && iban == "TR" + check + bban
  }

  /** The 28 digits whose remainder is checked: the BBAN, TR as 2927, and the check digits. */
  function Rearranged(check: string, bban: string): (s: string)
    requires AllDigits(check) && AllDigits(bban)
    ensures AllDigits(s) && |s| == |bban| + 4 + |check|
  {
    bban + "2927" + check
  }

  ghost predicate Fits(check: string, bban: string)
    requires AllDigits(check) && AllDigits(bban)
  {
    Number(Rearranged(check, bban)) % 97 == 1
  }

  lemma {:induction false} NumericOfDigits(s: string)
    requires AllDigits(s)
    ensures Numeric(s) == s
  {
    if s != "" {
      NumericOfDigits(s[..|s| - 1]);
    }
  }

  lemma {:induction false} NumericConcat(x: string, y: string)
    ensures Numeric(x + y) == Numeric(x) + Numeric(y)
  {
    hide NumericOf, Numeric;
    if y == "" {
      assert x + y == x;
      NumericOfNone();
    } else {
      NumericConcat(x, y[..|y| - 1]);
      NumericSnoc(x + y[..|y| - 1], y[|y| - 1]);
      NumericSnoc(y[..|y| - 1], y[|y| - 1]);
      assert x + y == (x + y[..|y| - 1]) + [y[|y| - 1]] && y == y[..|y| - 1] + [y[|y| - 1]];
    }
  }

  lemma NumericOfNone()
    ensures Numeric("") == ""
  {
  }

  lemma NumericSnoc(x: string, c: char)
    ensures Numeric(x + [c]) == Numeric(x) + NumericOf(c)
  {
    hide NumericOf;
    assert (x + [c])[..|x|] == x;
  }

  lemma NumericOfT()
    ensures NumericOf('T') == "29"
  {
    assert ToDecimal(2) == "2" && 29 / 10 == 2 && ToDecimal(29) == "2" + "9";
  }

  lemma NumericOfR()
    ensures NumericOf('R') == "27"
  {
    assert ToDecimal(2) == "2" && 27 / 10 == 2 && ToDecimal(27) == "2" + "7";
  }

  lemma NumericOfTR()
    ensures Numeric("TR") == "2927"
  {
    hide Numeric, NumericOf;
    NumericOfNone();
    NumericOfT();
    NumericOfR();
    NumericSnoc("", 'T');
    NumericSnoc("T", 'R');
    assert "" + ['T'] == "T" && "T" + ['R'] == "TR" && "29" + "27" == "2927";
  }

  lemma NumericOfRearranged(check: string, bban: string)
    requires AllDigits(check) && AllDigits(bban)
    ensures Numeric(bban + ("TR" + check)) == Rearranged(check, bban)
  {
    hide Numeric;
    NumericConcat(bban, "TR" + check);
    NumericConcat("TR", check);
    NumericOfTR();
    NumericOfDigits(check);
    NumericOfDigits(bban);
    assert bban + ("2927" + check) == Rearranged(check, bban);
  }

  /** A valid IBAN is TR, two digits and a BBAN whose rearranged number is 1 modulo 97. */
  lemma ValidIffFits(iban: string)
    ensures IsValid(iban) <==> exists check, bban :: IsParts(iban, check, bban) && Fits(check, bban)
  {
    hide Numeric, Number;
    if |iban| == 26 && iban[..2] == "TR" && AllDigits(iban[2..]) {
      var check, bban := iban[2..4], iban[4..];
      assert AllDigits(check) by { assert forall i :: 0 <= i < 2 ==> check[i] == iban[2..][i]; }
      assert AllDigits(bban) by { assert forall i :: 0 <= i < 22 ==> bban[i] == iban[2..][i + 2]; }
      assert iban[..4] == "TR" + check;
      assert IsParts(iban, check, bban);
      NumericOfRearranged(check, bban);
      assert IsAlphanumeric(iban) by {
        assert iban[0] == iban[..2][0] && iban[1] == iban[..2][1];
        assert forall i :: 2 <= i < 26 ==> iban[i] == iban[2..][i - 2];
      }
    }
    forall check, bban | IsParts(iban, check, bban) ensures |iban| == 26 && iban[..2] == "TR" && AllDigits(iban[2..])
      ensures check == iban[2..4] && bban == iban[4..]
    {
      assert iban[2..] == check + bban;
    }
  }

  // ---------- check digits ----------

  /** The number is the BBAN in millions, 2927 in hundreds, and the check digits. */
  lemma NumberOfRearranged(check: string, bban: string)
    requires |check| == 2 && AllDigits(check) && AllDigits(bban)
    ensures Number(Rearranged(check, bban)) == Number(bban) * 1000000 + 292700 + Number(check)
  {
    hide Number;
    assert Power10(2) == 10 * Power10(1) && Power10(1) == 10;
    assert Power10(4) == 10 * Power10(3) && Power10(3) == 10 * Power10(2);
    NumberOfConcat(bban + "2927", check);
    NumberOfConcat(bban, "2927");
    NumberOf2927();
  }

  lemma NumberOf2927()
    ensures Number("2927") == 2927
  {
    assert "2927"[..3] == "292" && "292"[..2] == "29" && "29"[..1] == "2" && "2"[..0] == "";
    assert Number("2") == 2 && Number("29") == 29 && Number("292") == 292;
  }

  lemma CheckDigitsOf(bban: string)
    requires AllDigits(bban)
    ensures CheckDigits(bban) == 98 - (Number(bban) * 1000000 + 292700) % 97
  {
    hide Number, Numeric;
    assert bban + "TR00" == bban + ("TR" + "00");
    NumericOfRearranged("00", bban);
    NumberOfRearranged("00", bban);
    TwoDigitsIsUnique("00");
    NumberOfZeros();
  }

  lemma NumberOfZeros()
    ensures Number("00") == 0
  {
    assert "00"[..1] == "0" && "0"[..0] == "";
    assert Number("0") == 0;
  }

  /** Check digits fit exactly when they agree with the generated ones modulo 97. */
  lemma FitsIffCongruent(check: string, bban: string)
    requires |check| == 2 && AllDigits(check) && AllDigits(bban)
    ensures Fits(check, bban) <==> (Number(check) - CheckDigits(bban)) % 97 == 0
  {
    hide Number;
    NumberOfRearranged(check, bban);
    CheckDigitsOf(bban);
    TwoDigitsIsUnique(check);
    var n, c := Number(bban) * 1000000 + 292700, Number(check);
    Congruence(n, c);
  }

  lemma Congruence(n: nat, c: nat)
    requires c < 100
    ensures (n + c) % 97 == 1 <==> (c - (98 - n % 97)) % 97 == 0
  {
    var q, r := n / 97, n % 97;
    assert n + c == (r + c) + 97 * q;
    AddMultiple(r + c, q);
    SmallCongruence(r, c);
  }

  lemma SmallCongruence(r: nat, c: nat)
    requires r < 97 && c < 100
    ensures (r + c) % 97 == 1 <==> (c - (98 - r)) % 97 == 0
  {
  }

  /** Every generated IBAN is valid. */
  lemma GeneratedIsValid(bban: string)
    requires IsBban(bban)
    ensures IsValid(Generate(bban))
  {
    hide IsValid, Fits;
    var check := TwoDigits(CheckDigits(bban));
    FitsIffCongruent(check, bban);
    assert IsParts(Generate(bban), check, bban);
    ValidIffFits(Generate(bban));
  }

  /**
   * For each BBAN the validator accepts the generated check digits and, where these are 97, 98
   * or 02, also the pair congruent to them, 00, 01 or 99, which the generator never emits.
   */
  lemma AcceptedCheckDigits(check: string, bban: string)
    requires |check| == 2 && AllDigits(check) && IsBban(bban)
    ensures IsValid("TR" + check + bban) <==>
      || "TR" + check + bban == Generate(bban)
      || (check == "00" && CheckDigits(bban) == 97)
      || (check == "01" && CheckDigits(bban) == 98)
      || (check == "99" && CheckDigits(bban) == 2)
  {
    hide IsValid, Fits, Number;
    var iban, c := "TR" + check + bban, Number(check);
    assert IsParts(iban, check, bban);
    ValidIffFits(iban);
    forall check', bban' | IsParts(iban, check', bban') ensures check' == check && bban' == bban {
      assert check == iban[2..4] && bban == iban[4..];
      assert check' == iban[2..4] && bban' == iban[4..];
    }
    FitsIffCongruent(check, bban);
    TwoDigitsIsUnique(check);
    assert (c - CheckDigits(bban)) % 97 == 0 <==>
      c == CheckDigits(bban) || c == CheckDigits(bban) - 97 || c == CheckDigits(bban) + 97;
    assert Generate(bban)[2..4] == TwoDigits(CheckDigits(bban)) && iban[2..4] == check;
    SmallPairs();
  }

  lemma SmallPairs()
    ensures TwoDigits(0) == "00" && TwoDigits(1) == "01" && TwoDigits(99) == "99"
  {
  }

  /** Within the range the generator uses, a valid IBAN is the generated one. */
  lemma ValidInRangeIsGenerated(check: string, bban: string)
    requires |check| == 2 && AllDigits(check) && IsBban(bban) && 2 <= Number(check) <= 98
    ensures IsValid("TR" + check + bban) <==> "TR" + check + bban == Generate(bban)
  {
    hide Number, IsValid, Generate, CheckDigits;
    AcceptedCheckDigits(check, bban);
    NumberOfZeros();
    NumbersOutOfRange();
  }

  lemma NumbersOutOfRange()
    ensures Number("01") == 1 && Number("99") == 99
  {
    assert "01"[..1] == "0" && "0"[..0] == "" && Number("0") == 0;
    assert "99"[..1] == "9" && "9"[..0] == "" && Number("9") == 9;
  }

  lemma {:induction false} LeadingZeros(k: nat, s: string)
    requires AllDigits(s)
    ensures AllDigits(seq(k, _ => '0') + s) && Number(seq(k, _ => '0') + s) == Number(s)
  {
    if k == 0 {
      assert seq(0, _ => '0') + s == s;
    } else {
      LeadingZeros(k - 1, "0" + s);
      assert seq(k, _ => '0') + s == seq(k - 1, _ => '0') + ("0" + s);
      NumberOfConcat("0", s);
      assert "0"[..0] == "" && Number("0") == 0;
    }
  }

  /** Each of the three pairs the generator never emits is accepted with some BBAN. */
  lemma NeverGeneratedYetValid(check: string, n: nat)
    requires (n == 70 && check == "00") || (n == 52 && check == "01") || (n == 34 && check == "99")
    ensures var b := seq(20, _ => '0') + TwoDigits(n);
      IsBban(b) && IsValid("TR" + check + b) && Generate(b) != "TR" + check + b
  {
    hide IsValid, Number, CheckDigits, TwoDigits;
    var b := seq(20, _ => '0') + TwoDigits(n);
    LeadingZeros(20, TwoDigits(n));
    CheckDigitsOf(b);
    AcceptedCheckDigits(check, b);
    NumberOfZeros();
    NumbersOutOfRange();
    assert Generate(b)[2..4] == TwoDigits(CheckDigits(b));
    assert ("TR" + check + b)[2..4] == check;
  }

  // ---------- error detection ----------

  /** No small non-zero number times a power of ten is divisible by 97. */
  lemma {:induction false} NotDivisible(d: int, k: nat)
    requires d % 97 != 0
    ensures (d * Power10(k)) % 97 != 0
  {
    if k > 0 {
      NotDivisible(d, k - 1);
      var x := d * Power10(k - 1);
      MoveTen(d, Power10(k - 1));
      TenIsInvertible(x);
    }
  }

  lemma TenIsInvertible(x: int)
    ensures (10 * x) % 97 == 0 ==> x % 97 == 0
  {
    if (10 * x) % 97 == 0 {
      var q := 10 * x / 97;
      assert x == 97 * (68 * q - 7 * x);
    }
  }

  /** Numbers whose difference is not divisible by 97 are not both 1 modulo 97. */
  lemma DifferentRemainders(n: int, n': int)
    requires n % 97 == 1 && (n' - n) % 97 != 0
    ensures n' % 97 != 1
  {
  }

  /** One changed digit of the rearranged number never keeps the remainder. */
  lemma ChangedDigitDetected(s: string, k: nat, c: char)
    requires AllDigits(s) && Number(s) % 97 == 1 && k < |s| && IsDigit(c) && c != s[k]
    ensures AllDigits(s[k := c]) && Number(s[k := c]) % 97 != 1
  {
    hide Number;
    NumberAfterChange(s, k, c);
    NotDivisible(DigitOf(c) - DigitOf(s[k]), |s| - 1 - k);
    DifferentRemainders(Number(s), Number(s[k := c]));
  }

  /** Two digits swapped, `gap` apart in weight, never keep the remainder unless 10^gap - 1 is divisible by 97. */
  lemma SwappedDigitsDetected(s: string, k: nat, m: nat, gap: nat)
    requires AllDigits(s) && Number(s) % 97 == 1 && k < m < |s| && s[k] != s[m]
    requires gap == m - k && ((DigitOf(s[m]) - DigitOf(s[k])) * (Power10(gap) - 1)) % 97 != 0
    ensures AllDigits(s[k := s[m]][m := s[k]]) && Number(s[k := s[m]][m := s[k]]) % 97 != 1
  {
    hide Number;
    hide Power10;
    var d, low := DigitOf(s[m]) - DigitOf(s[k]), |s| - 1 - m;
    var once := s[k := s[m]];
    var twice := once[m := s[k]];
    NumberAfterChange(s, k, s[m]);
    NumberAfterChange(once, m, s[k]);
    assert Number(twice) - Number(s) == d * Power10(gap + low) + (0 - d) * Power10(low);
    PowerSplits(gap, low);
    Factor(d, Power10(gap), Power10(low));
    NotDivisible(d * (Power10(gap) - 1), low);
    DifferentRemainders(Number(s), Number(twice));
  }

  lemma {:induction false} PowerSplits(x: nat, y: nat)
    ensures Power10(x + y) == Power10(x) * Power10(y)
  {
    if y > 0 {
      PowerSplits(x, y - 1);
      MoveTen(Power10(x), Power10(y - 1));
    }
  }

  lemma Factor(d: int, p: int, q: int)
    ensures d * (p * q) + (0 - d) * q == d * (p - 1) * q
  {
  }

  /** The place in the rearranged number of the digit at `p` of an IBAN. */
  function Place(p: nat): nat
    requires 2 <= p < 26
  {
    if p < 4 then 24 + p else p - 4
  }

  lemma DigitAtPlace(iban: string, p: nat)
    requires |iban| == 26 && AllDigits(iban[2..]) && 2 <= p < 26
    ensures AllDigits(iban[2..4]) && AllDigits(iban[4..])
    ensures Rearranged(iban[2..4], iban[4..])[Place(p)] == iban[p] == iban[2..][p - 2]
  {
    assert iban[2..4] == iban[2..][..2] && iban[4..] == iban[2..][2..];
  }

  /** Replacing digits of an IBAN replaces them in the rearranged number. */
  lemma ReplacedAtPlace(iban: string, p: nat, c: char)
    requires |iban| == 26 && AllDigits(iban[2..]) && 2 <= p < 26 && IsDigit(c)
    ensures AllDigits(iban[p := c][2..]) && iban[p := c][..2] == iban[..2]
    ensures AllDigits(iban[2..4]) && AllDigits(iban[4..])
            && AllDigits(iban[p := c][2..4]) && AllDigits(iban[p := c][4..])
    ensures Rearranged(iban[p := c][2..4], iban[p := c][4..]) == Rearranged(iban[2..4], iban[4..])[Place(p) := c]
  {
    var t := iban[p := c];
    assert t[2..] == iban[2..][p - 2 := c];
    assert iban[2..4] == iban[2..][..2] && iban[4..] == iban[2..][2..];
    assert t[2..4] == t[2..][..2] && t[4..] == t[2..][2..];
    if p < 4 {
      assert t[2..4] == iban[2..4][p - 2 := c] && t[4..] == iban[4..];
    } else {
      assert t[2..4] == iban[2..4] && t[4..] == iban[4..][p - 4 := c];
    }
  }

  lemma ValidMeansRemainder(iban: string)
    requires |iban| == 26 && iban[..2] == "TR" && AllDigits(iban[2..])
    ensures AllDigits(iban[2..4]) && AllDigits(iban[4..])
    ensures IsValid(iban) <==> Number(Rearranged(iban[2..4], iban[4..])) % 97 == 1
  {
    hide IsValid, Number;
    var check, bban := iban[2..4], iban[4..];
    assert check == iban[2..][..2] && bban == iban[2..][2..];
    ValidIffFits(iban);
    assert iban == "TR" + check + bban;
    assert IsParts(iban, check, bban);
    forall check', bban' | IsParts(iban, check', bban') ensures check' == check && bban' == bban {
      assert check' == iban[2..4] && bban' == iban[4..];
    }
  }

  /** Changing any one digit of a valid IBAN, check digits included, makes it invalid. */
  lemma MistypedDigitDetected(iban: string, p: nat, c: char)
    requires IsValid(iban) && 2 <= p < 26 && IsDigit(c) && c != iban[p]
    ensures !IsValid(iban[p := c])
  {
    hide Number, Numeric, Rearranged;
    ValidMeansRemainder(iban);
    DigitAtPlace(iban, p);
    ReplacedAtPlace(iban, p, c);
    ValidMeansRemainder(iban[p := c]);
    ChangedDigitDetected(Rearranged(iban[2..4], iban[4..]), Place(p), c);
  }

  /** Swapping two unequal adjacent digits of a valid IBAN, check digits included, makes it invalid. */
  lemma SwappedDigitsMakeInvalid(iban: string, p: nat)
    requires IsValid(iban) && 2 <= p < 25 && iban[p] != iban[p + 1]
    ensures !IsValid(iban[p := iban[p + 1]][p + 1 := iban[p]])
  {
    hide Number, Numeric, Rearranged, Power10;
    var s := Rearranged(iban[2..4], iban[4..]);
    var x, y := iban[p], iban[p + 1];
    var t := iban[p := y];
    ValidMeansRemainder(iban);
    DigitAtPlace(iban, p);
    DigitAtPlace(iban, p + 1);
    ReplacedAtPlace(iban, p, y);
    ReplacedAtPlace(t, p + 1, x);
    ValidMeansRemainder(t[p + 1 := x]);
    if p == 3 {
      WeightOfBoundary(DigitOf(x) - DigitOf(y));
      SwappedDigitsDetected(s, 0, 27, 27);
      assert s[0 := x][27 := y] == s[27 := y][0 := x];
    } else {
      WeightOfNeighbours(DigitOf(y) - DigitOf(x));
      SwappedDigitsDetected(s, Place(p), Place(p + 1), 1);
    }
  }

  lemma WeightOfNeighbours(d: int)
    requires -9 <= d <= 9 && d != 0
    ensures (d * (Power10(1) - 1)) % 97 != 0
  {
    assert Power10(1) == 10;
  }

  /** The last check digit and the first BBAN digit are 27 places apart: 10^27 is 19 modulo 97. */
  lemma WeightOfBoundary(d: int)
    requires -9 <= d <= 9 && d != 0
    ensures (d * (Power10(27) - 1)) % 97 != 0
  {
    hide Power10;
    PowerOf27();
    var p := Power10(27) - 1;
    assert p == 97 * (p / 97) + 18;
    MultipleOfBoundary(d, p / 97);
    AddMultiple(18 * d, d * (p / 97));
  }

  lemma PowerOf27()
    ensures Power10(27) == 1_000_000_000_000_000_000_000_000_000
  {
    assert Power10(1) == 10 && Power10(2) == 100 && Power10(3) == 1000;
    PowerSplits(3, 3);
    PowerSplits(6, 3);
    PowerSplits(9, 9);
    PowerSplits(18, 9);
  }

  lemma MultipleOfBoundary(d: int, k: int)
    ensures d * (97 * k + 18) == 18 * d + 97 * (d * k)
  {
  }
}
