/**
 * What the constants of FIPS 180-4 are, in the standard's own words: the first 32 bits of the
 * fractional parts of the cube roots of the first 64 primes (section 4.2.2), and of the square
 * roots of the first eight (section 5.3.3).
 */
module FipsConstants {
  import opened Fips180

  /** The first 64 primes, one row of eight at a time. */
  function Prime(t: nat): (p: nat)
    requires t < 64
    ensures 2 <= p <= 311
  {
    var row, column := t / 8, t % 8;
    if row == 0 then OneOf(column, 2, 3, 5, 7, 11, 13, 17, 19)
    else if row == 1 then OneOf(column, 23, 29, 31, 37, 41, 43, 47, 53)
    else if row == 2 then OneOf(column, 59, 61, 67, 71, 73, 79, 83, 89)
    else if row == 3 then OneOf(column, 97, 101, 103, 107, 109, 113, 127, 131)
    else if row == 4 then OneOf(column, 137, 139, 149, 151, 157, 163, 167, 173)
    else if row == 5 then OneOf(column, 179, 181, 191, 193, 197, 199, 211, 223)
    else if row == 6 then OneOf(column, 227, 229, 233, 239, 241, 251, 257, 263)
    else OneOf(column, 269, 271, 277, 281, 283, 293, 307, 311)
  }

  function OneOf(i: nat, x0: nat, x1: nat, x2: nat, x3: nat, x4: nat, x5: nat, x6: nat, x7: nat): nat
    requires i < 8
  {
    if i == 0 then x0 else if i == 1 then x1 else if i == 2 then x2 else if i == 3 then x3
    else if i == 4 then x4 else if i == 5 then x5 else if i == 6 then x6 else x7
  }

  /** The whole part of a cube root. */
  function CubeRoot(p: nat): nat
    requires p < 343
  {
    if p < 1 then 0 else if p < 8 then 1 else if p < 27 then 2 else if p < 64 then 3 else if p < 125 then 4
    else if p < 216 then 5 else 6
  }

  /** The whole part of a square root. */
  function SquareRoot(p: nat): nat
    requires p < 25
  {
    if p < 1 then 0 else if p < 4 then 1 else if p < 9 then 2 else if p < 16 then 3 else 4
  }

  lemma RootsAre(p: nat)
    ensures p < 343 ==> var a := CubeRoot(p); a * a * a <= p < (a + 1) * (a + 1) * (a + 1)
    ensures p < 25 ==> var a := SquareRoot(p); a * a <= p < (a + 1) * (a + 1)
  {
  }

  /** `k` is the first 32 bits of the fractional part of the cube root of `p`. */
  predicate IsCubeFraction(p: nat, k: nat)
    requires p < 343
  {
    var r := CubeRoot(p) * 0x1_0000_0000 + k;
    r * r * r <= p * 0x1_0000_0000_0000_0000_0000_0000 < (r + 1) * (r + 1) * (r + 1)
  }

  /** `k` is the first 32 bits of the fractional part of the square root of `p`. */
  predicate IsSquareFraction(p: nat, k: nat)
    requires p < 25
  {
    var r := SquareRoot(p) * 0x1_0000_0000 + k;
    r * r <= p * 0x1_0000_0000_0000_0000 < (r + 1) * (r + 1)
  }

  predicate IsRoundConstant(t: nat)
    requires t < 64
  {
    IsCubeFraction(Prime(t), K(t) as nat)
  }

  /** Section 4.2.2: every constant of the rounds. */
  lemma RoundConstants(t: nat)
    requires t < 64
    ensures var a := CubeRoot(Prime(t));
            var r := a * 0x1_0000_0000 + K(t) as nat;
            r * r * r <= Prime(t) * 0x1_0000_0000_0000_0000_0000_0000 < (r + 1) * (r + 1) * (r + 1)
  {
    hide K, Prime, CubeRoot;
    assert IsRoundConstant(t) by {
      hide IsRoundConstant;
      if t < 8 { Row0(); }
      else if t < 16 { Row1(); }
      else if t < 24 { Row2(); }
      else if t < 32 { Row3(); }
      else if t < 40 { Row4(); }
      else if t < 48 { Row5(); }
      else if t < 56 { Row6(); }
      else { Row7(); }
    }
  }

  /** Section 5.3.3: the initial hash value, word by word. */
  lemma InitialHashValue()
    ensures IsSquareFraction(Prime(0), INITIAL.a as nat)
    ensures IsSquareFraction(Prime(1), INITIAL.b as nat)
    ensures IsSquareFraction(Prime(2), INITIAL.c as nat)
    ensures IsSquareFraction(Prime(3), INITIAL.d as nat)
    ensures IsSquareFraction(Prime(4), INITIAL.e as nat)
    ensures IsSquareFraction(Prime(5), INITIAL.f as nat)
    ensures IsSquareFraction(Prime(6), INITIAL.g as nat)
    ensures IsSquareFraction(Prime(7), INITIAL.h as nat)
  {
    Values0();
    Primes0();
    hide K, Prime;
    assert IsSquareFraction(2, 0x6a09e667) && IsSquareFraction(3, 0xbb67ae85);
    assert IsSquareFraction(5, 0x3c6ef372) && IsSquareFraction(7, 0xa54ff53a);
    assert IsSquareFraction(11, 0x510e527f) && IsSquareFraction(13, 0x9b05688c);
    assert IsSquareFraction(17, 0x1f83d9ab) && IsSquareFraction(19, 0x5be0cd19);
    hide IsSquareFraction;
  }

  lemma Row0()
    ensures forall t :: 0 <= t < 8 ==> IsRoundConstant(t)
  {
    hide K, Prime, IsCubeFraction;
    Values0();
    Primes0();
    Fractions0();
    Fractions1();
    assert IsRoundConstant(0) && IsRoundConstant(1) && IsRoundConstant(2) && IsRoundConstant(3);
    assert IsRoundConstant(4) && IsRoundConstant(5) && IsRoundConstant(6) && IsRoundConstant(7);
    hide IsRoundConstant;
  }

  lemma Values0()
    ensures K(0) == 0x428a2f98 && K(1) == 0x71374491 && K(2) == 0xb5c0fbcf && K(3) == 0xe9b5dba5
    ensures K(4) == 0x3956c25b && K(5) == 0x59f111f1 && K(6) == 0x923f82a4 && K(7) == 0xab1c5ed5
  {
  }

  lemma Primes0()
    ensures Prime(0) == 2 && Prime(1) == 3 && Prime(2) == 5 && Prime(3) == 7
    ensures Prime(4) == 11 && Prime(5) == 13 && Prime(6) == 17 && Prime(7) == 19
  {
  }

  lemma Fractions0()
    ensures IsCubeFraction(2, 0x428a2f98) && IsCubeFraction(3, 0x71374491)
    ensures IsCubeFraction(5, 0xb5c0fbcf) && IsCubeFraction(7, 0xe9b5dba5)
  {
  }

  lemma Fractions1()
    ensures IsCubeFraction(11, 0x3956c25b) && IsCubeFraction(13, 0x59f111f1)
    ensures IsCubeFraction(17, 0x923f82a4) && IsCubeFraction(19, 0xab1c5ed5)
  {
  }

  lemma Row1()
    ensures forall t :: 8 <= t < 16 ==> IsRoundConstant(t)
  {
    hide K, Prime, IsCubeFraction;
    Values1();
    Primes1();
    Fractions2();
    Fractions3();
    assert IsRoundConstant(8) && IsRoundConstant(9) && IsRoundConstant(10) && IsRoundConstant(11);
    assert IsRoundConstant(12) && IsRoundConstant(13) && IsRoundConstant(14) && IsRoundConstant(15);
    hide IsRoundConstant;
  }

  lemma Values1()
    ensures K(8) == 0xd807aa98 && K(9) == 0x12835b01 && K(10) == 0x243185be && K(11) == 0x550c7dc3
    ensures K(12) == 0x72be5d74 && K(13) == 0x80deb1fe && K(14) == 0x9bdc06a7 && K(15) == 0xc19bf174
  {
  }

  lemma Primes1()
    ensures Prime(8) == 23 && Prime(9) == 29 && Prime(10) == 31 && Prime(11) == 37
    ensures Prime(12) == 41 && Prime(13) == 43 && Prime(14) == 47 && Prime(15) == 53
  {
  }

  lemma Fractions2()
    ensures IsCubeFraction(23, 0xd807aa98) && IsCubeFraction(29, 0x12835b01)
    ensures IsCubeFraction(31, 0x243185be) && IsCubeFraction(37, 0x550c7dc3)
  {
  }

  lemma Fractions3()
    ensures IsCubeFraction(41, 0x72be5d74) && IsCubeFraction(43, 0x80deb1fe)
    ensures IsCubeFraction(47, 0x9bdc06a7) && IsCubeFraction(53, 0xc19bf174)
  {
  }

  lemma Row2()
    ensures forall t :: 16 <= t < 24 ==> IsRoundConstant(t)
  {
    hide K, Prime, IsCubeFraction;
    Values2();
    Primes2();
    Fractions4();
    Fractions5();
    assert IsRoundConstant(16) && IsRoundConstant(17) && IsRoundConstant(18) && IsRoundConstant(19);
    assert IsRoundConstant(20) && IsRoundConstant(21) && IsRoundConstant(22) && IsRoundConstant(23);
    hide IsRoundConstant;
  }

  lemma Values2()
    ensures K(16) == 0xe49b69c1 && K(17) == 0xefbe4786 && K(18) == 0x0fc19dc6 && K(19) == 0x240ca1cc
    ensures K(20) == 0x2de92c6f && K(21) == 0x4a7484aa && K(22) == 0x5cb0a9dc && K(23) == 0x76f988da
  {
  }

  lemma Primes2()
    ensures Prime(16) == 59 && Prime(17) == 61 && Prime(18) == 67 && Prime(19) == 71
    ensures Prime(20) == 73 && Prime(21) == 79 && Prime(22) == 83 && Prime(23) == 89
  {
  }

  lemma Fractions4()
    ensures IsCubeFraction(59, 0xe49b69c1) && IsCubeFraction(61, 0xefbe4786)
    ensures IsCubeFraction(67, 0x0fc19dc6) && IsCubeFraction(71, 0x240ca1cc)
  {
  }

  lemma Fractions5()
    ensures IsCubeFraction(73, 0x2de92c6f) && IsCubeFraction(79, 0x4a7484aa)
    ensures IsCubeFraction(83, 0x5cb0a9dc) && IsCubeFraction(89, 0x76f988da)
  {
  }

  lemma Row3()
    ensures forall t :: 24 <= t < 32 ==> IsRoundConstant(t)
  {
    hide K, Prime, IsCubeFraction;
    Values3();
    Primes3();
    Fractions6();
    Fractions7();
    assert IsRoundConstant(24) && IsRoundConstant(25) && IsRoundConstant(26) && IsRoundConstant(27);
    assert IsRoundConstant(28) && IsRoundConstant(29) && IsRoundConstant(30) && IsRoundConstant(31);
    hide IsRoundConstant;
  }

  lemma Values3()
    ensures K(24) == 0x983e5152 && K(25) == 0xa831c66d && K(26) == 0xb00327c8 && K(27) == 0xbf597fc7
    ensures K(28) == 0xc6e00bf3 && K(29) == 0xd5a79147 && K(30) == 0x06ca6351 && K(31) == 0x14292967
  {
  }

  lemma Primes3()
    ensures Prime(24) == 97 && Prime(25) == 101 && Prime(26) == 103 && Prime(27) == 107
    ensures Prime(28) == 109 && Prime(29) == 113 && Prime(30) == 127 && Prime(31) == 131
  {
  }

  lemma Fractions6()
    ensures IsCubeFraction(97, 0x983e5152) && IsCubeFraction(101, 0xa831c66d)
    ensures IsCubeFraction(103, 0xb00327c8) && IsCubeFraction(107, 0xbf597fc7)
  {
  }

  lemma Fractions7()
    ensures IsCubeFraction(109, 0xc6e00bf3) && IsCubeFraction(113, 0xd5a79147)
    ensures IsCubeFraction(127, 0x06ca6351) && IsCubeFraction(131, 0x14292967)
  {
  }

  lemma Row4()
    ensures forall t :: 32 <= t < 40 ==> IsRoundConstant(t)
  {
    hide K, Prime, IsCubeFraction;
    Values4();
    Primes4();
    Fractions8();
    Fractions9();
    assert IsRoundConstant(32) && IsRoundConstant(33) && IsRoundConstant(34) && IsRoundConstant(35);
    assert IsRoundConstant(36) && IsRoundConstant(37) && IsRoundConstant(38) && IsRoundConstant(39);
    hide IsRoundConstant;
  }

  lemma Values4()
    ensures K(32) == 0x27b70a85 && K(33) == 0x2e1b2138 && K(34) == 0x4d2c6dfc && K(35) == 0x53380d13
    ensures K(36) == 0x650a7354 && K(37) == 0x766a0abb && K(38) == 0x81c2c92e && K(39) == 0x92722c85
  {
  }

  lemma Primes4()
    ensures Prime(32) == 137 && Prime(33) == 139 && Prime(34) == 149 && Prime(35) == 151
    ensures Prime(36) == 157 && Prime(37) == 163 && Prime(38) == 167 && Prime(39) == 173
  {
  }

  lemma Fractions8()
    ensures IsCubeFraction(137, 0x27b70a85) && IsCubeFraction(139, 0x2e1b2138)
    ensures IsCubeFraction(149, 0x4d2c6dfc) && IsCubeFraction(151, 0x53380d13)
  {
  }

  lemma Fractions9()
    ensures IsCubeFraction(157, 0x650a7354) && IsCubeFraction(163, 0x766a0abb)
    ensures IsCubeFraction(167, 0x81c2c92e) && IsCubeFraction(173, 0x92722c85)
  {
  }

  lemma Row5()
    ensures forall t :: 40 <= t < 48 ==> IsRoundConstant(t)
  {
    hide K, Prime, IsCubeFraction;
    Values5();
    Primes5();
    Fractions10();
    Fractions11();
    assert IsRoundConstant(40) && IsRoundConstant(41) && IsRoundConstant(42) && IsRoundConstant(43);
    assert IsRoundConstant(44) && IsRoundConstant(45) && IsRoundConstant(46) && IsRoundConstant(47);
    hide IsRoundConstant;
  }

  lemma Values5()
    ensures K(40) == 0xa2bfe8a1 && K(41) == 0xa81a664b && K(42) == 0xc24b8b70 && K(43) == 0xc76c51a3
    ensures K(44) == 0xd192e819 && K(45) == 0xd6990624 && K(46) == 0xf40e3585 && K(47) == 0x106aa070
  {
  }

  lemma Primes5()
    ensures Prime(40) == 179 && Prime(41) == 181 && Prime(42) == 191 && Prime(43) == 193
    ensures Prime(44) == 197 && Prime(45) == 199 && Prime(46) == 211 && Prime(47) == 223
  {
  }

  lemma Fractions10()
    ensures IsCubeFraction(179, 0xa2bfe8a1) && IsCubeFraction(181, 0xa81a664b)
    ensures IsCubeFraction(191, 0xc24b8b70) && IsCubeFraction(193, 0xc76c51a3)
  {
  }

  lemma Fractions11()
    ensures IsCubeFraction(197, 0xd192e819) && IsCubeFraction(199, 0xd6990624)
    ensures IsCubeFraction(211, 0xf40e3585) && IsCubeFraction(223, 0x106aa070)
  {
  }

  lemma Row6()
    ensures forall t :: 48 <= t < 56 ==> IsRoundConstant(t)
  {
    hide K, Prime, IsCubeFraction;
    Values6();
    Primes6();
    Fractions12();
    Fractions13();
    assert IsRoundConstant(48) && IsRoundConstant(49) && IsRoundConstant(50) && IsRoundConstant(51);
    assert IsRoundConstant(52) && IsRoundConstant(53) && IsRoundConstant(54) && IsRoundConstant(55);
    hide IsRoundConstant;
  }

  lemma Values6()
    ensures K(48) == 0x19a4c116 && K(49) == 0x1e376c08 && K(50) == 0x2748774c && K(51) == 0x34b0bcb5
    ensures K(52) == 0x391c0cb3 && K(53) == 0x4ed8aa4a && K(54) == 0x5b9cca4f && K(55) == 0x682e6ff3
  {
  }

  lemma Primes6()
    ensures Prime(48) == 227 && Prime(49) == 229 && Prime(50) == 233 && Prime(51) == 239
    ensures Prime(52) == 241 && Prime(53) == 251 && Prime(54) == 257 && Prime(55) == 263
  {
  }

  lemma Fractions12()
    ensures IsCubeFraction(227, 0x19a4c116) && IsCubeFraction(229, 0x1e376c08)
    ensures IsCubeFraction(233, 0x2748774c) && IsCubeFraction(239, 0x34b0bcb5)
  {
  }

  lemma Fractions13()
    ensures IsCubeFraction(241, 0x391c0cb3) && IsCubeFraction(251, 0x4ed8aa4a)
    ensures IsCubeFraction(257, 0x5b9cca4f) && IsCubeFraction(263, 0x682e6ff3)
  {
  }

  lemma Row7()
    ensures forall t :: 56 <= t < 64 ==> IsRoundConstant(t)
  {
    hide K, Prime, IsCubeFraction;
    Values7();
    Primes7();
    Fractions14();
    Fractions15();
    assert IsRoundConstant(56) && IsRoundConstant(57) && IsRoundConstant(58) && IsRoundConstant(59);
    assert IsRoundConstant(60) && IsRoundConstant(61) && IsRoundConstant(62) && IsRoundConstant(63);
    hide IsRoundConstant;
  }

  lemma Values7()
    ensures K(56) == 0x748f82ee && K(57) == 0x78a5636f && K(58) == 0x84c87814 && K(59) == 0x8cc70208
    ensures K(60) == 0x90befffa && K(61) == 0xa4506ceb && K(62) == 0xbef9a3f7 && K(63) == 0xc67178f2
  {
  }

  lemma Primes7()
    ensures Prime(56) == 269 && Prime(57) == 271 && Prime(58) == 277 && Prime(59) == 281
    ensures Prime(60) == 283 && Prime(61) == 293 && Prime(62) == 307 && Prime(63) == 311
  {
  }

  lemma Fractions14()
    ensures IsCubeFraction(269, 0x748f82ee) && IsCubeFraction(271, 0x78a5636f)
    ensures IsCubeFraction(277, 0x84c87814) && IsCubeFraction(281, 0x8cc70208)
  {
  }

  lemma Fractions15()
    ensures IsCubeFraction(283, 0x90befffa) && IsCubeFraction(293, 0xa4506ceb)
    ensures IsCubeFraction(307, 0xbef9a3f7) && IsCubeFraction(311, 0xc67178f2)
  {
  }
}
