/** The cap on what reaches speech synthesis. A text is its sequence of code points. */
module Speech {
  import opened Basics

  const ELLIPSIS: char := '\U{2026}'

  // ---------- the cap ----------

  predicate IsSpace(c: char) {
    c == ' ' || ('\t' <= c <= '\r') || c == '\U{A0}' || c == '\U{1680}' || ('\U{2000}' <= c <= '\U{200A}')
    || c == '\U{2028}' || c == '\U{2029}' || c == '\U{202F}' || c == '\U{205F}' || c == '\U{3000}' || c == '\U{FEFF}'
  }

  predicate IsTerminator(c: char) {
    c == '.' || c == '!' || c == '?' || c == ELLIPSIS
  }

  function TrimStart(s: string): (r: string)
    ensures |r| <= |s| && r == s[|s| - |r|..]
    ensures r != [] ==> !IsSpace(r[0])
  {
    if s != [] && IsSpace(s[0]) then TrimStart(s[1..]) else s
  }

  function TrimEnd(s: string): (r: string)
    ensures |r| <= |s| && r == s[..|r|]
    ensures r != [] ==> !IsSpace(r[|r| - 1])
    ensures forall k :: |r| <= k < |s| ==> IsSpace(s[k])
  {
    if s != [] && IsSpace(s[|s| - 1]) then TrimEnd(s[..|s| - 1]) else s
  }

  function Trim(s: string): (r: string)
    ensures |r| <= |s|
    ensures r != [] ==> !IsSpace(r[0]) && !IsSpace(r[|r| - 1])
  {
    var t := TrimStart(s);
    TrimEnd(t)
  }

  /** The last position a predicate holds at, or -1. */
  function LastIndex(s: string, p: char -> bool): (i: int)
    ensures -1 <= i < |s|
    ensures i >= 0 ==> p(s[i])
    ensures forall k :: i < k < |s| ==> !p(s[k])
  {
    if s == [] then -1 else if p(s[|s| - 1]) then |s| - 1 else LastIndex(s[..|s| - 1], p)
  }

  method LastIndexWhere(s: string, p: char -> bool) returns (index: int)
    ensures index == LastIndex(s, p)
    ensures -1 <= index < |s| && (index >= 0 ==> p(s[index])) && forall k :: index < k < |s| ==> !p(s[k])
  {
    index := |s| - 1;
    while index >= 0
      invariant -1 <= index < |s|
      invariant forall k :: index < k < |s| ==> !p(s[k])
    {
      if p(s[index]) {
        LastIndexIs(s, p, index);
        return;
      }
      index := index - 1;
    }
    LastIndexIs(s, p, -1);
  }

  lemma LastIndexIs(s: string, p: char -> bool, i: int)
    requires -1 <= i < |s| && (i >= 0 ==> p(s[i])) && forall k :: i < k < |s| ==> !p(s[k])
    ensures LastIndex(s, p) == i
  {
  }

  method CapSpokenText(text: string, max: int) returns (spoken: string)
    ensures spoken == Capped(text, max)
  {
    hide Trim, LastIndex, IsSpace, IsTerminator;
    var trimmed := Trim(text);
    if max <= 0 {
      return "";
    }
    if |trimmed| <= max {
      return trimmed;
    }
    var window := trimmed[..max];
    var sentence := LastIndexWhere(window, IsTerminator);
    if sentence != -1 {
      return Trim(window[..sentence + 1]);
    }
    var word := LastIndexWhere(window, IsSpace);
    if word != -1 {
      return Trim(window[..word]) + [ELLIPSIS];
    }
    return Trim(window) + [ELLIPSIS];
  }

  function Capped(text: string, max: int): string {
    var trimmed := Trim(text);
    if max <= 0 then "" else if |trimmed| <= max then trimmed else
    var window := trimmed[..max];
    var sentence := LastIndex(window, IsTerminator);
    var word := LastIndex(window, IsSpace);
    if sentence != -1 then Trim(window[..sentence + 1])
    else if word != -1 then Trim(window[..word]) + [ELLIPSIS]
    else Trim(window) + [ELLIPSIS]
  }

  // ---------- the characters that count ----------

  /** White space and line ends as ECMAScript defines them, which is what `trim` drops and `\s` matches. */
  const SPACES: string :=
    "\t\n\U{0B}\U{0C}\r \U{A0}\U{1680}\U{2000}\U{2001}\U{2002}\U{2003}\U{2004}\U{2005}\U{2006}\U{2007}"
    + "\U{2008}\U{2009}\U{200A}\U{2028}\U{2029}\U{202F}\U{205F}\U{3000}\U{FEFF}"

  lemma CharactersAre(c: char)
    ensures IsSpace(c) <==> c in SPACES
    ensures IsTerminator(c) <==> c in ".!?\U{2026}"
  {
  }

  /** Trimming drops white space at both ends, and all of it. */
  lemma TrimIs(s: string) returns (i: nat)
    ensures var n := |Trim(s)|;
            && i + n <= |s| && Trim(s) == s[i..i + n]
            && (forall k :: 0 <= k < i || i + n <= k < |s| ==> IsSpace(s[k]))
            && (n > 0 ==> !IsSpace(s[i]) && !IsSpace(s[i + n - 1]))
  {
    hide IsSpace, TrimStart, TrimEnd;
    var t := TrimStart(s);
    StartIsSpace(s);
    i := |s| - |t|;
    var n := |TrimEnd(t)|;
    assert forall k :: i <= k < |s| ==> s[k] == t[k - i];
    assert s[i..i + n] == t[..n];
  }

  lemma {:induction false} StartIsSpace(s: string)
    ensures forall k :: 0 <= k < |s| - |TrimStart(s)| ==> IsSpace(s[k])
  {
    hide IsSpace;
    if s != [] && IsSpace(s[0]) {
      StartIsSpace(s[1..]);
      assert forall k :: 0 < k < |s| ==> s[k] == s[1..][k - 1];
    }
  }

  predicate NoneIn(s: string, p: char -> bool) {
    forall k :: 0 <= k < |s| ==> !p(s[k])
  }

  /** The text is one token past the cap: no sentence ends in the window and no word does. */
  predicate HardCut(text: string, max: int) {
    var trimmed := Trim(text);
    0 < max < |trimmed| && NoneIn(trimmed[..max], IsTerminator) && NoneIn(trimmed[..max], IsSpace)
  }

  lemma {:induction false} TrimFixed(s: string)
    requires s == [] || (!IsSpace(s[0]) && !IsSpace(s[|s| - 1]))
    ensures Trim(s) == s
  {
  }

  /** Trimming a prefix of a trimmed text only shortens it, up to the first of its closing spaces. */
  lemma TrimPrefix(s: string, n: nat)
    requires n <= |s| && s != [] && !IsSpace(s[0])
    ensures var r := Trim(s[..n]);
            r <= s && |r| <= n && (n > 0 ==> |r| > 0) && forall k :: |r| <= k < n ==> IsSpace(s[k])
  {
    var r := Trim(s[..n]);
    assert TrimStart(s[..n]) == s[..n];
    assert r == s[..n][..|r|] == s[..|r|];
    forall k | |r| <= k < n ensures IsSpace(s[k]) {
      assert s[..n][k] == s[k];
    }
  }

  /** The cap holds with one exception: a single token longer than it is cut to the cap and marked, one over. */
  lemma CapIsExceededOnlyByHardCut(text: string, max: int)
    requires max >= 0
    ensures |Capped(text, max)| > max <==> HardCut(text, max)
    ensures |Capped(text, max)| <= max + 1
  {
    hide Trim, LastIndex, IsSpace, IsTerminator;
    var trimmed := Trim(text);
    if 0 < max < |trimmed| {
      var window := trimmed[..max];
      var sentence, word := LastIndex(window, IsTerminator), LastIndex(window, IsSpace);
      TrimPrefix(trimmed, sentence + 1);
      assert window[..sentence + 1] == trimmed[..sentence + 1];
      if sentence == -1 {
        if word == -1 {
          assert !IsSpace(window[0]) && !IsSpace(window[max - 1]);
          TrimFixed(window);
        } else {
          TrimPrefix(trimmed, word);
          assert window[..word] == trimmed[..word];
        }
      }
    }
  }

  /** The limit of a spoken sentence. */
  const MAX_SPOKEN_CHARS: nat := 120

  /** The exception happens at every cap: any longer text without a space or a sentence end comes out one over. */
  lemma LongTokenIsOneOver(text: string, max: nat)
    requires 0 < max < |text| && NoneIn(text, IsSpace) && NoneIn(text, IsTerminator)
    ensures |Capped(text, max)| == max + 1 && Capped(text, max) == text[..max] + [ELLIPSIS]
  {
    hide Trim, LastIndex, IsSpace, IsTerminator, Capped;
    TrimFixed(text);
    var window := text[..max];
    assert forall k :: 0 <= k < max ==> window[k] == text[k];
    assert HardCut(text, max);
    CapIsExceededOnlyByHardCut(text, max);
    CapKeepsTheBeginning(text, max);
  }

  /** For one, 121 letters are spoken as 121 characters, one more than the limit. */
  lemma LimitIsExceeded()
    ensures var text := seq(MAX_SPOKEN_CHARS + 1, _ => 'a');
            |Capped(text, MAX_SPOKEN_CHARS)| == MAX_SPOKEN_CHARS + 1
  {
    hide Capped;
    LongTokenIsOneOver(seq(MAX_SPOKEN_CHARS + 1, _ => 'a'), MAX_SPOKEN_CHARS);
  }

  /** The last space within the cap stands at `w`, and the last word before it ends at `n`. */
  predicate LastWordEnds(t: string, max: int, n: int, w: int) {
    && 0 < n <= w < max < |t| && !IsSpace(t[n - 1])
    && (forall k :: n <= k <= w ==> IsSpace(t[k])) && (forall k :: w < k < max ==> !IsSpace(t[k]))
  }

  /**
   * What is spoken begins the text: all of it, or up to the last terminator within the cap, or
   * up to the last word that ends before the last space within it, with the cut marked, or, when there
   * is neither, the first `max` characters with the cut marked.
   */
  lemma CapKeepsTheBeginning(text: string, max: int)
    requires max > 0
    ensures var t, spoken := Trim(text), Capped(text, max);
            || (|t| <= max && spoken == t)
            || (|t| > max
                && exists n ::
                     0 < n <= max && spoken == t[..n] && IsTerminator(t[n - 1]) && NoneIn(t[n..max], IsTerminator))
            || (|t| > max && NoneIn(t[..max], IsTerminator)
                && exists n, w :: LastWordEnds(t, max, n, w) && spoken == t[..n] + [ELLIPSIS])
            || (HardCut(text, max) && spoken == t[..max] + [ELLIPSIS])
  {
    hide Trim, LastIndex, IsSpace, IsTerminator;
    var t := Trim(text);
    if |t| > max {
      var window := t[..max];
      if LastIndex(window, IsTerminator) != -1 {
        var n := SentenceCut(t, max);
      } else if LastIndex(window, IsSpace) != -1 {
        var n := WordCut(t, max);
        assert LastWordEnds(t, max, n, LastIndex(window, IsSpace));
      } else {
        TokenCut(t, max);
      }
    }
  }

  lemma SentenceCut(t: string, max: nat) returns (n: nat)
    requires 0 < max < |t| && !IsSpace(t[0]) && LastIndex(t[..max], IsTerminator) != -1
    ensures 0 < n <= max && Trim(t[..max][..LastIndex(t[..max], IsTerminator) + 1]) == t[..n]
    ensures IsTerminator(t[n - 1]) && NoneIn(t[n..max], IsTerminator)
  {
    hide Trim, LastIndex, IsSpace, IsTerminator;
    n := LastIndex(t[..max], IsTerminator) + 1;
    assert t[..max][..n] == t[..n];
    assert t[..max][n - 1] == t[n - 1];
    TerminatorIsNoSpace(t[n - 1]);
    TrimFixed(t[..n]);
    forall k | 0 <= k < |t[n..max]| ensures !IsTerminator(t[n..max][k]) {
      assert t[n..max][k] == t[..max][n + k];
    }
  }

  lemma WordCut(t: string, max: nat) returns (n: nat)
    requires 0 < max < |t| && !IsSpace(t[0]) && LastIndex(t[..max], IsSpace) != -1
    ensures 0 < n < max && Trim(t[..max][..LastIndex(t[..max], IsSpace)]) == t[..n]
    ensures !IsSpace(t[n - 1]) && IsSpace(t[n]) && IsSpace(t[..max][n])
    ensures LastWordEnds(t, max, n, LastIndex(t[..max], IsSpace))
  {
    hide Trim, LastIndex, IsSpace;
    var word := LastIndex(t[..max], IsSpace);
    assert t[..max][word] == t[word];
    assert t[..max][..word] == t[..word];
    TrimPrefix(t, word);
    n := |Trim(t[..word])|;
    assert t[..max][n] == t[n];
    forall k | word < k < max ensures !IsSpace(t[k]) {
      assert t[..max][k] == t[k];
    }
  }

  lemma TokenCut(t: string, max: nat)
    requires 0 < max < |t| && !IsSpace(t[0]) && LastIndex(t[..max], IsSpace) == -1
    ensures Trim(t[..max]) == t[..max] && NoneIn(t[..max], IsSpace)
  {
    hide Trim, LastIndex, IsSpace;
    TrimFixed(t[..max]);
  }

  lemma TerminatorIsNoSpace(c: char)
    requires IsTerminator(c)
    ensures !IsSpace(c)
  {
  }

  // ---------- where the cut falls ----------

  /** How far two texts begin alike. */
  function SharedLength(a: string, b: string): (n: nat)
    ensures n <= |a| && n <= |b| && a[..n] == b[..n]
    ensures n < |a| && n < |b| ==> a[n] != b[n]
  {
    if a == [] || b == [] || a[0] != b[0] then 0 else
      var n := SharedLength(a[1..], b[1..]);
      assert a[..n + 1] == [a[0]] + a[1..][..n] && b[..n + 1] == [b[0]] + b[1..][..n];
      n + 1
  }

  /** What is spoken leaves the text in the middle of a token. */
  predicate CutsToken(text: string, max: int) {
    var t := Trim(text);
    var n := SharedLength(Capped(text, max), t);
    0 < n < |t| && !IsSpace(t[n - 1]) && !IsSpace(t[n])
  }

  /** The last terminator within the cap is followed by more of its token, as in an amount. */
  predicate StopsInToken(t: string, max: int)
    requires 0 < max < |t|
  {
    exists n :: 0 < n <= max && IsTerminator(t[n - 1]) && NoneIn(t[n..max], IsTerminator) && !IsSpace(t[n])
  }

  /** One token reaches past the cap, and past the ellipsis that may stand there. */
  predicate TokenIsLonger(t: string, max: int)
    requires 0 < max < |t|
  {
    && NoneIn(t[..max], IsTerminator) && NoneIn(t[..max], IsSpace) && !IsSpace(t[max])
    && (t[max] == ELLIPSIS ==> max + 1 < |t| && !IsSpace(t[max + 1]))
  }

  /**
   * A cut falls inside a token exactly when one token is longer than the cap or when the last
   * terminator within it stands inside a token.
   */
  lemma CutsTokenIff(text: string, max: int)
    requires max > 0
    ensures var t := Trim(text);
            CutsToken(text, max) <==> |t| > max && (StopsInToken(t, max) || TokenIsLonger(t, max))
  {
    hide Trim, LastIndex, IsSpace, IsTerminator, NoneIn, StopsInToken, TokenIsLonger, SharedLength;
    var t := Trim(text);
    if |t| <= max {
      SharedIs(t, t, |t|);
    } else if LastIndex(t[..max], IsTerminator) != -1 {
      var n := SentenceCut(t, max);
      SharedIs(t[..n], t, n);
      StopIsLast(t, max, n);
    } else if LastIndex(t[..max], IsSpace) != -1 {
      NoStop(t, max);
      var n := WordCut(t, max);
      SpaceIsNoEllipsis(t[n]);
      SharedIs(t[..n] + [ELLIPSIS], t, n);
      SpaceInWindow(t, max, n);
    } else {
      NoStop(t, max);
      TokenCut(t, max);
      TokenEnds(t, max);
    }
  }

  lemma {:induction false} SharedIs(a: string, b: string, n: nat)
    requires n <= |a| && n <= |b| && a[..n] == b[..n] && (n < |a| && n < |b| ==> a[n] != b[n])
    ensures SharedLength(a, b) == n
  {
    if n > 0 {
      assert a[0] == a[..n][0] == b[..n][0] == b[0];
      assert a[1..][..n - 1] == a[..n][1..] && b[1..][..n - 1] == b[..n][1..];
      SharedIs(a[1..], b[1..], n - 1);
    }
  }

  lemma StopIsLast(t: string, max: int, n: nat)
    requires 0 < max < |t| && 0 < n <= max && IsTerminator(t[n - 1]) && NoneIn(t[n..max], IsTerminator)
    ensures StopsInToken(t, max) <==> !IsSpace(t[n])
    ensures !TokenIsLonger(t, max) && !IsSpace(t[n - 1])
  {
    hide IsSpace, IsTerminator;
    TerminatorIsNoSpace(t[n - 1]);
    assert t[..max][n - 1] == t[n - 1];
    forall m | 0 < m < n ensures !NoneIn(t[m..max], IsTerminator) {
      assert t[m..max][n - 1 - m] == t[n - 1];
    }
    forall k | n <= k < max ensures !IsTerminator(t[k]) {
      assert t[n..max][k - n] == t[k];
    }
  }

  lemma NoStop(t: string, max: int)
    requires 0 < max < |t| && LastIndex(t[..max], IsTerminator) == -1
    ensures !StopsInToken(t, max) && NoneIn(t[..max], IsTerminator)
  {
    hide IsSpace, IsTerminator, LastIndex;
    forall k | 0 <= k < max ensures !IsTerminator(t[k]) {
      assert t[..max][k] == t[k];
    }
  }

  lemma SpaceInWindow(t: string, max: int, n: nat)
    requires 0 < max < |t| && n < max && IsSpace(t[..max][n])
    ensures !TokenIsLonger(t, max)
  {
    hide IsSpace, IsTerminator;
  }

  lemma SpaceIsNoEllipsis(c: char)
    requires IsSpace(c)
    ensures c != ELLIPSIS
  {
  }

  /** The mark of a hard cut may happen to be the next character of the text. */
  lemma TokenEnds(t: string, max: int)
    requires 0 < max < |t| && NoneIn(t[..max], IsTerminator) && NoneIn(t[..max], IsSpace)
    ensures var n := SharedLength(t[..max] + [ELLIPSIS], t);
            && n == (if t[max] == ELLIPSIS then max + 1 else max) && !IsSpace(t[n - 1])
            && (n < |t| && !IsSpace(t[n]) <==> TokenIsLonger(t, max))
  {
    hide IsSpace, IsTerminator, SharedLength;
    assert t[..max][max - 1] == t[max - 1];
    if t[max] == ELLIPSIS {
      EllipsisIsNoSpace();
      assert t[..max] + [ELLIPSIS] == t[..max + 1];
      SharedIs(t[..max + 1], t, max + 1);
    } else {
      SharedIs(t[..max] + [ELLIPSIS], t, max);
    }
  }

  lemma EllipsisIsNoSpace()
    ensures !IsSpace(ELLIPSIS)
  {
  }

  /** An amount is cut in half, and nothing marks the cut. */
  lemma AmountIsCut()
    ensures Capped("a 12.50 b", 6) == "a 12." && CutsToken("a 12.50 b", 6)
  {
    hide Trim, LastIndex, Capped, CutsToken;
    var t := "a 12.50 b";
    TrimFixed(t);
    var window := t[..6];
    assert window == "a 12.5";
    LastIndexIs(window, IsTerminator, 4);
    TrimFixed("a 12.");
    assert window[..5] == "a 12.";
    CappedAtSentence(t, 6);
    CutsTokenIff(t, 6);
    assert StopsInToken(t, 6) by { assert IsTerminator(t[5 - 1]) && t[5..6] == "5" && !IsSpace(t[5]); }
  }

  lemma CappedAtSentence(text: string, max: int)
    requires Trim(text) == text && 0 < max < |text| && LastIndex(text[..max], IsTerminator) != -1
    ensures Capped(text, max) == Trim(text[..max][..LastIndex(text[..max], IsTerminator) + 1])
  {
    hide Trim, LastIndex, IsTerminator;
  }
}
