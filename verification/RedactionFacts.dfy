/** What else the redaction module promises: the detector is exact, and the looser stage alone is not
    enough. */
module RedactionFacts {
  import opened Wrappers
  import opened Chars
  import opened Substitution
  import opened Scanner
  import opened Patterns
  import opened Redaction
  import opened Escapes

  // ----- the detector -----

  /** A scan over matches that would all be masked meets one exactly if there is one: the first
      match is never stepped over. */
  lemma {:induction false} FindsExactly(ms: Table, s: string, i: nat)
    requires Fits(ms, s) && i <= |s|
    requires forall y :: i <= y < |s| && ms[y].Some? ==> ms[y].value.hide
    ensures Finds(ms, s, i) <==> exists y :: i <= y < |s| && ms[y].Some?
    decreases |s| - i
  {
    if i < |s| && ms[i].None? {
      FindsExactly(ms, s, i + 1);
    }
  }

  lemma DetectsExactly(k: Pattern, s: string)
    requires k.Envelope? || k.Hex64? || k.LooseNamed?
    ensures Detects(k, s) <==> !NoMatch(k, s)
  {
    var ms := Matches(k, s);
    forall y | 0 <= y < |s| && ms[y].Some?
      ensures ms[y].value.hide
    {
      assert ms[y] == At(k, s, y);
    }
    FindsExactly(ms, s, 0);
    forall y | 0 <= y < |s|
      ensures ms[y] == At(k, s, y)
    {
    }
  }

  /** The digits from i to e read as one number, over the point. */
  function DigitsOver(s: string, i: nat, e: nat, n: nat): nat
    requires i <= e <= |s| && forall y :: i <= y < e ==> IsDigit(s[y]) || s[y] == '.'
    decreases e - i
  {
    if i == e then n
    else if s[i] == '.' then DigitsOver(s, i + 1, e, n)
    else
      assert IsDigit(s[i]);
      DigitsOver(s, i + 1, e, 10 * n + (s[i] as nat - '0' as nat))
  }

  /** n units lie between 33 and 43 or between 124 and 132, if a whole has that many. */
  predicate InRanges(n: nat, whole: nat) { 33 * whole <= n <= 43 * whole || 124 * whole <= n <= 132 * whole }

  /** A number with its whole part from q to a is in the ranges. */
  ghost predicate KoreanCut(s: string, y: nat, q: nat, a: nat, e: nat) {
    && LooseCut(s, y, q, a, e)
    && (forall z :: q <= z < a || a + 1 <= z < e ==> IsDigit(s[z])) && s[a] == '.'
    && InRanges(DigitsOver(s, q, e, 0), Pow10(e - a - 1))
  }

  lemma {:induction false} DigitsAre(s: string, i: nat, e: nat, n: nat)
    requires i <= e <= |s| && forall y :: i <= y < e ==> IsDigit(s[y])
    ensures DigitsOver(s, i, e, n) == n * Pow10(e - i) + Value(s, i, e) && Value(s, i, e) < Pow10(e - i)
    decreases e - i
  {
    if i < e {
      var d := s[i] as nat - '0' as nat;
      DigitsAre(s, i + 1, e, 10 * n + d);
      ValueFront(s, i, e);
      Distributes(n, d, Pow10(e - i - 1));
    }
  }

  lemma Distributes(n: nat, d: nat, p: nat)
    requires d <= 9
    ensures (10 * n + d) * p == n * (10 * p) + d * p && d * p + p <= 10 * p
  {
    assert d * p + (9 - d) * p == 9 * p;
  }

  lemma TenTimes(d: nat, n: nat)
    ensures d * Pow10(n + 1) == 10 * (d * Pow10(n))
  {
    var p := Pow10(n);
    assert Pow10(n + 1) == 10 * p;
    assert d * (10 * p) == 10 * (d * p);
  }

  /** The value of a digit in front of others. */
  lemma {:induction false} ValueFront(s: string, i: nat, e: nat)
    requires i < e <= |s| && forall y :: i <= y < e ==> IsDigit(s[y])
    ensures Value(s, i, e) == (s[i] as nat - '0' as nat) * Pow10(e - i - 1) + Value(s, i + 1, e)
    decreases e
  {
    if i + 1 < e {
      ValueFront(s, i, e - 1);
      TenTimes(s[i] as nat - '0' as nat, e - i - 2);
    } else {
      assert Pow10(0) == 1 && Value(s, i, i) == 0 && Value(s, e, e) == 0;
    }
  }

  lemma {:induction false} OverPoint(s: string, q: nat, a: nat, e: nat, n: nat)
    requires q <= a < e <= |s| && s[a] == '.' && forall z :: q <= z < a || a + 1 <= z < e ==> IsDigit(s[z])
    ensures DigitsOver(s, q, e, n) == DigitsOver(s, a + 1, e, DigitsOver(s, q, a, n))
    decreases a - q
  {
    if q < a {
      OverPoint(s, q + 1, a, e, 10 * n + (s[q] as nat - '0' as nat));
    }
  }

  /** Comparing whole part and fraction is comparing the number. */
  lemma RangesAre(s: string, q: nat, a: nat, e: nat)
    requires q <= a < e <= |s| && s[a] == '.' && forall z :: q <= z < a || a + 1 <= z < e ==> IsDigit(s[z])
    ensures InRanges(DigitsOver(s, q, e, 0), Pow10(e - a - 1)) <==> InKorea(Value(s, q, a), Value(s, a + 1, e))
  {
    OverPoint(s, q, a, e, 0);
    DigitsAre(s, q, a, 0);
    DigitsAre(s, a + 1, e, Value(s, q, a));
    Compared(Value(s, q, a), Value(s, a + 1, e), Pow10(e - a - 1));
  }

  lemma Compared(w: nat, f: nat, p: nat)
    requires f < p
    ensures InRanges(w * p + f, p) <==> InKorea(w, f)
  {
    AtLeast(w, f, p, 33);
    AtLeast(w, f, p, 43);
    AtLeast(w, f, p, 124);
    AtLeast(w, f, p, 132);
  }

  lemma AtLeast(w: nat, f: nat, p: nat, b: nat)
    requires f < p
    ensures b * p <= w * p + f <==> b <= w
    ensures w * p + f <= b * p <==> w < b || (w == b && f == 0)
  {
    MultiplesApart(w, b, p);
    MultiplesApart(b, w, p);
  }

  lemma {:induction false} MultiplesApart(a: nat, b: nat, p: nat)
    ensures a < b ==> a * p + p <= b * p
    decreases b
  {
    if a + 1 < b {
      MultiplesApart(a, b - 1, p);
    }
  }

  /** A number stands at [y, e), outside a time and no part of a longer number, and is in the ranges. */
  ghost predicate KoreanNumber(s: string, y: nat, e: nat) {
    LooseNumberWord(s, y, e) && exists q: nat, a: nat :: KoreanCut(s, y, q, a, e)
  }

  predicate Hides(s: string, y: nat)
    requires y < |s|
  {
    LooseNumberAt(s, y).Some? && LooseNumberAt(s, y).value.hide
  }

  lemma HidesKorean(s: string, y: nat)
    requires y < |s| && Hides(s, y)
    ensures KoreanNumber(s, y, y + LooseNumberAt(s, y).value.len)
  {
    LooseReads(s, y);
    var q := if s[y] == '-' then y + 1 else y;
    var a := RunEnd(Digit, s, q);
    RunChars(Digit, s, q);
    RunChars(Digit, s, a + 1);
    RangesAre(s, q, a, RunEnd(Digit, s, a + 1));
    assert KoreanCut(s, y, q, a, RunEnd(Digit, s, a + 1));
  }

  lemma KoreanHides(s: string, y: nat, e: nat)
    requires KoreanNumber(s, y, e)
    ensures y < |s| && Hides(s, y)
  {
    LooseLongest(s, y, e);
    var q: nat, a: nat :| KoreanCut(s, y, q, a, e);
    assert IsDigit(s[q]);
    RunEndIs(Digit, s, q, a);
    RunEndIs(Digit, s, a + 1, e);
    RangesAre(s, q, a, e);
  }

  /** A number begins inside another only behind its minus, and then both are in the ranges or neither. */
  lemma NestedNumbers(s: string, i: nat, y: nat)
    requires i < y < |s| && LooseNumberAt(s, i).Some? && y < i + LooseNumberAt(s, i).value.len && LooseNumberAt(s, y).Some?
    ensures Hides(s, i) <==> Hides(s, y)
  {
    var q := if s[i] == '-' then i + 1 else i;
    RunChars(Digit, s, q);
    RunChars(Digit, s, RunEnd(Digit, s, q) + 1);
    assert Before(s, y) == s[y - 1];
  }

  ghost predicate NumberTable(ms: Table, s: string) {
    Fits(ms, s) && forall i :: 0 <= i < |s| ==> ms[i] == LooseNumberAt(s, i)
  }

  /** The scan steps over no number in the ranges. */
  lemma {:induction false} FindsNumber(s: string, ms: Table, i: nat, y: nat)
    requires NumberTable(ms, s) && i <= y < |s| && Hides(s, y)
    ensures Finds(ms, s, i)
    decreases y - i
  {
    if ms[i].None? {
      FindsNumber(s, ms, i + 1, y);
    } else if !ms[i].value.hide {
      if y < i + ms[i].value.len {
        NestedNumbers(s, i, y);
      } else {
        FindsNumber(s, ms, i + ms[i].value.len, y);
      }
    }
  }

  lemma {:induction false} FoundNumber(s: string, ms: Table, i: nat) returns (y: nat)
    requires NumberTable(ms, s) && i <= |s| && Finds(ms, s, i)
    ensures y < |s| && Hides(s, y)
    decreases |s| - i
  {
    if ms[i].None? {
      y := FoundNumber(s, ms, i + 1);
    } else if ms[i].value.hide {
      y := i;
    } else {
      y := FoundNumber(s, ms, i + ms[i].value.len);
    }
  }

  ghost predicate HasKoreanNumber(s: string) { exists y: nat, e: nat :: KoreanNumber(s, y, e) }

  /** The scan for numbers reports one exactly if a number in the ranges stands anywhere in the line. */
  lemma NumberDetectedExactly(s: string)
    ensures Detects(LooseNumber, s) <==> HasKoreanNumber(s)
  {
    var ms := Matches(LooseNumber, s);
    if Finds(ms, s, 0) {
      var y := FoundNumber(s, ms, 0);
      HidesKorean(s, y);
    }
    forall y: nat, e: nat | KoreanNumber(s, y, e)
      ensures Finds(ms, s, 0)
    {
      KoreanHides(s, y, e);
      FindsNumber(s, ms, 0, y);
    }
  }

  /** No envelope, hash or named value and no number in the ranges stands anywhere in the text. */
  ghost predicate Harmless(text: string) {
    NoMatch(Envelope, text) && NoMatch(Hex64, text) && NoMatch(LooseNamed(NAMES), text) && !HasKoreanNumber(text)
  }

  lemma DetectorIsExact(line: string)
    ensures Residue(line) == [] <==> Harmless(Decoded(line))
  {
    var text := Decoded(line);
    DetectsExactly(Envelope, text);
    DetectsExactly(Hex64, text);
    DetectsExactly(LooseNamed(NAMES), text);
    NumberDetectedExactly(text);
  }

  /** The detector is silent exactly if what the line says is harmless, whichever of its characters are
      written as escapes. Every line is written from such pieces (`EveryLineIsWritten`). */
  lemma SilentExactly(ps: seq<Piece>)
    requires Clear(ps)
    ensures Residue(Written(ps)) == [] <==> Harmless(Said(ps))
  {
    DetectorIsExact(Written(ps));
    DecodingInvertsWriting(ps);
  }

  /** A line without escapes says itself. */
  lemma SilentAsWritten(line: string)
    requires NoEscape(line)
    ensures Residue(line) == [] <==> Harmless(line)
  {
    DetectorIsExact(line);
    NothingToDecode(line);
  }

  // ----- the looser stage alone -----

  lemma {:induction false} NothingToMask(ms: Table, s: string, i: nat)
    requires Fits(ms, s) && i <= |s|
    ensures Finds(ms, s, i) <==> Masks(ms, s, i) > 0
    ensures !Finds(ms, s, i) ==> Sub(ms, s, i) == s[i..]
    decreases |s| - i
  {
    if i < |s| {
      var next := if ms[i].None? then i + 1 else i + ms[i].value.len;
      NothingToMask(ms, s, next);
      assert s[i..] == s[i..next] + s[next..];
    }
  }

  lemma StepMasks(k: Pattern, line: string)
    ensures Count(k, line) > 0 <==> Detects(k, line)
    ensures Count(k, line) == 0 ==> Apply(k, line) == line
  {
    NothingToMask(Matches(k, line), line, 0);
    assert line[0..] == line;
  }

  /** The looser stage masks what the detector finds in the line as written: it masks something exactly if
      there is something, and otherwise leaves the line as it is. */
  lemma LooseMasksWhatIsFound(line: string)
    requires NoEscape(line)
    ensures CountAll(LOOSE, line) > 0 <==> Residue(line) != []
    ensures CountAll(LOOSE, line) == 0 ==> ApplyAll(LOOSE, line) == line
  {
    var n := LooseNamed(NAMES);
    NothingToDecode(line);
    StepMasks(Envelope, line);
    StepMasks(Hex64, line);
    StepMasks(LooseNumber, line);
    StepMasks(n, line);
    LooseUnfolds(line);
    LooseCounts(line);
  }

  lemma LooseCounts(line: string)
    ensures var a := Apply(Envelope, line); var b := Apply(Hex64, a); var c := Apply(LooseNumber, b);
            CountAll(LOOSE, line) == Count(Envelope, line) + Count(Hex64, a) + Count(LooseNumber, b) + Count(LooseNamed(NAMES), c)
  {
    var n := LooseNamed(NAMES);
    assert LOOSE[1..] == [Hex64, LooseNumber, n] && LOOSE[1..][1..] == [LooseNumber, n] && LOOSE[1..][1..][1..] == [n];
    var a := Apply(Envelope, line);
    var b := Apply(Hex64, a);
    var c := Apply(LooseNumber, b);
    assert CountAll([n], c) == Count(n, c);
    assert CountAll([LooseNumber, n], b) == Count(LooseNumber, b) + CountAll([n], c);
    assert CountAll([Hex64, LooseNumber, n], a) == Count(Hex64, a) + CountAll([LooseNumber, n], b);
  }

  function Repeat(c: char, n: nat): (s: string)
    ensures |s| == n && forall i :: 0 <= i < n ==> s[i] == c
  {
    if n == 0 then "" else [c] + Repeat(c, n - 1)
  }

  /** lat=111111aaa...a: the digits continue a run of 70 hex characters. */
  function LongRun(): string { ['l', 'a', 't', '='] + Repeat('1', 6) + Repeat('a', 64) }

  lemma LongRunChars()
    ensures |LongRun()| == 74
    ensures LongRun()[0] == 'l' && LongRun()[1] == 'a' && LongRun()[2] == 't' && LongRun()[3] == '='
    ensures forall i :: 4 <= i < 10 ==> LongRun()[i] == '1'
    ensures forall i :: 10 <= i < 74 ==> LongRun()[i] == 'a'
  {
  }

  lemma NothingInLongRun(k: Pattern, s: string, y: nat)
    requires k.Envelope? || k.Hex64? || k.LooseNumber?
    requires s == LongRun() && y < |s|
    ensures At(k, s, y).None?
  {
    LongRunChars();
    if 4 <= y {
      RunEndIs(Hex, s, y, 74);
    }
  }

  lemma LooseLeavesLongRun(k: Pattern)
    requires k.Envelope? || k.Hex64? || k.LooseNumber?
    ensures Apply(k, LongRun()) == LongRun()
  {
    var s, ms := LongRun(), Matches(k, LongRun());
    forall y | 0 <= y < |s|
      ensures ms[y].None?
    {
      NothingInLongRun(k, s, y);
    }
    Copied(ms, s, 0, |s|);
    SameLength(ms, s, 0);
  }

  lemma {:induction false} SameLength(ms: Table, s: string, i: nat)
    requires Fits(ms, s) && i <= |s| && forall y :: i <= y < |s| ==> ms[y].None?
    ensures |Sub(ms, s, i)| == |s| - i
    decreases |s| - i
  {
    if i < |s| {
      SameLength(ms, s, i + 1);
    }
  }

  lemma LatIsNamed()
    ensures NamedMatch(NAMES, LongRun(), 0) == Some(Match(10, 4, true))
  {
    var s := LongRun();
    LongRunChars();
    assert WordAt(s, 0, LAT);
    RunEndIs(Space, s, 3, 3);
    RunEndIs(Space, s, 4, 4);
    assert Separator(s, 3) == Some(4);
    assert NAMES.long[0] == LAT;
    RunEndIs(Digit, s, 4, 10);
  }

  lemma NothingNamedBehind(y: nat)
    requires 10 <= y < |LongRun()|
    ensures Matches(LooseNamed(NAMES), LongRun())[y].None?
  {
    LongRunChars();
    NothingNamedAt(LongRun(), y);
  }

  lemma NothingNamedAt(s: string, y: nat)
    requires |s| == 74 && 10 <= y < 74 && forall i :: 10 <= i < 74 ==> s[i] == 'a'
    ensures NamedMatch(NAMES, s, y).None?
  {
    if NamedDigits(NAMES, s, y).Some? {
      NamedBounds(NAMES, s, y);
    }
  }

  /** The mask takes the six digits and leaves lat=*** and exactly 64 hex characters. */
  lemma MaskShortensRun()
    ensures var out := Apply(LooseNamed(NAMES), LongRun());
            && |out| == 71 && out[..4] == LongRun()[..4]
            && (forall y :: 4 <= y < 7 ==> out[y] == '*') && (forall y :: 7 <= y < 71 ==> out[y] == 'a')
  {
    var s := LongRun();
    var ms := Matches(LooseNamed(NAMES), s);
    LongRunChars();
    LatIsNamed();
    assert ms[0] == NamedMatch(NAMES, s, 0);
    ShortenedTail(ms, s);
    ShortenedHead(ms, s);
  }

  lemma ShortenedHead(ms: Table, s: string)
    requires Fits(ms, s) && |s| == 74 && ms[0] == Some(Match(10, 4, true))
    requires |Sub(ms, s, 10)| == 64 && forall y :: 0 <= y < 64 ==> Sub(ms, s, 10)[y] == 'a'
    ensures var out := Sub(ms, s, 0);
            && |out| == 71 && out[..4] == s[..4]
            && (forall y :: 4 <= y < 7 ==> out[y] == '*') && (forall y :: 7 <= y < 71 ==> out[y] == 'a')
  {
    HeadOfMasked(ms, s, 0);
    var out := Sub(ms, s, 0);
    assert forall y :: 7 <= y < |out| ==> out[y] == out[7..][y - 7];
  }

  lemma ShortenedTail(ms: Table, s: string)
    requires s == LongRun() && ms == Matches(LooseNamed(NAMES), s)
    ensures |s| == 74 && |Sub(ms, s, 10)| == 64 && forall y :: 0 <= y < 64 ==> Sub(ms, s, 10)[y] == 'a'
  {
    LongRunChars();
    forall y | 10 <= y < |s|
      ensures ms[y].None?
    {
      NothingNamedBehind(y);
    }
    Copied(ms, s, 10, 74);
    SameLength(ms, s, 10);
  }

  lemma LooseUnfolds(line: string)
    ensures ApplyAll(LOOSE, line) == Apply(LooseNamed(NAMES), Apply(LooseNumber, Apply(Hex64, Apply(Envelope, line))))
  {
    var n := LooseNamed(NAMES);
    assert LOOSE[1..] == [Hex64, LooseNumber, n] && LOOSE[1..][1..] == [LooseNumber, n] && LOOSE[1..][1..][1..] == [n];
    var a := Apply(Envelope, line);
    var b := Apply(Hex64, a);
    var c := Apply(LooseNumber, b);
    assert ApplyAll([n], c) == Apply(n, c);
    assert ApplyAll([LooseNumber, n], b) == ApplyAll([n], c);
    assert ApplyAll([Hex64, LooseNumber, n], a) == ApplyAll([LooseNumber, n], b);
  }

  lemma ShortenedRunIsFound(out: string)
    requires |out| == 71 && out[0] == 'l' && out[1] == 'a' && out[2] == 't' && out[3] == '='
    requires (forall y :: 4 <= y < 7 ==> out[y] == '*') && (forall y :: 7 <= y < 71 ==> out[y] == 'a')
    ensures Residue(out) != []
  {
    assert NoEscape(out);
    RunEndIs(Hex, out, 7, 71);
    assert At(Hex64, out, 7).Some?;
    SilentAsWritten(out);
  }

  /** The looser stage can make a hash: on this line it leaves residue, so the final stage is needed. */
  lemma LooseStageIsNotEnough()
    ensures Residue(ApplyAll(LOOSE, LongRun())) != []
  {
    var s := LongRun();
    LooseUnfolds(s);
    LooseLeavesLongRun(Envelope);
    LooseLeavesLongRun(Hex64);
    LooseLeavesLongRun(LooseNumber);
    MaskShortensRun();
    LongRunChars();
    var out := Apply(LooseNamed(NAMES), s);
    assert out[0] == out[..4][0] && out[1] == out[..4][1] && out[2] == out[..4][2] && out[3] == out[..4][3];
    ShortenedRunIsFound(out);
  }
}
