/** The redaction patterns read as sets of stretches: a stretch matches if it can be cut into the parts of
    the pattern in any way at all. A scanner finds something exactly where such a stretch begins; what it
    gives is the longest one, and the head it keeps is the only one. */
module Patterns {
  import opened Wrappers
  import opened Chars
  import opened Substitution
  import opened Scanner

  predicate All(k: Class, s: string, x: nat, y: nat) { x <= y <= |s| && forall z :: x <= z < y ==> Is(k, s[z]) }

  /** Nothing, or one character for which `p` holds. */
  predicate Maybe(p: char -> bool, s: string, x: nat, y: nat) { y <= |s| && (y == x || (y == x + 1 && p(s[x]))) }

  predicate IsSign(c: char) { c == '+' || c == '-' }

  predicate IsMinus(c: char) { c == '-' }

  predicate IsMark(c: char) { c == '=' || c == ':' }

  lemma RunIsAll(k: Class, s: string, x: nat)
    requires x <= |s|
    ensures All(k, s, x, RunEnd(k, s, x))
  {
    RunChars(k, s, x);
  }

  // ----- what the patterns match -----

  predicate EscapeWord(s: string, i: nat, e: nat) {
    i < e <= |s| &&
    (s[i..e] == "%" || s[i..e] == "\\x" || (e == i + 3 && s[i] == '%' && IsHex(s[i + 1]) && IsHex(s[i + 2])))
  }

  /** Digits joined by single points and colons. */
  predicate NumberWord(s: string, i: nat, e: nat) {
    && i < e <= |s| && IsDigit(s[i]) && IsDigit(s[e - 1])
    && forall y :: i <= y < e - 1 ==> IsDigit(s[y]) || ((s[y] == '.' || s[y] == ':') && IsDigit(s[y + 1]))
  }

  predicate Octet(s: string, x: nat, y: nat) { x < y <= x + 3 && All(Digit, s, x, y) }

  /** Three numbers, each with its point, that end at l. */
  predicate OctetsCut(s: string, i: nat, a: nat, b: nat, c: nat, l: nat) {
    && Octet(s, i, a) && Octet(s, a + 1, b) && Octet(s, b + 1, c) && l == c + 1 <= |s|
    && s[a] == '.' && s[b] == '.' && s[c] == '.'
  }

  /** The last number up to d, and an optional port. */
  predicate PortCut(s: string, l: nat, d: nat, e: nat) {
    Octet(s, l, d) && (d == e || (d + 1 < e && All(Digit, s, d + 1, e) && s[d] == ':'))
  }

  /** Four numbers of one to three digits joined by points, and an optional port. */
  ghost predicate AddressWord(s: string, i: nat, e: nat) {
    exists a: nat, b: nat, c: nat, l: nat, d: nat :: OctetsCut(s, i, a, b, c, l) && PortCut(s, l, d, e)
  }

  predicate HexRunWord(s: string, i: nat, e: nat) { i + 64 <= e && All(Hex, s, i, e) }

  predicate Hex64Word(s: string, i: nat, e: nat) {
    e == i + 64 && All(Hex, s, i, e) && !IsHex(Before(s, i)) && (e < |s| ==> !IsHex(s[e]))
  }

  predicate EnvelopeWord(s: string, i: nat, e: nat) {
    && i + 36 <= e <= |s| && s[i..i + 3] == "v1." && s[i + 19] == '.'
    && All(Url, s, i + 3, i + 19) && All(Url, s, i + 20, e)
  }

  /** A name, a quote, spaces, a mark, spaces, a quote and a sign, cut at q, b, c, d and g. */
  predicate HeadCut(v: Vocabulary, s: string, i: nat, w: Word, q: nat, b: nat, c: nat, d: nat, g: nat) {
    && i < |s| && (w in v.long || (w in v.short && !IsLetter(Before(s, i)) && Before(s, i) != '_')) && WordAt(s, i, w)
    && Maybe(IsQuote, s, i + |w|, q) && All(Space, s, q, b) && b < |s| && IsMark(s[b])
    && All(Space, s, b + 1, c) && Maybe(IsQuote, s, c, d) && Maybe(IsSign, s, d, g)
  }

  /** Digits up to f, and an optional fraction. */
  predicate ValueCut(s: string, g: nat, f: nat, e: nat) {
    g < f && All(Digit, s, g, f) && (e == f || (f + 1 < e && All(Digit, s, f + 1, e) && s[f] == '.'))
  }

  ghost predicate NamedWord(v: Vocabulary, s: string, i: nat, g: nat, e: nat) {
    (exists w: Word, q: nat, b: nat, c: nat, d: nat :: HeadCut(v, s, i, w, q, b, c, d, g)) && exists f: nat :: ValueCut(s, g, f, e)
  }

  /** An optional minus up to q, two or three digits up to a, a point, digits. */
  predicate LooseCut(s: string, i: nat, q: nat, a: nat, e: nat) {
    && Maybe(IsMinus, s, i, q) && q + 2 <= a <= q + 3 && All(Digit, s, q, a)
    && a + 1 < e && All(Digit, s, a + 1, e) && s[a] == '.'
  }

  ghost predicate LooseNumberWord(s: string, i: nat, e: nat) {
    && i < |s| && !ClockBefore(s, i) && !IsDigit(Before(s, i)) && Before(s, i) != '.'
    && (exists q: nat, a: nat :: LooseCut(s, i, q, a, e))
    && (e < |s| ==> !IsDigit(s[e])) && (e + 1 < |s| && s[e] == '.' ==> !IsDigit(s[e + 1]))
  }

  /** The pattern can match [i, e), and what it keeps can end at g. */
  ghost predicate Reads(k: Pattern, s: string, i: nat, g: nat, e: nat) {
    match k
    case Escape => g == i && EscapeWord(s, i, e)
    case NumberRun => g == i && NumberWord(s, i, e)
    case HexRun => g == i && HexRunWord(s, i, e)
    case Envelope => g == i + 3 && EnvelopeWord(s, i, e)
    case LooseNamed(v) => NamedWord(v, s, i, g, e)
    case Hex64 => g == i && Hex64Word(s, i, e)
    case LooseNumber => g == i && LooseNumberWord(s, i, e)
  }

  // ----- numbers and addresses -----

  lemma {:induction false} NumberEndReads(s: string, i: nat)
    requires i < |s| && IsDigit(s[i])
    ensures NumberWord(s, i, NumberEnd(s, i))
    decreases |s| - i
  {
    var r := RunEnd(Digit, s, i);
    RunChars(Digit, s, i);
    if r + 1 < |s| && (s[r] == '.' || s[r] == ':') && IsDigit(s[r + 1]) {
      NumberEndReads(s, r + 1);
    }
  }

  lemma {:induction false} NumberEndLongest(s: string, i: nat, e: nat)
    requires NumberWord(s, i, e)
    ensures e <= NumberEnd(s, i)
    decreases |s| - i
  {
    var r := RunEnd(Digit, s, i);
    if r < e {
      NumberEndLongest(s, r + 1, e);
    }
  }

  lemma OctetsAreCut(s: string, i: nat) returns (a: nat, b: nat, c: nat)
    requires i <= |s| && Octets(s, i, 3)
    ensures OctetsCut(s, i, a, b, c, OctetsEnd(s, i, 3))
  {
    a := OctetIsCut(s, i, 3);
    b := OctetIsCut(s, a + 1, 2);
    c := OctetIsCut(s, b + 1, 1);
  }

  lemma OctetIsCut(s: string, i: nat, n: nat) returns (a: nat)
    requires i <= |s| && 0 < n && Octets(s, i, n)
    ensures Octet(s, i, a) && a < |s| && s[a] == '.' && Octets(s, a + 1, n - 1)
    ensures OctetsEnd(s, i, n) == OctetsEnd(s, a + 1, n - 1)
  {
    a := RunEnd(Digit, s, i);
    RunIsAll(Digit, s, i);
  }

  lemma CutIsOctets(s: string, i: nat, a: nat, b: nat, c: nat, l: nat)
    requires OctetsCut(s, i, a, b, c, l)
    ensures Octets(s, i, 3) && OctetsEnd(s, i, 3) == l
  {
    CutIsOctet(s, b + 1, c, 0);
    CutIsOctet(s, a + 1, b, 1);
    CutIsOctet(s, i, a, 2);
  }

  lemma CutIsOctet(s: string, i: nat, a: nat, n: nat)
    requires Octet(s, i, a) && a < |s| && s[a] == '.' && Octets(s, a + 1, n)
    ensures Octets(s, i, n + 1) && OctetsEnd(s, i, n + 1) == OctetsEnd(s, a + 1, n)
  {
    RunEndIs(Digit, s, i, a);
  }

  /** The test for an address reads exactly the addresses, whatever their cut. */
  lemma AddressReads(s: string, i: nat, e: nat)
    requires i <= e <= |s| && (e < |s| ==> !IsDigit(s[e]))
    ensures IsAddress(s, i, e) <==> AddressWord(s, i, e)
  {
    if IsAddress(s, i, e) {
      var a, b, c := OctetsAreCut(s, i);
      PortIsCut(s, OctetsEnd(s, i, 3), e);
    }
    forall a: nat, b: nat, c: nat, l: nat, d: nat | OctetsCut(s, i, a, b, c, l) && PortCut(s, l, d, e)
      ensures IsAddress(s, i, e)
    {
      CutIsOctets(s, i, a, b, c, l);
      CutIsPort(s, l, d, e);
    }
  }

  lemma PortIsCut(s: string, l: nat, e: nat)
    requires l <= |s| && e <= |s| && PortTo(s, l, e)
    ensures PortCut(s, l, RunEnd(Digit, s, l), e)
  {
    RunIsAll(Digit, s, l);
    if RunEnd(Digit, s, l) < e {
      RunIsAll(Digit, s, RunEnd(Digit, s, l) + 1);
    }
  }

  lemma CutIsPort(s: string, l: nat, d: nat, e: nat)
    requires e <= |s| && (e < |s| ==> !IsDigit(s[e])) && PortCut(s, l, d, e)
    ensures l <= |s| && PortTo(s, l, e)
  {
    RunEndIs(Digit, s, l, d);
    if d < e {
      RunEndIs(Digit, s, d + 1, e);
    }
  }

  // ----- named values -----

  /** The separator of a name has one reading. */
  lemma HeadReads(v: Vocabulary, s: string, i: nat, w: Word, q: nat, b: nat, c: nat, d: nat, g: nat)
    requires HeadCut(v, s, i, w, q, b, c, d, g) && g < |s| && IsDigit(s[g])
    ensures NamedAt(v, s, i, w, g)
  {
    RunEndIs(Space, s, q, b);
    assert MarkAt(s, i + |w|) == b;
    RunEndIs(Space, s, b + 1, c);
    assert QuoteEnd(s, c) == d && SignEnd(s, d) == g;
  }

  lemma SeparatorReads(v: Vocabulary, s: string, i: nat, w: Word, g: nat)
    requires i < |s| && NamedAt(v, s, i, w, g)
    ensures exists q: nat, b: nat, c: nat, d: nat :: HeadCut(v, s, i, w, q, b, c, d, g)
  {
    var j := i + |w|;
    var q := if j < |s| && IsQuote(s[j]) then j + 1 else j;
    var b := MarkAt(s, j);
    RunChars(Space, s, q);
    var c := RunEnd(Space, s, b + 1);
    RunChars(Space, s, b + 1);
    assert HeadCut(v, s, i, w, q, b, c, QuoteEnd(s, c), g);
  }

  /** Two names read at one position are equally long: what follows a name is no letter. */
  lemma OneName(v: Vocabulary, s: string, i: nat, w: Word, g: nat, w': Word, g': nat)
    requires i <= |s| && NamedAt(v, s, i, w, g) && NamedAt(v, s, i, w', g')
    ensures g == g'
  {
    WordIsLetters(s, i, w);
    WordIsLetters(s, i, w');
    NoLetterBehind(s, i + |w|);
    NoLetterBehind(s, i + |w'|);
    assert |w| == |w'|;
  }

  lemma NoLetterBehind(s: string, j: nat)
    requires j <= |s| && Separator(s, j).Some?
    ensures j < |s| && !IsLetter(s[j])
  {
  }

  lemma ValueReads(s: string, g: nat)
    requires g < |s| && IsDigit(s[g])
    ensures ValueCut(s, g, RunEnd(Digit, s, g), ValueEnd(s, g))
  {
    var r := RunEnd(Digit, s, g);
    RunIsAll(Digit, s, g);
    if r + 1 < |s| && s[r] == '.' && IsDigit(s[r + 1]) {
      RunIsAll(Digit, s, r + 1);
    }
  }

  lemma ValueLongest(s: string, g: nat, f: nat, e: nat)
    requires ValueCut(s, g, f, e)
    ensures g < |s| && IsDigit(s[g]) && e <= ValueEnd(s, g)
  {
    RunCovers(Digit, s, g, f);
    if f < e {
      RunEndIs(Digit, s, g, f);
      RunCovers(Digit, s, f + 1, e);
    }
  }

  lemma NamedReads(v: Vocabulary, s: string, i: nat)
    requires i < |s| && NamedMatch(v, s, i).Some?
    ensures var m := NamedMatch(v, s, i).value; NamedWord(v, s, i, i + m.keep, i + m.len)
  {
    NamedBounds(v, s, i);
    var g := NamedDigits(v, s, i).value;
    var w := NameOf(v, s, i);
    SeparatorReads(v, s, i, w, g);
    ValueReads(s, g);
  }

  lemma NamedLongest(v: Vocabulary, s: string, i: nat, g: nat, e: nat)
    requires i < |s| && NamedWord(v, s, i, g, e)
    ensures NamedMatch(v, s, i).Some?
    ensures var m := NamedMatch(v, s, i).value; g == i + m.keep && e <= i + m.len
  {
    var w: Word, q: nat, b: nat, c: nat, d: nat :| HeadCut(v, s, i, w, q, b, c, d, g);
    var f: nat :| ValueCut(s, g, f, e);
    ValueLongest(s, g, f, e);
    HeadReads(v, s, i, w, q, b, c, d, g);
    NameFound(v, s, i, w, g);
    NamedBounds(v, s, i);
    var w' := NameOf(v, s, i);
    OneName(v, s, i, w, g, w', NamedDigits(v, s, i).value);
  }

  // ----- loose numbers -----

  lemma LooseReads(s: string, i: nat)
    requires i < |s| && LooseNumberAt(s, i).Some?
    ensures LooseNumberWord(s, i, i + LooseNumberAt(s, i).value.len)
  {
    var q := if s[i] == '-' then i + 1 else i;
    var a := RunEnd(Digit, s, q);
    RunChars(Digit, s, q);
    RunChars(Digit, s, a + 1);
    assert LooseCut(s, i, q, a, RunEnd(Digit, s, a + 1));
  }

  lemma LooseLongest(s: string, i: nat, e: nat)
    requires i < |s| && LooseNumberWord(s, i, e)
    ensures LooseNumberAt(s, i).Some? && e == i + LooseNumberAt(s, i).value.len
  {
    var q: nat, a: nat :| LooseCut(s, i, q, a, e);
    assert IsDigit(s[q]);
    RunEndIs(Digit, s, q, a);
    RunEndIs(Digit, s, a + 1, e);
  }

  // ----- all patterns -----

  lemma EnvelopeReads(s: string, i: nat)
    requires i < |s| && EnvelopeAt(s, i)
    ensures EnvelopeWord(s, i, RunEnd(Url, s, i + 20))
  {
    RunIsAll(Url, s, i + 20);
    RunCovers(Url, s, i + 20, i + 36);
    assert s[i..i + 3] == "v1.";
  }

  lemma EnvelopeLongest(s: string, i: nat, e: nat)
    requires EnvelopeWord(s, i, e)
    ensures EnvelopeAt(s, i) && e <= RunEnd(Url, s, i + 20)
  {
    assert s[i] == s[i..i + 3][0] && s[i + 1] == s[i..i + 3][1] && s[i + 2] == s[i..i + 3][2];
    assert forall y :: i + 3 <= y < i + 19 ==> Is(Url, s[y]);
    RunCovers(Url, s, i + 20, e);
  }

  lemma EscapeReads(s: string, i: nat)
    requires i < |s| && EscapeAt(s, i) > 0
    ensures EscapeWord(s, i, i + EscapeAt(s, i))
  {
    if EscapeAt(s, i) == 1 {
      assert s[i..i + 1] == "%";
    }
    if EscapeAt(s, i) == 2 {
      assert s[i..i + 2] == "\\x";
    }
  }

  lemma RunReads(k: Pattern, s: string, i: nat)
    requires i < |s| && At(k, s, i).Some? && (k.HexRun? || k.Hex64?)
    ensures var m := At(k, s, i).value; Reads(k, s, i, i + m.keep, i + m.len)
  {
    RunIsAll(Hex, s, i);
    if k.Hex64? {
      assert All(Hex, s, i, i + 64);
    }
  }

  lemma StretchReads(k: Pattern, s: string, i: nat)
    requires i < |s| && At(k, s, i).Some? && (k.Escape? || k.NumberRun? || k.Envelope?)
    ensures var m := At(k, s, i).value; Reads(k, s, i, i + m.keep, i + m.len)
  {
    if k.Escape? {
      EscapeReads(s, i);
    } else if k.NumberRun? {
      NumberEndReads(s, i);
    } else {
      EnvelopeReads(s, i);
    }
  }

  /** What a scanner gives is a match of its pattern. */
  lemma ScannerReads(k: Pattern, s: string, i: nat)
    requires i < |s| && At(k, s, i).Some?
    ensures var m := At(k, s, i).value; Reads(k, s, i, i + m.keep, i + m.len)
  {
    if k.LooseNamed? {
      NamedReads(k.names, s, i);
    } else if k.LooseNumber? {
      LooseReads(s, i);
    } else if k.HexRun? || k.Hex64? {
      RunReads(k, s, i);
    } else {
      StretchReads(k, s, i);
    }
  }

  /** Wherever the pattern matches, however it is cut, its scanner gives a match that keeps the same head and
      is at least as long. */
  lemma ScannerLongest(k: Pattern, s: string, i: nat, g: nat, e: nat)
    requires i < |s| && Reads(k, s, i, g, e)
    ensures At(k, s, i).Some?
    ensures var m := At(k, s, i).value; g == i + m.keep && e <= i + m.len
  {
    match k
    case Escape =>
    case NumberRun => NumberEndLongest(s, i, e);
    case HexRun => RunCovers(Hex, s, i, e);
    case Envelope => EnvelopeLongest(s, i, e);
    case LooseNamed(v) => NamedLongest(v, s, i, g, e);
    case Hex64 => RunEndIs(Hex, s, i, e);
    case LooseNumber => LooseLongest(s, i, e);
  }

  /** A number run is masked exactly if it has a point and is no address. */
  lemma NumberMasked(s: string, i: nat)
    requires i < |s| && IsDigit(s[i])
    ensures NumberMatch(s, i).Some?
    ensures var e := NumberEnd(s, i); NumberMatch(s, i).value.hide <==> '.' in s[i..e] && !AddressWord(s, i, e)
  {
    AddressReads(s, i, NumberEnd(s, i));
  }
}
