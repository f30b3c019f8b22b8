/** The last masking stage leaves nothing that the detector can find. */
module Redaction {
  import opened Wrappers
  import opened Chars
  import opened Substitution
  import opened Scanner

  // ----- the pipeline -----

  function Apply(k: Pattern, line: string): string { Sub(Matches(k, line), line, 0) }

  function Count(k: Pattern, line: string): nat { Masks(Matches(k, line), line, 0) }

  function ApplyAll(ks: seq<Pattern>, line: string): string {
    if ks == [] then line else ApplyAll(ks[1..], Apply(ks[0], line))
  }

  function CountAll(ks: seq<Pattern>, line: string): nat {
    if ks == [] then 0 else Count(ks[0], line) + CountAll(ks[1..], Apply(ks[0], line))
  }

  const LAT: Word := "lat"
  const LNG: Word := "lng"
  const LON: Word := "lon"
  const LATITUDE: Word := "latitude"
  const LONGITUDE: Word := "longitude"
  const MAPX: Word := "mapx"
  const MAPY: Word := "mapy"
  const X: Word := "x"
  const Y: Word := "y"
  const SX: Word := "sx"
  const SY: Word := "sy"
  const EX: Word := "ex"
  const EY: Word := "ey"
  const NX: Word := "nx"
  const NY: Word := "ny"

  const NAMES := Vocabulary([LAT, LNG, LON, LATITUDE, LONGITUDE, MAPX, MAPY], [X, Y, SX, SY, EX, EY, NX, NY])

  /** Masks in the order of the looser stage and of the final stage. */
  const LOOSE: seq<Pattern> := [Envelope, Hex64, LooseNumber, LooseNamed(NAMES)]
  const STRIP: seq<Pattern> := [Escape, NumberRun, HexRun, Envelope, LooseNamed(NAMES)]

  function HexDigit(c: char): (v: nat)
    requires IsHex(c)
    ensures v < 16
  {
    if IsDigit(c) then c as int - 48 else if 'a' <= c <= 'f' then c as int - 87 else c as int - 55
  }

  predicate HexPair(s: string, i: nat) {
    i + 1 < |s| && IsHex(s[i]) && IsHex(s[i + 1])
  }

  /** Every \xNN becomes %NN. */
  function Percented(s: string): string {
    if s == "" then ""
    else if |s| >= 4 && s[0] == '\\' && s[1] == 'x' && HexPair(s, 2) then "%" + s[2..4] + Percented(s[4..])
    else [s[0]] + Percented(s[1..])
  }

  /** One level of percent decoding; bytes of 0x80 and above become one opaque character. */
  function Unquoted(s: string): string {
    if s == "" then ""
    else if s[0] == '%' && HexPair(s, 1) then
      var v := 16 * HexDigit(s[1]) + HexDigit(s[2]);
      [if v < 128 then v as char else '\U{FFFD}'] + Unquoted(s[3..])
    else [s[0]] + Unquoted(s[1..])
  }

  function Decoded(line: string): string { Unquoted(Percented(line)) }

  predicate Detects(k: Pattern, text: string) { Finds(Matches(k, text), text, 0) }

  /** Names of the checks that still find a coordinate-like value in the decoded line. */
  function Residue(line: string): seq<string> {
    var text := Decoded(line);
    (if Detects(Envelope, text) then ["envelope"] else []) +
    (if Detects(Hex64, text) then ["hash"] else []) +
    (if Detects(LooseNamed(NAMES), text) then ["named"] else []) +
    (if Detects(LooseNumber, text) then ["number"] else [])
  }

  const WITHHELD := "[withheld: coordinate-like content]"

  /** The stages after a first pass that returned `line` with `count` masked values. */
  method Scrub(line: string, count: nat) returns (text: string, masked: nat, withheld: bool)
    ensures Residue(text) == [] && !withheld
    ensures Residue(line) == [] ==> text == line && masked == count
    ensures Residue(line) != [] && Residue(ApplyAll(LOOSE, line)) == [] ==>
              text == ApplyAll(LOOSE, line) && masked == count + CountAll(LOOSE, line)
    ensures Residue(line) != [] && Residue(ApplyAll(LOOSE, line)) != [] ==>
              text == ApplyAll(STRIP, ApplyAll(LOOSE, line)) &&
              masked == count + CountAll(LOOSE, line) + CountAll(STRIP, ApplyAll(LOOSE, line))
  {
    text, masked, withheld := line, count, false;
    var steps := [LOOSE, STRIP];
    for i := 0 to 2
      invariant !withheld
      invariant i == 0 ==> text == line && masked == count
      invariant i == 1 ==> Residue(line) != [] && text == ApplyAll(LOOSE, line) && masked == count + CountAll(LOOSE, line)
      invariant i == 2 ==> Residue(line) != [] && Residue(ApplyAll(LOOSE, line)) != [] &&
                           text == ApplyAll(STRIP, ApplyAll(LOOSE, line)) &&
                           masked == count + CountAll(LOOSE, line) + CountAll(STRIP, ApplyAll(LOOSE, line))
    {
      if Residue(text) == [] {
        return;
      }
      masked := masked + CountAll(steps[i], text);
      text := ApplyAll(steps[i], text);
    }
    StripLeavesNoResidue(ApplyAll(LOOSE, line));
    if Residue(text) != [] {
      text, withheld := WITHHELD, true;
    }
  }

  // ----- what a line without residue looks like -----

  predicate NoEscape(s: string) { forall i :: 0 <= i < |s| ==> EscapeAt(s, i) == 0 }

  predicate HexAt(s: string, i: nat) {
    i + 64 <= |s| && forall y :: i <= y < i + 64 ==> IsHex(s[y])
  }

  ghost predicate NoHexRun(s: string) { forall i: nat :: !HexAt(s, i) }

  ghost predicate NoEnvelope(s: string) { forall i: nat :: !EnvelopeAt(s, i) }

  predicate NoMatch(k: Pattern, s: string) { forall i :: 0 <= i < |s| ==> At(k, s, i).None? }

  /** Digits that follow neither a digit nor a point, and are followed by a point and a digit. */
  predicate DottedStart(s: string, q: nat) {
    q < |s| && IsDigit(s[q]) && !IsDigit(Before(s, q)) && Before(s, q) != '.' &&
    var r := RunEnd(Digit, s, q);
    r + 1 < |s| && s[r] == '.' && IsDigit(s[r + 1])
  }

  /** Every such number is the head of an address: two more groups and points follow. */
  ghost predicate NumbersSafe(s: string) {
    forall q: nat :: DottedStart(s, q) ==> Octets(s, q, 3)
  }

  // ----- tracing a stretch of masked text back -----

  lemma Traced(k: Pattern, s: string, x: nat, n: nat) returns (p: nat, f: nat)
    requires n > 0 && Plain(Apply(k, s), x, n)
    ensures Origin(Matches(k, s), s, 0, x, n, p, f)
    ensures p + n <= |s| && Agree(Apply(k, s), s, p - x, x, x + n) && Agree(s, Apply(k, s), x - p, p, p + n)
  {
    p, f := Trace(Matches(k, s), s, 0, x, n);
    AgreeBack(Apply(k, s), s, p - x, x, x + n, x - p, p, p + n);
  }

  lemma EscapeTraced(k: Pattern, s: string, x: nat) returns (p: nat, f: nat)
    requires x < |Apply(k, s)| && EscapeAt(Apply(k, s), x) > 0
    ensures Origin(Matches(k, s), s, 0, x, if Apply(k, s)[x] == '%' then 1 else 2, p, f)
    ensures p < |s| && EscapeAt(s, p) > 0
  {
    var out := Apply(k, s);
    var n := if out[x] == '%' then 1 else 2;
    p, f := Traced(k, s, x, n);
    assert out[x] == s[x + (p - x)];
    assert n == 2 ==> out[x + 1] == s[x + 1 + (p - x)];
  }

  lemma HexTraced(k: Pattern, s: string, x: nat) returns (p: nat, f: nat)
    requires HexAt(Apply(k, s), x)
    ensures Origin(Matches(k, s), s, 0, x, 64, p, f) && HexAt(s, p)
  {
    p, f := Traced(k, s, x, 64);
  }

  lemma EnvelopeTraced(k: Pattern, s: string, x: nat) returns (p: nat, f: nat)
    requires EnvelopeAt(Apply(k, s), x)
    ensures Origin(Matches(k, s), s, 0, x, 36, p, f) && EnvelopeAt(s, p)
  {
    var out := Apply(k, s);
    p, f := Traced(k, s, x, 36);
    assert out[x] == s[x + (p - x)] && out[x + 1] == s[x + 1 + (p - x)] && out[x + 2] == s[x + 2 + (p - x)]
        && out[x + 19] == s[x + 19 + (p - x)];
  }

  // ----- masks only cut: what one step removed never comes back -----

  lemma KeepsNoEscape(k: Pattern, s: string)
    requires NoEscape(s)
    ensures NoEscape(Apply(k, s))
  {
    forall x | 0 <= x < |Apply(k, s)|
      ensures EscapeAt(Apply(k, s), x) == 0
    {
      if EscapeAt(Apply(k, s), x) > 0 {
        var p, f := EscapeTraced(k, s, x);
      }
    }
  }

  lemma KeepsNoHexRun(k: Pattern, s: string)
    requires NoHexRun(s)
    ensures NoHexRun(Apply(k, s))
  {
    forall x: nat
      ensures !HexAt(Apply(k, s), x)
    {
      if HexAt(Apply(k, s), x) {
        var p, f := HexTraced(k, s, x);
      }
    }
  }

  lemma KeepsNoEnvelope(k: Pattern, s: string)
    requires NoEnvelope(s)
    ensures NoEnvelope(Apply(k, s))
  {
    forall x: nat
      ensures !EnvelopeAt(Apply(k, s), x)
    {
      if EnvelopeAt(Apply(k, s), x) {
        var p, f := EnvelopeTraced(k, s, x);
      }
    }
  }

  // ----- what each step removes -----

  lemma EscapesGone(s: string)
    ensures NoEscape(Apply(Escape, s))
  {
    forall x | 0 <= x < |Apply(Escape, s)|
      ensures EscapeAt(Apply(Escape, s), x) == 0
    {
      if EscapeAt(Apply(Escape, s), x) > 0 {
        var p, f := EscapeTraced(Escape, s, x);
      }
    }
  }

  lemma HexRunsGone(s: string)
    ensures NoHexRun(Apply(HexRun, s))
  {
    forall x: nat
      ensures !HexAt(Apply(HexRun, s), x)
    {
      if HexAt(Apply(HexRun, s), x) {
        var p, f := HexTraced(HexRun, s, x);
        RunCovers(Hex, s, p, p + 64);
      }
    }
  }

  lemma EnvelopesGone(s: string)
    ensures NoEnvelope(Apply(Envelope, s))
  {
    forall x: nat
      ensures !EnvelopeAt(Apply(Envelope, s), x)
    {
      if EnvelopeAt(Apply(Envelope, s), x) {
        var p, f := EnvelopeTraced(Envelope, s, x);
      }
    }
  }

  // ----- names -----

  lemma SpaceMoved(s: string, t: string, k: int, lo: nat, g: nat)
    requires lo <= g && Agree(s, t, k, lo, g + 1) && !IsSpace(s[g])
    ensures RunEnd(Space, s, lo) <= g
    ensures RunEnd(Space, t, lo + k) == RunEnd(Space, s, lo) + k
  {
    RunChars(Space, s, lo);
    RunEndMoved(Space, s, t, k, lo, g + 1);
  }

  lemma MarkMoved(s: string, t: string, k: int, lo: nat, g: nat)
    requires lo < g && Agree(s, t, k, lo, g + 1) && !IsSpace(s[g])
    ensures MarkAt(s, lo) <= g && MarkAt(t, lo + k) == MarkAt(s, lo) + k
  {
    assert s[lo] == t[lo + k];
    SpaceMoved(s, t, k, if IsQuote(s[lo]) then lo + 1 else lo, g);
  }

  lemma ValueMoved(s: string, t: string, k: int, lo: nat, g: nat)
    requires lo <= g && Agree(s, t, k, lo, g + 1) && IsDigit(s[g]) && ValueAt(s, lo) == g
    ensures ValueAt(t, lo + k) == g + k
  {
    SpaceMoved(s, t, k, lo, g);
    var c := RunEnd(Space, s, lo);
    assert s[c] == t[c + k];
    var d := QuoteEnd(s, c);
    assert s[d] == t[d + k];
  }

  lemma SeparatorMoved(s: string, t: string, k: int, lo: nat, g: nat)
    requires lo <= g && Agree(s, t, k, lo, g + 1) && Separator(s, lo) == Some(g)
    ensures Separator(t, lo + k) == Some(g + k)
  {
    MarkMoved(s, t, k, lo, g);
    var b := MarkAt(s, lo);
    assert s[b] == t[b + k];
    ValueMoved(s, t, k, b + 1, g);
    assert s[g] == t[g + k];
  }

  lemma WordMoved(s: string, t: string, k: int, i: nat, w: Word)
    requires WordAt(s, i, w) && Agree(s, t, k, i, i + |w|)
    ensures i + k >= 0 && WordAt(t, i + k, w)
  {
    forall y | 0 <= y < |w|
      ensures Lower(t[i + k + y]) == w[y]
    {
      assert s[i + y] == t[i + y + k];
    }
  }

  /** A table of named values: it lists every one, masks each to its last digit and keeps no digit. */
  ghost predicate NamedTable(v: Vocabulary, ms: Table, s: string)
    requires Fits(ms, s)
  {
    forall i :: 0 <= i < |s| ==> (ms[i].Some? <==> NamedDigits(v, s, i).Some?) && (ms[i].Some? ==> NamedAsOne(s, i, ms[i].value))
  }

  predicate NamedAsOne(s: string, i: nat, m: Match)
    requires 0 < m.len && i + m.len <= |s| && m.keep < m.len
  {
    m.hide && IsDigit(s[i + m.len - 1]) && forall z :: i <= z < i + m.keep ==> !IsDigit(s[z])
  }

  lemma NamedMatchesListed(v: Vocabulary, s: string)
    ensures NamedTable(v, Matches(LooseNamed(v), s), s)
  {
    var ms := Matches(LooseNamed(v), s);
    forall i | 0 <= i < |s|
      ensures ms[i].Some? <==> NamedDigits(v, s, i).Some?
      ensures ms[i].Some? ==> NamedAsOne(s, i, ms[i].value)
    {
      assert ms[i] == NamedMatch(v, s, i);
    }
  }

  lemma NameMoved(v: Vocabulary, s: string, t: string, x: nat, p: nat, w: Word, g: nat)
    requires x <= |s| && p <= |t| && NamedAt(v, s, x, w, g) && Agree(s, t, p - x, x, g + 1)
    requires !IsLetter(Before(s, x)) && Before(s, x) != '_' ==> !IsLetter(Before(t, p)) && Before(t, p) != '_'
    ensures NamedAt(v, t, p, w, g + (p - x))
  {
    WordMoved(s, t, p - x, x, w);
    SeparatorMoved(s, t, p - x, x + |w|, g);
  }

  /** What stands before a copy is what stood before the original, or a mask in place of a digit. */
  lemma LeftIsDigit(v: Vocabulary, ms: Table, s: string, p: nat, c: char)
    requires Fits(ms, s) && NamedTable(v, ms, s) && 0 < p <= |s| && LeftOf(ms, s, p, c)
    ensures c == s[p - 1] || IsDigit(s[p - 1])
  {
    if c != s[p - 1] {
      var h: nat :| MaskedUpTo(ms, s, h, p);
      assert h + ms[h].value.len - 1 == p - 1;
    }
  }

  lemma NamedTraced(v: Vocabulary, ms: Table, s: string, out: string, x: nat, w: Word, g: nat) returns (p: nat, f: nat)
    requires Fits(ms, s) && out == Sub(ms, s, 0) && x <= |out| && NamedAt(v, out, x, w, g)
    ensures x < g && OriginIn(ms, s, 0, out, x, g + 1 - x, p, f)
    ensures p + (g - x) < |s| && Agree(out, s, p - x, x, g + 1)
    ensures if x == 0 then p == 0 else p > 0 && LeftOf(ms, s, p, out[x - 1])
  {
    NamedHead(v, out, x, w, g);
    p, f := Trace(ms, s, 0, x, g + 1 - x);
  }

  lemma NamedShift(v: Vocabulary, ms: Table, s: string, out: string, x: nat, w: Word, g: nat, p: nat)
    requires Fits(ms, s) && NamedTable(v, ms, s) && x <= |out| && NamedAt(v, out, x, w, g) && x <= g
    requires p + (g - x) < |s| && Agree(out, s, p - x, x, g + 1)
    requires if x == 0 then p == 0 else p > 0 && LeftOf(ms, s, p, out[x - 1])
    ensures NamedAt(v, s, p, w, g + (p - x)) && IsDigit(s[p + (g - x)])
  {
    if x > 0 {
      LeftIsDigit(v, ms, s, p, out[x - 1]);
    }
    NameMoved(v, out, s, x, p, w, g);
  }

  /** A stretch that ends in a digit fits in no kept head of a named value. */
  lemma NamedOrigin(v: Vocabulary, ms: Table, s: string, out: string, x: nat, g: nat, p: nat, f: nat)
    requires Fits(ms, s) && NamedTable(v, ms, s) && x <= g && OriginIn(ms, s, 0, out, x, g + 1 - x, p, f)
    requires p + (g - x) < |s| && IsDigit(s[p + (g - x)])
    ensures p < |s| && ms[p].None?
  {
  }

  /** A named value in the output was one in the input, and no match begins there; a short name that is
      free behind a mask was free before, because the mask hid a digit. */
  lemma NamedSource(v: Vocabulary, ms: Table, s: string, out: string, x: nat, w: Word, g: nat) returns (p: nat)
    requires Fits(ms, s) && NamedTable(v, ms, s) && out == Sub(ms, s, 0) && x <= |out| && NamedAt(v, out, x, w, g)
    ensures x <= g && p < |s| && ms[p].None? && NamedAt(v, s, p, w, g + (p - x))
  {
    var f;
    p, f := NamedTraced(v, ms, s, out, x, w, g);
    NamedMoved(v, ms, s, out, x, w, g, p, f);
  }

  lemma NamedMoved(v: Vocabulary, ms: Table, s: string, out: string, x: nat, w: Word, g: nat, p: nat, f: nat)
    requires Fits(ms, s) && NamedTable(v, ms, s) && x <= |out| && NamedAt(v, out, x, w, g)
    requires x < g && p + (g - x) < |s| && Agree(out, s, p - x, x, g + 1)
    requires if x == 0 then p == 0 else p > 0 && LeftOf(ms, s, p, out[x - 1])
    requires OriginIn(ms, s, 0, out, x, g + 1 - x, p, f)
    ensures ms[p].None? && NamedAt(v, s, p, w, g + (p - x))
  {
    NamedShift(v, ms, s, out, x, w, g, p);
    NamedOrigin(v, ms, s, out, x, g, p, f);
  }

  lemma NoSource(v: Vocabulary, ms: Table, s: string, p: nat, w: Word, g: nat)
    requires Fits(ms, s) && NamedTable(v, ms, s) && p < |s| && ms[p].None?
    ensures !NamedAt(v, s, p, w, g)
  {
    if NamedAt(v, s, p, w, g) {
      NameFound(v, s, p, w, g);
    }
  }

  lemma NamedNotKept(v: Vocabulary, ms: Table, s: string, out: string, x: nat, w: Word, g: nat)
    requires Fits(ms, s) && NamedTable(v, ms, s) && out == Sub(ms, s, 0) && x <= |out|
    ensures !NamedAt(v, out, x, w, g)
  {
    if NamedAt(v, out, x, w, g) {
      var p := NamedSource(v, ms, s, out, x, w, g);
      NoSource(v, ms, s, p, w, g + (p - x));
    }
  }

  lemma NamedValuesGone(v: Vocabulary, s: string)
    ensures NoMatch(LooseNamed(v), Apply(LooseNamed(v), s))
  {
    var ms, out := Matches(LooseNamed(v), s), Apply(LooseNamed(v), s);
    NamedMatchesListed(v, s);
    forall x | 0 <= x < |out|
      ensures At(LooseNamed(v), out, x).None?
    {
      if NamedDigits(v, out, x).Some? {
        var w := NameOf(v, out, x);
        NamedNotKept(v, ms, s, out, x, w, NamedDigits(v, out, x).value);
      }
    }
  }

  // ----- numbers -----

  /** No digit stands behind a masked match. */
  ghost predicate StopsAtNonDigit(ms: Table, s: string)
    requires Fits(ms, s)
  {
    forall i :: 0 <= i < |s| && ms[i].Some? ==>
      var e := i + ms[i].value.len; e < |s| ==> !IsDigit(s[e])
  }

  /** Masks that spare address heads: each begins at a letter or at a run of 64 hex digits, keeps
      no dotted number, and leaves no digit behind it. */
  ghost predicate SparesAddresses(ms: Table, s: string)
    requires Fits(ms, s)
  {
    StopsAtNonDigit(ms, s) && forall i :: 0 <= i < |s| && ms[i].Some? ==> Spares(s, i, ms[i].value)
  }

  predicate Spares(s: string, i: nat, m: Match)
    requires i < |s| && i + m.keep <= |s|
  {
    && m.hide
    && (IsLetter(s[i]) || RunEnd(Hex, s, i) - i >= 64)
    && forall y :: i <= y < i + m.keep && IsDigit(s[y]) ==> y + 3 > i + m.keep
  }

  lemma HexRunsSpare(s: string)
    ensures SparesAddresses(Matches(HexRun, s), s)
  {
    var ms := Matches(HexRun, s);
    forall i | 0 <= i < |s|
      ensures ms[i] == HexRunMatch(s, i)
    {
    }
  }

  lemma EnvelopeSpares(s: string, i: nat)
    requires i < |s| && EnvelopeMatch(s, i).Some?
    ensures var m := EnvelopeMatch(s, i).value;
            i + m.len <= |s| && m.keep < m.len && Spares(s, i, m) && (i + m.len < |s| ==> !IsDigit(s[i + m.len]))
  {
    assert At(Envelope, s, i) == EnvelopeMatch(s, i);
  }

  lemma EnvelopesSpare(s: string)
    ensures SparesAddresses(Matches(Envelope, s), s)
  {
    var ms := Matches(Envelope, s);
    forall i | 0 <= i < |s| && ms[i].Some?
      ensures Spares(s, i, ms[i].value)
      ensures var e := i + ms[i].value.len; e < |s| ==> !IsDigit(s[e])
    {
      assert ms[i] == EnvelopeMatch(s, i);
      EnvelopeSpares(s, i);
    }
  }

  lemma NamedValuesSpare(v: Vocabulary, s: string)
    ensures SparesAddresses(Matches(LooseNamed(v), s), s)
  {
    var ms := Matches(LooseNamed(v), s);
    forall i | 0 <= i < |s| && ms[i].Some?
      ensures Spares(s, i, ms[i].value)
      ensures var e := i + ms[i].value.len; e < |s| ==> !IsDigit(s[e])
    {
      assert ms[i] == NamedMatch(v, s, i);
    }
  }

  /** A digit or point with a point at most three characters on. */
  ghost predicate InOctet(s: string, y: nat) {
    y < |s| && (IsDigit(s[y]) || s[y] == '.') && exists d :: y <= d <= y + 3 && d < |s| && s[d] == '.'
  }

  lemma {:induction false} OctetChars(s: string, i: nat, n: nat)
    requires i <= |s| && Octets(s, i, n)
    ensures forall y :: i <= y < OctetsEnd(s, i, n) ==> InOctet(s, y)
    ensures forall y :: i <= y < OctetsEnd(s, i, n) ==> s[y] != ':'
    decreases n
  {
    if n > 0 {
      var r := RunEnd(Digit, s, i);
      RunChars(Digit, s, i);
      OctetChars(s, r + 1, n - 1);
      forall y | i <= y < OctetsEnd(s, i, n)
        ensures InOctet(s, y)
      {
        if y <= r {
          assert s[r] == '.';
        }
      }
    }
  }

  /** Octets inside a stretch that the output repeats are octets of the output. */
  lemma {:induction false} OctetsKept(s: string, out: string, p: nat, q: nat, e: nat, n: nat)
    requires p <= e <= |s| && q <= |out| && Octets(s, p, n) && OctetsEnd(s, p, n) <= e
    requires Agree(out, s, p - q, q, q + (e - p))
    ensures Octets(out, q, n) && OctetsEnd(out, q, n) - q == OctetsEnd(s, p, n) - p
    decreases n
  {
    if n > 0 {
      var r := RunEnd(Digit, s, p);
      FirstOctet(s, out, p, q, e);
      assert Agree(out, s, r + 1 - (q + (r + 1 - p)), q + (r + 1 - p), q + (r + 1 - p) + (e - (r + 1)));
      OctetsKept(s, out, r + 1, q + (r + 1 - p), e, n - 1);
    }
  }

  lemma FirstOctet(s: string, out: string, p: nat, q: nat, e: nat)
    requires p < e <= |s| && q <= |out| && RunEnd(Digit, s, p) < e && Agree(out, s, p - q, q, q + (e - p))
    ensures q + (e - p) <= |out|
    ensures var r := RunEnd(Digit, s, p); RunEnd(Digit, out, q) == q + (r - p) && out[q + (r - p)] == s[r]
  {
    var r := RunEnd(Digit, s, p);
    RunEndCopied(Digit, s, out, p - q, q, q + (e - p));
    assert out[q + (r - p)] == s[q + (r - p) + (p - q)];
  }

  lemma NoMaskInOctets(ms: Table, s: string, i: nat, y: nat)
    requires Fits(ms, s) && SparesAddresses(ms, s)
    requires i <= |s| && Octets(s, i, 3) && i <= y < OctetsEnd(s, i, 3)
    ensures ms[y].None?
  {
    OctetChars(s, i, 3);
    assert InOctet(s, y);
    var d :| y <= d <= y + 3 && d < |s| && s[d] == '.';
    RunChars(Hex, s, y);
  }

  lemma LeftSame(ms: Table, s: string, p: nat, c: char)
    requires Fits(ms, s) && StopsAtNonDigit(ms, s) && 0 < p < |s| && IsDigit(s[p]) && LeftOf(ms, s, p, c)
    ensures c == s[p - 1]
  {
  }

  lemma DottedText(out: string, s: string, q: nat, p: nat)
    requires DottedStart(out, q) && p < |s| && Before(out, q) == Before(s, p)
    requires Agree(out, s, p - q, q, RunEnd(Digit, out, q) + 2)
    ensures DottedStart(s, p) && RunEnd(Digit, s, p) - p == RunEnd(Digit, out, q) - q
  {
    var r := RunEnd(Digit, out, q);
    RunEndMoved(Digit, out, s, p - q, q, r + 2);
    assert out[q] == s[q + (p - q)] && out[r] == s[r + (p - q)] && out[r + 1] == s[r + 1 + (p - q)];
  }

  /** The start of a dotted number in the output was one in the input. */
  lemma DottedMoved(ms: Table, s: string, q: nat) returns (p: nat, f: nat)
    requires Fits(ms, s) && StopsAtNonDigit(ms, s) && DottedStart(Sub(ms, s, 0), q)
    ensures p < |s| && DottedStart(s, p)
    ensures var n := RunEnd(Digit, s, p) + 2 - p; n >= 3 && Origin(ms, s, 0, q, n, p, f)
  {
    var out := Sub(ms, s, 0);
    RunChars(Digit, out, q);
    p, f := Trace(ms, s, 0, q, RunEnd(Digit, out, q) + 2 - q);
    assert out[q] == s[q + (p - q)];
    if q > 0 {
      LeftSame(ms, s, p, out[q - 1]);
    }
    DottedText(out, s, q, p);
  }

  lemma OctetsCopied(ms: Table, s: string, out: string, q: nat, p: nat, z: nat)
    requires Fits(ms, s) && SparesAddresses(ms, s) && p <= |s| && Octets(s, p, 3) && z == OctetsEnd(s, p, 3)
    requires q <= |out| && out[q..] == Sub(ms, s, p)
    ensures Agree(out, s, p - q, q, q + (z - p)) && p < z
  {
    forall y | p <= y < z
      ensures ms[y].None?
    {
      NoMaskInOctets(ms, s, p, y);
    }
    Copied(ms, s, p, z);
    AgreeShift(out, q, out[q..], s, p, 0, z - p);
  }

  lemma KeepsNumbersSafe(ms: Table, s: string)
    requires Fits(ms, s) && SparesAddresses(ms, s) && NumbersSafe(s)
    ensures NumbersSafe(Sub(ms, s, 0))
  {
    var out := Sub(ms, s, 0);
    forall q: nat | DottedStart(out, q)
      ensures Octets(out, q, 3)
    {
      var p, f := DottedMoved(ms, s, q);
      assert ms[f].None?;
      var z := OctetsEnd(s, p, 3);
      OctetsCopied(ms, s, out, q, p, z);
      OctetsKept(s, out, p, q, z, 3);
    }
  }

  lemma {:induction false} NumberChars(s: string, i: nat)
    requires i < |s| && IsDigit(s[i])
    ensures forall y :: i <= y < NumberEnd(s, i) ==> IsDigit(s[y]) || s[y] == '.' || s[y] == ':'
    decreases |s| - i
  {
    var r := RunEnd(Digit, s, i);
    RunChars(Digit, s, i);
    if r + 1 < |s| && (s[r] == '.' || s[r] == ':') && IsDigit(s[r + 1]) {
      NumberChars(s, r + 1);
    }
  }

  /** From any digit of a number run the run ends at the same place. */
  lemma {:induction false} NumberEndSame(s: string, i: nat, p: nat)
    requires i < |s| && IsDigit(s[i]) && i <= p < NumberEnd(s, i) && IsDigit(s[p])
    ensures NumberEnd(s, p) == NumberEnd(s, i)
    decreases |s| - i
  {
    var r := RunEnd(Digit, s, i);
    RunChars(Digit, s, i);
    if p < r {
      RunEndIs(Digit, s, p, r);
    } else if r + 1 < |s| && (s[r] == '.' || s[r] == ':') && IsDigit(s[r + 1]) {
      NumberEndSame(s, r + 1, p);
    }
  }

  /** Behind the colon of an address there are only digits. */
  lemma AddressColon(s: string, i: nat, e: nat, p: nat)
    requires i < p < e <= |s| && IsAddress(s, i, e) && s[p - 1] == ':'
    ensures forall y :: p <= y < e ==> IsDigit(s[y])
  {
    OctetChars(s, i, 3);
    var l := OctetsEnd(s, i, 3);
    var r := RunEnd(Digit, s, l);
    RunChars(Digit, s, l);
    if r + 1 <= |s| {
      RunChars(Digit, s, r + 1);
    }
  }

  ghost predicate NumberTable(ms: Table, s: string)
    requires Fits(ms, s)
  {
    forall i :: 0 <= i < |s| ==> ms[i] == NumberMatch(s, i)
  }

  /** A digit in the output comes from a number run that was kept whole. */
  lemma NumberOrigin(ms: Table, s: string, q: nat, n: nat, p: nat, f: nat)
    requires Fits(ms, s) && NumberTable(ms, s) && n > 0 && Origin(ms, s, 0, q, n, p, f) && IsDigit(s[p])
    ensures IsDigit(s[f]) && p < NumberEnd(s, f)
    ensures !('.' in s[f..NumberEnd(s, f)] && !IsAddress(s, f, NumberEnd(s, f)))
    ensures Agree(Sub(ms, s, 0), s, p - q, q, q + (NumberEnd(s, f) - p))
  {
    assert ms[f] == NumberMatch(s, f) && ms[p] == NumberMatch(s, p);
  }

  lemma NumbersStop(ms: Table, s: string)
    requires Fits(ms, s) && NumberTable(ms, s)
    ensures StopsAtNonDigit(ms, s)
  {
  }

  lemma NumbersMadeSafe(ms: Table, s: string)
    requires Fits(ms, s) && NumberTable(ms, s)
    ensures NumbersSafe(Sub(ms, s, 0))
  {
    var out := Sub(ms, s, 0);
    NumbersStop(ms, s);
    forall q: nat | DottedStart(out, q)
      ensures Octets(out, q, 3)
    {
      var p, f := DottedMoved(ms, s, q);
      NumberOrigin(ms, s, q, RunEnd(Digit, s, p) + 2 - p, p, f);
      KeptIsAddress(s, f, p);
      OctetsKept(s, out, p, q, NumberEnd(s, f), 3);
    }
  }

  /** A dotted number start inside a number run that was kept is the start of an address. */
  lemma KeptIsAddress(s: string, f: nat, p: nat)
    requires f <= p < |s| && DottedStart(s, p) && IsDigit(s[f]) && p < NumberEnd(s, f)
    requires !('.' in s[f..NumberEnd(s, f)] && !IsAddress(s, f, NumberEnd(s, f)))
    ensures p == f && IsAddress(s, f, NumberEnd(s, f)) && OctetsEnd(s, f, 3) <= NumberEnd(s, f)
  {
    var e := NumberEnd(s, f);
    var r := RunEnd(Digit, s, p);
    NumberEndSame(s, f, p);
    assert p < r < e;
    RunChars(Digit, s, p);
    assert s[f..e][r - f] == '.';
    NumberChars(s, f);
    if p > f {
      AddressColon(s, f, e, p);
    }
  }

  // ----- nothing is left -----

  lemma {:induction false} NothingFound(ms: Table, s: string, i: nat)
    requires Fits(ms, s) && i <= |s| && forall y :: 0 <= y < |s| ==> ms[y].None?
    ensures !Finds(ms, s, i)
    decreases |s| - i
  {
    if i < |s| {
      NothingFound(ms, s, i + 1);
    }
  }

  lemma NotDetected(k: Pattern, s: string)
    requires NoMatch(k, s)
    ensures !Detects(k, s)
  {
    NothingFound(Matches(k, s), s, 0);
  }

  lemma {:induction false} NothingToDecode(s: string)
    requires NoEscape(s)
    ensures Decoded(s) == s
  {
    PercentedSame(s);
    UnquotedSame(s);
  }

  lemma TailNoEscape(s: string)
    requires NoEscape(s) && s != ""
    ensures s[0] != '%' && !(s[0] == '\\' && |s| > 1 && s[1] == 'x') && NoEscape(s[1..])
  {
    assert EscapeAt(s, 0) == 0;
    forall i | 0 <= i < |s[1..]|
      ensures EscapeAt(s[1..], i) == 0
    {
      assert EscapeAt(s, i + 1) == 0;
    }
  }

  lemma {:induction false} PercentedSame(s: string)
    requires NoEscape(s)
    ensures Percented(s) == s
  {
    if s != "" {
      TailNoEscape(s);
      PercentedSame(s[1..]);
    }
  }

  lemma {:induction false} UnquotedSame(s: string)
    requires NoEscape(s)
    ensures Unquoted(s) == s
  {
    if s != "" {
      TailNoEscape(s);
      UnquotedSame(s[1..]);
    }
  }

  lemma TwoOctets(s: string, q: nat)
    requires q <= |s|
    ensures Octets(s, q, 3) ==>
              var e := RunEnd(Digit, s, q);
              e + 1 <= |s| &&
              var f := RunEnd(Digit, s, e + 1);
              f + 1 < |s| && s[f] == '.' && IsDigit(s[f + 1])
  {
    if Octets(s, q, 3) {
      var e := RunEnd(Digit, s, q);
      var f := RunEnd(Digit, s, e + 1);
      assert Octets(s, f + 1, 1);
      assert Is(Digit, s[f + 1]);
    }
  }

  /** What the detector calls a number is a dotted number start that is no head of an address. */
  lemma LooseNumberStart(s: string, i: nat)
    requires i < |s| && LooseNumberAt(s, i).Some?
    ensures exists q :: DottedStart(s, q) && !Octets(s, q, 3)
  {
    var q := if s[i] == '-' then i + 1 else i;
    var e := RunEnd(Digit, s, q);
    assert Is(Digit, s[q]);
    RunCovers(Digit, s, e + 1, e + 2);
    assert DottedStart(s, q);
    TwoOctets(s, q);
  }

  lemma NoLooseNumber(s: string)
    requires NumbersSafe(s)
    ensures NoMatch(LooseNumber, s)
  {
    forall i | 0 <= i < |s|
      ensures At(LooseNumber, s, i).None?
    {
      if LooseNumberAt(s, i).Some? {
        LooseNumberStart(s, i);
      }
    }
  }

  lemma Hex64IsRun(s: string, i: nat)
    requires i < |s| && Hex64Match(s, i).Some?
    ensures HexAt(s, i)
  {
    RunChars(Hex, s, i);
  }

  lemma NoHex64(s: string)
    requires NoHexRun(s)
    ensures NoMatch(Hex64, s)
  {
    forall i | 0 <= i < |s|
      ensures At(Hex64, s, i).None?
    {
      if Hex64Match(s, i).Some? {
        Hex64IsRun(s, i);
      }
    }
  }

  /** For every line, the final stage leaves nothing for the detector. */
  lemma StripLeavesNoResidue(line: string)
    ensures Residue(ApplyAll(STRIP, line)) == []
  {
    var named := LooseNamed(NAMES);
    var a := Apply(Escape, line);
    var b := Apply(NumberRun, a);
    var c := Apply(HexRun, b);
    var d := Apply(Envelope, c);
    var e := Apply(named, d);
    StripUnfolds(line);
    EscapesGone(line); KeepsNoEscape(NumberRun, a); KeepsNoEscape(HexRun, b); KeepsNoEscape(Envelope, c); KeepsNoEscape(named, d);
    NumbersMadeSafe(Matches(NumberRun, a), a);
    HexRunsSpare(b); KeepsNumbersSafe(Matches(HexRun, b), b);
    EnvelopesSpare(c); KeepsNumbersSafe(Matches(Envelope, c), c);
    NamedValuesSpare(NAMES, d); KeepsNumbersSafe(Matches(named, d), d);
    HexRunsGone(b); KeepsNoHexRun(Envelope, c); KeepsNoHexRun(named, d);
    EnvelopesGone(c); KeepsNoEnvelope(named, d);
    NamedValuesGone(NAMES, d);
    NothingToDecode(e);
    NotDetected(Envelope, e);
    NoHex64(e); NotDetected(Hex64, e);
    NotDetected(named, e);
    NoLooseNumber(e); NotDetected(LooseNumber, e);
  }

  lemma StripUnfolds(line: string)
    ensures ApplyAll(STRIP, line) ==
            Apply(LooseNamed(NAMES), Apply(Envelope, Apply(HexRun, Apply(NumberRun, Apply(Escape, line)))))
  {
    assert STRIP[1..] == [NumberRun, HexRun, Envelope, LooseNamed(NAMES)];
    assert STRIP[1..][1..] == [HexRun, Envelope, LooseNamed(NAMES)];
    assert STRIP[1..][1..][1..] == [Envelope, LooseNamed(NAMES)];
    assert STRIP[1..][1..][1..][1..] == [LooseNamed(NAMES)];
    assert STRIP[1..][1..][1..][1..][1..] == [];
    var a := Apply(Escape, line);
    var b := Apply(NumberRun, a);
    var c := Apply(HexRun, b);
    var d := Apply(Envelope, c);
    assert ApplyAll([LooseNamed(NAMES)], d) == Apply(LooseNamed(NAMES), d);
    assert ApplyAll([Envelope, LooseNamed(NAMES)], c) == ApplyAll([LooseNamed(NAMES)], d);
    assert ApplyAll([HexRun, Envelope, LooseNamed(NAMES)], b) == ApplyAll([Envelope, LooseNamed(NAMES)], c);
    assert ApplyAll([NumberRun, HexRun, Envelope, LooseNamed(NAMES)], a) == ApplyAll([HexRun, Envelope, LooseNamed(NAMES)], b);
  }
}
