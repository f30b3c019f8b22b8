/** The client address that the masking steps keep, wherever it stands in a line. */
module Addresses {
  import opened Wrappers
  import opened Chars
  import opened Substitution
  import opened Scanner
  import opened Patterns
  import opened Redaction

  // ----- what a substitution leaves around a stretch it does not mask -----

  /** Scanning on from j meets nothing to mask before e. */
  predicate NothingMasked(ms: Table, s: string, j: nat, e: nat)
    requires Fits(ms, s) && j <= |s| && e <= |s|
    decreases |s| - j
  {
    j >= e ||
    match ms[j]
    case None => NothingMasked(ms, s, j + 1, e)
    case Some(m) => !m.hide && NothingMasked(ms, s, j + m.len, e)
  }

  /** The first k characters are those of s from j on, at least up to e, and then a mask follows or both end. */
  predicate CopyTo(out: string, s: string, j: nat, k: nat, e: nat) {
    && k <= |out| && j + k <= |s| && e <= j + k && Agree(out, s, j, 0, k)
    && (if k == |out| then j + k == |s| else out[k] == '*')
  }

  lemma CopyOn(out: string, rest: string, s: string, j: nat, h: nat, k: nat, e: nat)
    requires h <= |out| && out[h..] == rest && Agree(out, s, j, 0, h) && CopyTo(rest, s, j + h, k, e)
    ensures CopyTo(out, s, j, h + k, e)
  {
    forall z | 0 <= z < h + k
      ensures out[z] == s[z + j]
    {
      if z >= h {
        assert rest[z - h] == s[z - h + (j + h)];
      }
    }
  }

  lemma {:induction false} CopiedFrom(ms: Table, s: string, j: nat, e: nat) returns (k: nat)
    requires Fits(ms, s) && j <= |s| && e <= |s| && NothingMasked(ms, s, j, e)
    ensures CopyTo(Sub(ms, s, j), s, j, k, e)
    decreases |s| - j, 1
  {
    if j == |s| {
      k := 0;
    } else if ms[j].Some? && ms[j].value.hide {
      HeadOfMasked(ms, s, j);
      k := ms[j].value.keep;
    } else {
      k := CopiedHead(ms, s, j, e, Sub(ms, s, j));
    }
  }

  lemma {:induction false} CopiedHead(ms: Table, s: string, j: nat, e: nat, out: string) returns (k: nat)
    requires Fits(ms, s) && j < |s| && e <= |s| && NothingMasked(ms, s, j, e) && out == Sub(ms, s, j)
    requires ms[j].Some? ==> !ms[j].value.hide
    ensures CopyTo(out, s, j, k, e)
    decreases |s| - j, 0
  {
    var h := Width(ms, j);
    HeadCopied(ms, s, j);
    k := CopiedFrom(ms, s, j + h, e);
    CopyOn(out, out[h..], s, j, h, k, e);
    k := h + k;
  }

  /** How far the scan goes from j. */
  function Width(ms: Table, j: nat): nat
    requires j < |ms|
  {
    if ms[j].None? then 1 else ms[j].value.len
  }

  lemma HeadCopied(ms: Table, s: string, j: nat)
    requires Fits(ms, s) && j < |s| && (ms[j].Some? ==> !ms[j].value.hide)
    ensures var h, out := Width(ms, j), Sub(ms, s, j);
            0 < h <= |out| && j + h <= |s| && out[h..] == Sub(ms, s, j + h) && Agree(out, s, j, 0, h)
  {
    if ms[j].None? {
      HeadOfGap(ms, s, j);
    } else {
      HeadOfKept(ms, s, j);
    }
  }

  /** The h characters before q and the k from q on are those of s around p, at least up to e, between two masks
      or the ends; i is where the text begins in s. */
  predicate Island(out: string, s: string, i: nat, p: nat, e: nat, q: nat, h: nat, k: nat) {
    && h <= q && i + h <= p && e <= p + k && p + k <= |s| && q + k <= |out| && Agree(out, s, p - q, q - h, q + k)
    && (if h == q then i + h == p else out[q - h - 1] == '*')
    && (if q + k == |out| then p + k == |s| else out[q + k] == '*')
  }

  lemma IslandBehindCopy(out: string, rest: string, s: string, i: nat, g: nat, p: nat, e: nat, q: nat, h: nat, k: nat)
      returns (q': nat, h': nat)
    requires 0 < g <= |out| && out[g..] == rest && Agree(out, s, i, 0, g) && Island(rest, s, i + g, p, e, q, h, k)
    ensures Island(out, s, i, p, e, q', h', k)
  {
    q', h' := g + q, if h == q then g + h else h;
    forall z | g + q - h' <= z < g + q + k
      ensures out[z] == s[z + (p - (g + q))]
    {
      if z >= g {
        assert rest[z - g] == s[z - g + (p - q)];
      }
    }
    assert h < q ==> rest[q - h - 1] == out[g + q - h - 1];
  }

  lemma IslandBehindMask(out: string, rest: string, s: string, i: nat, j: nat, g: nat, p: nat, e: nat, q: nat, h: nat, k: nat)
      returns (q': nat)
    requires 0 < g <= |out| && out[g..] == rest && out[g - 1] == '*' && i <= j && Island(rest, s, j, p, e, q, h, k)
    ensures Island(out, s, i, p, e, q', h, k)
  {
    q' := g + q;
    forall z | g + q - h <= z < g + q + k
      ensures out[z] == s[z + (p - (g + q))]
    {
      assert rest[z - g] == s[z - g + (p - q)];
    }
    assert h < q ==> rest[q - h - 1] == out[g + q - h - 1];
  }

  /** What stands at [p, e) is found again if no match crosses p and none in it is masked. */
  lemma {:induction false} IslandFrom(ms: Table, s: string, i: nat, p: nat, e: nat) returns (q: nat, h: nat, k: nat)
    requires Fits(ms, s) && i <= p <= e <= |s| && NothingMasked(ms, s, p, e)
    requires forall y :: i <= y < p && ms[y].Some? ==> y + ms[y].value.len <= p
    ensures Island(Sub(ms, s, i), s, i, p, e, q, h, k)
    decreases p - i, 1
  {
    if i == p {
      q, h := 0, 0;
      k := CopiedFrom(ms, s, p, e);
    } else if ms[i].Some? && ms[i].value.hide {
      q, h, k := IslandBehindMatch(ms, s, i, p, e, Sub(ms, s, i));
    } else {
      q, h, k := IslandBehindHead(ms, s, i, p, e, Sub(ms, s, i));
    }
  }

  lemma {:induction false} IslandBehindMatch(ms: Table, s: string, i: nat, p: nat, e: nat, out: string) returns (q: nat, h: nat, k: nat)
    requires Fits(ms, s) && i < p <= e <= |s| && NothingMasked(ms, s, p, e) && out == Sub(ms, s, i)
    requires forall y :: i <= y < p && ms[y].Some? ==> y + ms[y].value.len <= p
    requires ms[i].Some? && ms[i].value.hide
    ensures Island(out, s, i, p, e, q, h, k)
    decreases p - i, 0
  {
    var j, g := i + ms[i].value.len, ms[i].value.keep + 3;
    HeadOfMasked(ms, s, i);
    q, h, k := IslandFrom(ms, s, j, p, e);
    q := IslandBehindMask(out, out[g..], s, i, j, g, p, e, q, h, k);
  }

  lemma {:induction false} IslandBehindHead(ms: Table, s: string, i: nat, p: nat, e: nat, out: string) returns (q: nat, h: nat, k: nat)
    requires Fits(ms, s) && i < p <= e <= |s| && NothingMasked(ms, s, p, e) && out == Sub(ms, s, i)
    requires forall y :: i <= y < p && ms[y].Some? ==> y + ms[y].value.len <= p
    requires ms[i].Some? ==> !ms[i].value.hide
    ensures Island(out, s, i, p, e, q, h, k)
    decreases p - i, 0
  {
    var g := Width(ms, i);
    HeadCopied(ms, s, i);
    q, h, k := IslandFrom(ms, s, i + g, p, e);
    q, h := IslandBehindCopy(out, out[g..], s, i, g, p, e, q, h, k);
  }

  // ----- the address -----

  /** A name with its separator directly before p, whatever stands before the name. */
  ghost predicate NamedBefore(v: Vocabulary, s: string, p: nat) {
    exists i: nat, w: Word :: i <= p <= |s| && NamesAt(v, s, i, w, p)
  }

  predicate NamesAt(v: Vocabulary, s: string, i: nat, w: Word, p: nat)
    requires i <= |s|
  {
    (w in v.long || w in v.short) && WordAt(s, i, w) && Separator(s, i + |w|) == Some(p)
  }

  /** What may stand before an address: no letter, digit, point, colon, hyphen, underscore or percent sign. */
  predicate Apart(c: char) { !IsUrl(c) && c != '.' && c != ':' && c != '%' }

  /** A whole IPv4 address with an optional port stands apart at [p, e), is no value of a name, and is not
      the beginning of a hexadecimal run. */
  ghost predicate Client(v: Vocabulary, s: string, p: nat, e: nat) {
    && p < e <= |s| && IsDigit(s[p]) && NumberEnd(s, p) == e && AddressWord(s, p, e)
    && Apart(Before(s, p)) && !NamedBefore(v, s, p)
    && forall y :: p <= y < e ==> RunEnd(Hex, s, y) - y < 64
  }

  /** What the characters of such an address and those behind it are. */
  lemma ClientChars(v: Vocabulary, s: string, p: nat, e: nat)
    requires Client(v, s, p, e)
    ensures forall y :: p <= y < e ==> IsDigit(s[y]) || ((s[y] == '.' || s[y] == ':') && y + 1 < e && IsDigit(s[y + 1]))
    ensures e < |s| ==> !IsDigit(s[e])
    ensures e + 1 < |s| && (s[e] == '.' || s[e] == ':') ==> !IsDigit(s[e + 1])
  {
    NumberEndReads(s, p);
    NumberEndStops(s, p);
  }

  lemma {:induction false} NumberEndStops(s: string, p: nat)
    requires p < |s| && IsDigit(s[p])
    ensures var e := NumberEnd(s, p);
            (e < |s| ==> !IsDigit(s[e])) && (e + 1 < |s| && (s[e] == '.' || s[e] == ':') ==> !IsDigit(s[e + 1]))
    decreases |s| - p
  {
    var r := RunEnd(Digit, s, p);
    if r + 1 < |s| && (s[r] == '.' || s[r] == ':') && IsDigit(s[r + 1]) {
      NumberEndStops(s, r + 1);
    }
  }

  // ----- no match crosses its beginning -----

  lemma EscapeEndsBefore(s: string, p: nat, y: nat)
    requires y < p < |s| && IsDigit(s[p]) && Apart(Before(s, p))
    ensures y + EscapeAt(s, y) <= p
  {
  }

  lemma NumberChar(s: string, y: nat, e: nat, z: nat)
    requires NumberWord(s, y, e) && y <= z < e - 1
    ensures IsDigit(s[z]) || s[z] == '.' || s[z] == ':'
  {
    assert IsDigit(s[z]) || ((s[z] == '.' || s[z] == ':') && IsDigit(s[z + 1]));
  }

  lemma NumberEndsBefore(s: string, p: nat, y: nat)
    requires y < p < |s| && IsDigit(s[y]) && Apart(Before(s, p))
    ensures NumberEnd(s, y) <= p
  {
    NumberEndReads(s, y);
    if p < NumberEnd(s, y) {
      NumberChar(s, y, NumberEnd(s, y), p - 1);
    }
  }

  lemma RunEndsBefore(k: Class, s: string, p: nat, y: nat)
    requires y < p < |s| && Apart(Before(s, p)) && (k == Hex || k == Url)
    ensures RunEnd(k, s, y) <= p
  {
    RunChars(k, s, y);
  }

  lemma EnvelopeEndsBefore(s: string, p: nat, y: nat)
    requires y < p < |s| && Apart(Before(s, p)) && EnvelopeAt(s, y)
    ensures RunEnd(Url, s, y + 20) <= p
  {
    assert Before(s, p) == s[p - 1];
    RunEndsBefore(Url, s, p, y + 20);
  }

  lemma NamesBefore(v: Vocabulary, s: string, i: nat, w: Word, p: nat)
    requires i <= p <= |s| && NamesAt(v, s, i, w, p)
    ensures NamedBefore(v, s, p)
  {
  }

  /** A named value has no separator that ends at p, and no digit or point before p. */
  lemma NamedEndsBefore(v: Vocabulary, s: string, p: nat, y: nat)
    requires y < p < |s| && IsDigit(s[p]) && Apart(Before(s, p)) && !NamedBefore(v, s, p)
    requires NamedMatch(v, s, y).Some?
    ensures y + NamedMatch(v, s, y).value.len <= p
  {
    NamedBounds(v, s, y);
    var w := NameOf(v, s, y);
    var g := NamedDigits(v, s, y).value;
    if g == p {
      NamesBefore(v, s, y, w, p);
    }
    if g < p {
      ValueEndsBefore(s, p, g);
    }
  }

  lemma ValueEndsBefore(s: string, p: nat, g: nat)
    requires g < p < |s| && IsDigit(s[g]) && Apart(Before(s, p))
    ensures ValueEnd(s, g) <= p
  {
    assert Before(s, p) == s[p - 1];
    RunChars(Digit, s, g);
    var r := RunEnd(Digit, s, g);
    if r + 1 < |s| && s[r] == '.' && IsDigit(s[r + 1]) {
      RunChars(Digit, s, r + 1);
    }
  }

  lemma LooseEndsBefore(s: string, p: nat, y: nat)
    requires y < p < |s| && Apart(Before(s, p)) && LooseNumberAt(s, y).Some?
    ensures y + LooseNumberAt(s, y).value.len <= p
  {
    assert Before(s, p) == s[p - 1];
    var q := if s[y] == '-' then y + 1 else y;
    RunChars(Digit, s, q);
    RunChars(Digit, s, RunEnd(Digit, s, q) + 1);
  }

  lemma EndsBefore(k: Pattern, v: Vocabulary, s: string, p: nat, e: nat, y: nat)
    requires Client(v, s, p, e) && y < p && (k.LooseNamed? ==> k.names == v) && At(k, s, y).Some?
    ensures y + At(k, s, y).value.len <= p
  {
    match k
    case Escape => EscapeEndsBefore(s, p, y);
    case NumberRun => NumberEndsBefore(s, p, y);
    case HexRun => RunEndsBefore(Hex, s, p, y);
    case Envelope => EnvelopeEndsBefore(s, p, y);
    case LooseNamed(_) => NamedEndsBefore(v, s, p, y);
    case Hex64 => RunEndsBefore(Hex, s, p, y);
    case LooseNumber => LooseEndsBefore(s, p, y);
  }

  // ----- nothing in it is masked -----

  lemma ColonIsPort(s: string, p: nat, a: nat, b: nat, c: nat, l: nat, d: nat, e: nat, y: nat)
    requires OctetsCut(s, p, a, b, c, l) && PortCut(s, l, d, e) && e <= |s| && p <= y < e && s[y] == ':'
    ensures y == d && All(Digit, s, d + 1, e)
  {
    assert !IsDigit(s[y]);
  }

  /** No number begins where the address begins: its second number is followed by a point and a digit. */
  lemma NotLooseAtStart(s: string, p: nat, a: nat, b: nat, c: nat, l: nat, q: nat, z: nat, f: nat)
    requires OctetsCut(s, p, a, b, c, l) && LooseCut(s, p, q, z, f) && IsDigit(s[p]) && (f < |s| ==> !IsDigit(s[f]))
    ensures f + 1 < |s| && s[f] == '.' && IsDigit(s[f + 1])
  {
    RunEndIs(Digit, s, p, a);
    RunEndIs(Digit, s, p, z);
    RunEndIs(Digit, s, a + 1, b);
    RunEndIs(Digit, s, a + 1, f);
  }

  /** And none where its port begins: the port ends the address. */
  lemma NotLooseAtPort(s: string, y: nat, e: nat, q: nat, z: nat, f: nat)
    requires y < e <= |s| && All(Digit, s, y, e) && LooseCut(s, y, q, z, f) && (e < |s| ==> !IsDigit(s[e]))
    ensures e + 1 < |s| && s[e] == '.' && IsDigit(s[e + 1])
  {
    RunEndIs(Digit, s, y, e);
    RunEndIs(Digit, s, y, z);
  }

  lemma NoLooseInside(v: Vocabulary, s: string, p: nat, e: nat, y: nat)
    requires Client(v, s, p, e) && p <= y < e
    ensures LooseNumberAt(s, y).None?
  {
    if LooseNumberAt(s, y).Some? {
      var f := y + LooseNumberAt(s, y).value.len;
      LooseReads(s, y);
      var q: nat, z: nat :| LooseCut(s, y, q, z, f);
      LooseIsNoPart(v, s, p, e, y, q, z, f);
    }
  }

  lemma InsideFollows(v: Vocabulary, s: string, p: nat, e: nat, y: nat)
    requires Client(v, s, p, e) && p < y < e
    ensures IsDigit(s[y - 1]) || s[y - 1] == '.' || s[y - 1] == ':'
  {
    ClientChars(v, s, p, e);
  }

  lemma Cuts(v: Vocabulary, s: string, p: nat, e: nat) returns (a: nat, b: nat, c: nat, l: nat, d: nat)
    requires Client(v, s, p, e)
    ensures OctetsCut(s, p, a, b, c, l) && PortCut(s, l, d, e) && IsDigit(s[p]) && e <= |s| && (e < |s| ==> !IsDigit(s[e]))
    ensures e + 1 < |s| && s[e] == '.' ==> !IsDigit(s[e + 1])
  {
    ClientChars(v, s, p, e);
    a, b, c, l, d :| OctetsCut(s, p, a, b, c, l) && PortCut(s, l, d, e);
  }

  /** A number that begins in an address follows a digit or a point, or goes on with a point and a digit. */
  lemma LooseIsNoPart(v: Vocabulary, s: string, p: nat, e: nat, y: nat, q: nat, z: nat, f: nat)
    requires Client(v, s, p, e) && p <= y < e && LooseCut(s, y, q, z, f) && (f < |s| ==> !IsDigit(s[f]))
    ensures IsDigit(Before(s, y)) || Before(s, y) == '.' || (f + 1 < |s| && s[f] == '.' && IsDigit(s[f + 1]))
  {
    var a, b, c, l, d := Cuts(v, s, p, e);
    if y == p {
      NotLooseAtStart(s, p, a, b, c, l, q, z, f);
    } else {
      InsideFollows(v, s, p, e, y);
      if s[y - 1] == ':' {
        ColonIsPort(s, p, a, b, c, l, d, e, y - 1);
        NotLooseAtPort(s, y, e, q, z, f);
      }
    }
  }

  /** At a character of a number only these patterns could match. */
  lemma NothingAt(k: Pattern, s: string, y: nat)
    requires y < |s| && (IsDigit(s[y]) || s[y] == '.' || s[y] == ':') && !k.NumberRun?
    requires RunEnd(Hex, s, y) - y < 64 && LooseNumberAt(s, y).None?
    ensures At(k, s, y).None?
  {
    if k.LooseNamed? && NamedDigits(k.names, s, y).Some? {
      NamedBounds(k.names, s, y);
    }
  }

  lemma NothingInside(k: Pattern, v: Vocabulary, s: string, p: nat, e: nat, y: nat)
    requires Client(v, s, p, e) && p <= y < e && !k.NumberRun?
    ensures At(k, s, y).None?
  {
    ClientChars(v, s, p, e);
    NoLooseInside(v, s, p, e, y);
    NothingAt(k, s, y);
  }

  lemma {:induction false} NoneIsNotMasked(ms: Table, s: string, j: nat, e: nat)
    requires Fits(ms, s) && j <= e <= |s| && forall y :: j <= y < e ==> ms[y].None?
    ensures NothingMasked(ms, s, j, e)
    decreases e - j
  {
    if j < e {
      NoneIsNotMasked(ms, s, j + 1, e);
    }
  }

  lemma ClientNotMasked(k: Pattern, v: Vocabulary, s: string, p: nat, e: nat)
    requires Client(v, s, p, e)
    ensures NothingMasked(Matches(k, s), s, p, e)
  {
    var ms := Matches(k, s);
    if k.NumberRun? {
      NumberMasked(s, p);
      assert ms[p] == NumberMatch(s, p);
    } else {
      forall y | p <= y < e
        ensures ms[y].None?
      {
        NothingInside(k, v, s, p, e, y);
      }
      NoneIsNotMasked(ms, s, p, e);
    }
  }

  // ----- and it is a client address again -----

  /** out reads what s reads k further on, and what is behind is a mask or the end. */
  predicate Ends(out: string, s: string, k: int, x: nat, y: nat) {
    x <= y && Agree(out, s, k, x, y) && (y < |out| ==> out[y] == '*')
  }

  lemma RunEndAgain(c: Class, out: string, s: string, k: int, x: nat, y: nat)
    requires x < y && Ends(out, s, k, x, y)
    ensures RunEnd(c, out, x) <= y && RunEnd(c, out, x) + k <= RunEnd(c, s, x + k)
    ensures RunEnd(c, s, x + k) <= y + k ==> RunEnd(c, out, x) + k == RunEnd(c, s, x + k)
  {
    RunChars(c, out, x);
    var e := RunEnd(c, out, x);
    assert y < |out| ==> out[y] == '*';
    forall z | x + k <= z < e + k
      ensures Is(c, s[z])
    {
      assert out[z - k] == s[z - k + k];
    }
    RunCovers(c, s, x + k, e + k);
    if e < y {
      assert out[e] == s[e + k];
      RunEndIs(c, s, x + k, e + k);
    }
  }

  predicate GoesOn(s: string, r: nat) { r + 1 < |s| && (s[r] == '.' || s[r] == ':') && IsDigit(s[r + 1]) }

  lemma GoesOnAgain(out: string, s: string, k: int, r: nat, y: nat)
    requires r <= y && 0 <= r + k && Ends(out, s, k, r, y) && (GoesOn(s, r + k) ==> r + 1 < y)
    ensures GoesOn(out, r) <==> GoesOn(s, r + k)
  {
    if r < y {
      assert out[r] == s[r + k];
    }
    if r + 1 < y {
      assert out[r + 1] == s[r + 1 + k];
    }
  }

  /** The number run is as long again. */
  lemma {:induction false} NumberEndAgain(out: string, s: string, k: int, x: nat, y: nat)
    requires x < y && Ends(out, s, k, x, y) && IsDigit(out[x]) && NumberEnd(s, x + k) <= y + k
    ensures NumberEnd(out, x) + k == NumberEnd(s, x + k)
    decreases y - x
  {
    assert out[x] == s[x + k];
    RunEndAgain(Digit, out, s, k, x, y);
    var r := RunEnd(Digit, out, x);
    GoesOnAgain(out, s, k, r, y);
    if GoesOn(out, r) {
      NumberEndAgain(out, s, k, r + 1, y);
    }
  }

  lemma AddressAgain(out: string, s: string, k: int, x: nat, y: nat)
    requires x < y && Agree(out, s, k, x, y) && AddressWord(s, x + k, y + k)
    ensures AddressWord(out, x, y)
  {
    var a: nat, b: nat, c: nat, l: nat, d: nat :| OctetsCut(s, x + k, a, b, c, l) && PortCut(s, l, d, y + k);
    OctetsAgain(out, s, k, x, y, a - k, b - k, c - k, l - k);
    PortAgain(out, s, k, x, y, l - k, d - k);
  }

  lemma DigitsAgain(out: string, s: string, k: int, x: nat, y: nat, a: nat, b: nat)
    requires Agree(out, s, k, x, y) && x <= a <= b <= y && 0 <= a + k && All(Digit, s, a + k, b + k)
    ensures All(Digit, out, a, b)
  {
    forall z | a <= z < b
      ensures IsDigit(out[z])
    {
      assert out[z] == s[z + k];
    }
  }

  lemma OctetsAgain(out: string, s: string, k: int, x: nat, y: nat, a: nat, b: nat, c: nat, l: nat)
    requires Agree(out, s, k, x, y) && x < a < b < c < l <= y && 0 <= x + k && OctetsCut(s, x + k, a + k, b + k, c + k, l + k)
    ensures OctetsCut(out, x, a, b, c, l)
  {
    DigitsAgain(out, s, k, x, y, x, a);
    DigitsAgain(out, s, k, x, y, a + 1, b);
    DigitsAgain(out, s, k, x, y, b + 1, c);
    assert out[a] == s[a + k] && out[b] == s[b + k] && out[c] == s[c + k];
  }

  lemma PortAgain(out: string, s: string, k: int, x: nat, y: nat, l: nat, d: nat)
    requires Agree(out, s, k, x, y) && x <= l <= d <= y && 0 <= x + k && PortCut(s, l + k, d + k, y + k)
    ensures PortCut(out, l, d, y)
  {
    DigitsAgain(out, s, k, x, y, l, d);
    if d < y {
      DigitsAgain(out, s, k, x, y, d + 1, y);
      assert out[d] == s[d + k];
    }
  }

  /** A name before it would have been there before: it holds no mask, so it lies within the island. */
  lemma NoNameAgain(v: Vocabulary, out: string, s: string, k: int, lo: nat, q: nat)
    requires lo <= q && Agree(out, s, k, lo, q + 1) && !NamedBefore(v, s, q + k) && (lo > 0 ==> out[lo - 1] == '*')
    ensures !NamedBefore(v, out, q)
  {
    if NamedBefore(v, out, q) {
      var i: nat, w: Word :| i <= q <= |out| && NamesAt(v, out, i, w, q);
      NameHasNoMask(v, out, i, w, q);
      NameAgain(v, out, s, k, lo, q, i, w);
    }
  }

  lemma NameHasNoMask(v: Vocabulary, s: string, i: nat, w: Word, g: nat)
    requires i <= |s| && NamesAt(v, s, i, w, g)
    ensures i < g < |s| && forall z :: i <= z < g ==> s[z] != '*'
  {
    WordIsLetters(s, i, w);
    SeparatorChars(s, i + |w|);
  }

  lemma NameAgain(v: Vocabulary, out: string, s: string, k: int, lo: nat, q: nat, i: nat, w: Word)
    requires i < q && q + 1 <= |out| && NamesAt(v, out, i, w, q) && (forall z :: i <= z < q ==> out[z] != '*')
    requires lo <= q && Agree(out, s, k, lo, q + 1) && (lo > 0 ==> out[lo - 1] == '*')
    ensures NamedBefore(v, s, q + k)
  {
    assert lo <= i;
    NamesMoved(v, out, s, k, i, w, q);
    NamesBefore(v, s, i + k, w, q + k);
  }

  lemma NamesMoved(v: Vocabulary, out: string, s: string, k: int, i: nat, w: Word, q: nat)
    requires i <= q && i <= |out| && NamesAt(v, out, i, w, q) && Agree(out, s, k, i, q + 1)
    ensures 0 <= i + k <= |s| && q + k >= 0 && NamesAt(v, s, i + k, w, q + k)
  {
    WordMoved(out, s, k, i, w);
    SeparatorMoved(out, s, k, i + |w|, q);
  }

  /** What stands before it was there before, or is a mask or the beginning of the line. */
  lemma ApartAgain(out: string, s: string, k: int, lo: nat, q: nat)
    requires lo <= q < |out| && 0 <= lo + k && q + k < |s| && Agree(out, s, k, lo, q + 1) && Apart(Before(s, q + k))
    requires lo > 0 ==> out[lo - 1] == '*'
    ensures Apart(Before(out, q))
  {
    if lo < q {
      assert out[q - 1] == s[q - 1 + k];
    }
  }

  lemma HexesAgain(out: string, s: string, k: int, q: nat, f: nat, y: nat)
    requires Ends(out, s, k, q, y) && 0 <= q + k && f <= y && forall z :: q + k <= z < f + k ==> RunEnd(Hex, s, z) - z < 64
    ensures forall z :: q <= z < f ==> RunEnd(Hex, out, z) - z < 64
  {
    forall z: nat | q <= z < f
      ensures RunEnd(Hex, out, z) - z < 64
    {
      RunEndAgain(Hex, out, s, k, z, y);
    }
  }

  lemma IslandParts(out: string, s: string, i: nat, p: nat, e: nat, q: nat, h: nat, k: nat)
    requires Island(out, s, i, p, e, q, h, k) && p < e
    ensures h <= q && Ends(out, s, p - q, q, q + k) && q + (e - p) <= q + k
    ensures Agree(out, s, p - q, q, q + (e - p)) && Agree(out, s, p - q, q - h, q + 1)
    ensures q - h > 0 ==> out[q - h - 1] == '*'
  {
  }

  /** Inside an island the address is a client address again. */
  lemma ClientAgain(v: Vocabulary, out: string, s: string, i: nat, p: nat, e: nat, q: nat, h: nat, k: nat)
    requires Client(v, s, p, e) && Island(out, s, i, p, e, q, h, k)
    ensures Client(v, out, q, q + (e - p)) && Agree(out, s, p - q, q, q + (e - p))
  {
    IslandParts(out, s, i, p, e, q, h, k);
    ClientOf(v, out, s, p - q, q - h, q, q + (e - p), q + k);
  }

  lemma ClientOf(v: Vocabulary, out: string, s: string, k: int, lo: nat, q: nat, f: nat, y: nat)
    requires 0 <= q + k && lo <= q < f <= y && Client(v, s, q + k, f + k) && Ends(out, s, k, q, y)
    requires Agree(out, s, k, q, f) && Agree(out, s, k, lo, q + 1) && (lo > 0 ==> out[lo - 1] == '*')
    ensures Client(v, out, q, f)
  {
    assert out[q] == s[q + k];
    NumberEndAgain(out, s, k, q, y);
    AddressAgain(out, s, k, q, f);
    ApartAgain(out, s, k, lo, q);
    NoNameAgain(v, out, s, k, lo, q);
    HexesAgain(out, s, k, q, f, y);
  }

  lemma NothingCrosses(pattern: Pattern, v: Vocabulary, s: string, p: nat, e: nat)
    requires Client(v, s, p, e) && (pattern.LooseNamed? ==> pattern.names == v)
    ensures var ms := Matches(pattern, s); forall y :: 0 <= y < p && ms[y].Some? ==> y + ms[y].value.len <= p
  {
    var ms := Matches(pattern, s);
    forall y | 0 <= y < p && ms[y].Some?
      ensures y + ms[y].value.len <= p
    {
      EndsBefore(pattern, v, s, p, e, y);
    }
  }

  /** One step keeps the address as it is. */
  lemma StepKeepsClient(pattern: Pattern, v: Vocabulary, s: string, p: nat, e: nat) returns (q: nat)
    requires Client(v, s, p, e) && (pattern.LooseNamed? ==> pattern.names == v)
    ensures Keeps(v, s, p, e, Apply(pattern, s), q)
  {
    var h, k;
    ClientNotMasked(pattern, v, s, p, e);
    NothingCrosses(pattern, v, s, p, e);
    q, h, k := IslandFrom(Matches(pattern, s), s, 0, p, e);
    ClientAgain(v, Apply(pattern, s), s, 0, p, e, q, h, k);
    SameText(Apply(pattern, s), s, p, e, q);
  }

  lemma SameText(out: string, s: string, p: nat, e: nat, q: nat)
    requires p <= e <= |s| && q + (e - p) <= |out| && Agree(out, s, p - q, q, q + (e - p))
    ensures out[q..q + (e - p)] == s[p..e]
  {
    var a, b := out[q..q + (e - p)], s[p..e];
    forall z | 0 <= z < e - p
      ensures a[z] == b[z]
    {
      assert out[q + z] == s[q + z + (p - q)];
    }
  }

  /** The address of s at [p, e) stands in out at q. */
  ghost predicate Keeps(v: Vocabulary, s: string, p: nat, e: nat, out: string, q: nat) {
    p <= e <= |s| && Client(v, out, q, q + (e - p)) && out[q..q + (e - p)] == s[p..e]
  }

  /** Whatever steps run in whatever order: a client address stays in the line, wherever it stands. */
  lemma {:induction false} AddressKept(patterns: seq<Pattern>, v: Vocabulary, s: string, p: nat, e: nat) returns (q: nat)
    requires Client(v, s, p, e) && forall k :: k in patterns && k.LooseNamed? ==> k.names == v
    ensures Keeps(v, s, p, e, ApplyAll(patterns, s), q)
    decreases |patterns|
  {
    q := p;
    if patterns != [] {
      var next := Apply(patterns[0], s);
      var m := StepKeepsClient(patterns[0], v, s, p, e);
      q := AddressKept(patterns[1..], v, next, m, m + (e - p));
      KeepsOn(v, s, p, e, next, m, ApplyAll(patterns[1..], next), q);
    }
  }

  lemma KeepsOn(v: Vocabulary, s: string, p: nat, e: nat, next: string, m: nat, out: string, q: nat)
    requires Keeps(v, s, p, e, next, m) && Keeps(v, next, m, m + (e - p), out, q)
    ensures Keeps(v, s, p, e, out, q)
  {
  }

  /** Behind it any character will do that continues neither the number nor a hexadecimal run. */
  lemma ClientAt(v: Vocabulary, s: string, p: nat, e: nat)
    requires p < e <= |s| && e < p + 64 && IsDigit(s[p]) && NumberEnd(s, p) == e && AddressWord(s, p, e)
    requires Apart(Before(s, p)) && !NamedBefore(v, s, p) && (e < |s| ==> !IsHex(s[e]))
    ensures Client(v, s, p, e)
  {
    forall y | p <= y < e
      ensures RunEnd(Hex, s, y) - y < 64
    {
      RunChars(Hex, s, y);
      assert e < |s| ==> !Is(Hex, s[e]);
    }
  }

  /** The address at the head of an access log line is one. */
  lemma HeadIsClient(v: Vocabulary, s: string, e: nat)
    requires 0 < e < |s| && e < 64 && IsDigit(s[0]) && NumberEnd(s, 0) == e && AddressWord(s, 0, e) && s[e] == ' '
    ensures Client(v, s, 0, e)
  {
    forall i: nat, w: Word | i <= 0 && NamesAt(v, s, i, w, 0)
      ensures false
    {
      NameHasNoMask(v, s, i, w, 0);
    }
    ClientAt(v, s, 0, e);
  }
}
