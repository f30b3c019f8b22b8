/** The redaction patterns as scanners.

    A scanner says what its pattern matches at one position of the line, reading from left to right
    and never giving a character back. `Patterns` proves that nothing is missed by that. */
module Scanner {
  import opened Wrappers
  import opened Chars
  import opened Substitution

  /** Coordinate names in lower case. The short ones count only where no letter or underscore
      stands before them. */
  datatype Vocabulary = Vocabulary(long: seq<Word>, short: seq<Word>)

  predicate Lowercase(w: string) {
    |w| > 0 && forall y :: 0 <= y < |w| ==> 'a' <= w[y] <= 'z'
  }

  type Word = w: string | Lowercase(w) witness "x"

  datatype Pattern = Escape | NumberRun | HexRun | Envelope | LooseNamed(names: Vocabulary) | Hex64 | LooseNumber

  // ----- the patterns -----

  function EscapeAt(s: string, i: nat): (r: nat)
    requires i < |s|
    ensures i + r <= |s|
    ensures r > 0 <==> s[i] == '%' || (s[i] == '\\' && i + 1 < |s| && s[i + 1] == 'x')
  {
    if s[i] == '%' then
      if i + 2 < |s| && IsHex(s[i + 1]) && IsHex(s[i + 2]) then 3 else 1
    else if s[i] == '\\' && i + 1 < |s| && s[i + 1] == 'x' then 2
    else 0
  }

  /** End of a number run: digits, then any number of point-or-colon groups of digits. */
  function NumberEnd(s: string, i: nat): (e: nat)
    requires i < |s| && IsDigit(s[i])
    ensures i < e <= |s|
    ensures e < |s| ==> !IsDigit(s[e])
    ensures RunEnd(Digit, s, i) <= e
    decreases |s| - i
  {
    var r := RunEnd(Digit, s, i);
    if r + 1 < |s| && (s[r] == '.' || s[r] == ':') && IsDigit(s[r + 1]) then NumberEnd(s, r + 1) else r
  }

  /** `n` groups of one to three digits, each closed by a point. */
  predicate Octets(s: string, i: nat, n: nat)
    requires i <= |s|
    decreases n
  {
    n == 0 ||
    var r := RunEnd(Digit, s, i);
    i < r <= i + 3 && r < |s| && s[r] == '.' && Octets(s, r + 1, n - 1)
  }

  function OctetsEnd(s: string, i: nat, n: nat): (e: nat)
    requires i <= |s| && Octets(s, i, n)
    ensures i + 2 * n <= e <= |s|
    decreases n
  {
    if n == 0 then i else OctetsEnd(s, RunEnd(Digit, s, i) + 1, n - 1)
  }

  /** A last number of one to three digits, and an optional port, from l to e. */
  predicate PortTo(s: string, l: nat, e: nat)
    requires l <= |s| && e <= |s|
  {
    var r := RunEnd(Digit, s, l);
    l < r <= l + 3 && (r == e || (r + 1 < e && s[r] == ':' && RunEnd(Digit, s, r + 1) == e))
  }

  /** The number run [i, e) is an IPv4 address with an optional port. */
  predicate IsAddress(s: string, i: nat, e: nat)
    requires i <= e <= |s|
  {
    Octets(s, i, 3) && PortTo(s, OctetsEnd(s, i, 3), e)
  }

  predicate EnvelopeAt(s: string, i: nat) {
    && i + 36 <= |s|
    && s[i] == 'v' && s[i + 1] == '1' && s[i + 2] == '.' && s[i + 19] == '.'
    && (forall y :: i + 3 <= y < i + 19 ==> IsUrl(s[y]))
    && (forall y :: i + 20 <= y < i + 36 ==> IsUrl(s[y]))
  }

  predicate WordAt(s: string, i: nat, w: string) {
    i + |w| <= |s| && forall y :: 0 <= y < |w| ==> Lower(s[i + y]) == w[y]
  }

  /** Where the separator mark after a name must stand: behind an optional quote and spaces. */
  function MarkAt(s: string, j: nat): (b: nat)
    requires j <= |s|
    ensures j <= b <= |s|
  {
    RunEnd(Space, s, if j < |s| && IsQuote(s[j]) then j + 1 else j)
  }

  function SignEnd(s: string, d: nat): (g: nat)
    requires d <= |s|
    ensures d <= g <= |s|
  {
    if d < |s| && (s[d] == '+' || s[d] == '-') then d + 1 else d
  }

  function QuoteEnd(s: string, c: nat): (d: nat)
    requires c <= |s|
    ensures c <= d <= |s|
  {
    if c < |s| && IsQuote(s[c]) then c + 1 else c
  }

  /** Where the value must begin: behind spaces, an optional quote and an optional sign. */
  function ValueAt(s: string, j: nat): (g: nat)
    requires j <= |s|
    ensures j <= g <= |s|
  {
    SignEnd(s, QuoteEnd(s, RunEnd(Space, s, j)))
  }

  /** Quote, separator, quote and sign after a name: the position of the first digit behind them. */
  function Separator(s: string, j: nat): (g: Option<nat>)
    requires j <= |s|
    ensures g.Some? ==> j < g.value < |s| && IsDigit(s[g.value])
  {
    var b := MarkAt(s, j);
    if b < |s| && (s[b] == '=' || s[b] == ':') then
      var g := ValueAt(s, b + 1);
      if g < |s| && IsDigit(s[g]) then Some(g) else None
    else None
  }

  /** First listed name at `i` that is followed by a separator and a digit. */
  function NamedBy(s: string, i: nat, names: seq<Word>): (g: Option<nat>)
    requires i <= |s|
    ensures g.Some? ==> g.value < |s| && IsDigit(s[g.value])
  {
    if names == [] then None
    else if WordAt(s, i, names[0]) && Separator(s, i + |names[0]|).Some? then Separator(s, i + |names[0]|)
    else NamedBy(s, i, names[1..])
  }

  function NamedDigits(v: Vocabulary, s: string, i: nat): (g: Option<nat>)
    requires i <= |s|
    ensures g.Some? ==> g.value < |s| && IsDigit(s[g.value])
  {
    var g := NamedBy(s, i, v.long);
    if g.Some? || IsLetter(Before(s, i)) || Before(s, i) == '_' then g else NamedBy(s, i, v.short)
  }

  /** The number after a name: digits and at most one fraction. */
  function ValueEnd(s: string, g: nat): (e: nat)
    requires g < |s| && IsDigit(s[g])
    ensures g < e <= |s| && IsDigit(s[e - 1])
    ensures e < |s| ==> !IsDigit(s[e])
  {
    var r := RunEnd(Digit, s, g);
    RunChars(Digit, s, g);
    if r + 1 < |s| && s[r] == '.' && IsDigit(s[r + 1]) then
      RunChars(Digit, s, r + 1);
      RunEnd(Digit, s, r + 1)
    else r
  }

  function DigitValue(c: char): nat
    requires IsDigit(c)
  {
    c as int - 48
  }

  function Value(s: string, i: nat, e: nat): nat
    requires i <= e <= |s| && forall y :: i <= y < e ==> IsDigit(s[y])
    decreases e
  {
    if i == e then 0 else 10 * Value(s, i, e - 1) + DigitValue(s[e - 1])
  }

  /** Latitudes 33 to 43 and longitudes 124 to 132, both ends included. */
  predicate InKorea(whole: nat, fraction: nat) {
    33 <= whole < 43 || 124 <= whole < 132 || ((whole == 43 || whole == 132) && fraction == 0)
  }

  predicate ClockBefore(s: string, i: nat)
    requires i <= |s|
  {
    i >= 6 && IsDigit(s[i - 6]) && IsDigit(s[i - 5]) && s[i - 4] == ':' && IsDigit(s[i - 3]) && IsDigit(s[i - 2]) && s[i - 1] == ':'
  }

  function LooseNumberAt(s: string, i: nat): (r: Option<Match>)
    requires i < |s|
    ensures r.Some? ==> 0 < r.value.len && i + r.value.len <= |s| && r.value.keep == 0
  {
    var q := if s[i] == '-' then i + 1 else i;
    if ClockBefore(s, i) || IsDigit(Before(s, i)) || Before(s, i) == '.' || q >= |s| then None else
    var e := RunEnd(Digit, s, q);
    if !(q + 2 <= e <= q + 3 && e + 1 < |s| && s[e] == '.' && IsDigit(s[e + 1])) then None else
    var f := RunEnd(Digit, s, e + 1);
    if f + 1 < |s| && s[f] == '.' && IsDigit(s[f + 1]) then None else
    RunChars(Digit, s, q);
    RunChars(Digit, s, e + 1);
    Some(Match(f - i, 0, InKorea(Value(s, q, e), Value(s, e + 1, f))))
  }

  lemma WordIsLetters(s: string, i: nat, w: Word)
    requires WordAt(s, i, w)
    ensures forall z :: i <= z < i + |w| ==> IsLetter(s[z])
  {
    forall z | i <= z < i + |w|
      ensures IsLetter(s[z])
    {
      assert Lower(s[i + (z - i)]) == w[z - i];
    }
  }

  /** A listed name stands at `i`, and the digits of its value at `g`. */
  predicate NamedAt(v: Vocabulary, s: string, i: nat, w: Word, g: nat)
    requires i <= |s|
  {
    && (w in v.long || (w in v.short && !IsLetter(Before(s, i)) && Before(s, i) != '_'))
    && WordAt(s, i, w) && Separator(s, i + |w|) == Some(g)
  }

  lemma {:induction false} NamedByWord(s: string, i: nat, names: seq<Word>) returns (w: Word)
    requires i <= |s| && NamedBy(s, i, names).Some?
    ensures w in names && WordAt(s, i, w) && Separator(s, i + |w|) == NamedBy(s, i, names)
  {
    if WordAt(s, i, names[0]) && Separator(s, i + |names[0]|).Some? {
      w := names[0];
    } else {
      w := NamedByWord(s, i, names[1..]);
    }
  }

  /** The name that a match rests on. */
  lemma NameOf(v: Vocabulary, s: string, i: nat) returns (w: Word)
    requires i <= |s| && NamedDigits(v, s, i).Some?
    ensures NamedAt(v, s, i, w, NamedDigits(v, s, i).value)
  {
    if NamedBy(s, i, v.long).Some? {
      w := NamedByWord(s, i, v.long);
    } else {
      w := NamedByWord(s, i, v.short);
    }
  }

  lemma {:induction false} WordFound(s: string, i: nat, names: seq<Word>, w: Word)
    requires i <= |s| && w in names && WordAt(s, i, w) && Separator(s, i + |w|).Some?
    ensures NamedBy(s, i, names).Some?
  {
    if names[0] != w {
      WordFound(s, i, names[1..], w);
    }
  }

  lemma NameFound(v: Vocabulary, s: string, i: nat, w: Word, g: nat)
    requires i <= |s| && NamedAt(v, s, i, w, g)
    ensures NamedDigits(v, s, i).Some?
  {
    if w in v.long {
      WordFound(s, i, v.long, w);
    } else {
      WordFound(s, i, v.short, w);
    }
  }

  lemma SeparatorChars(s: string, j: nat)
    requires j <= |s| && Separator(s, j).Some?
    ensures forall y :: j <= y < Separator(s, j).value ==> !IsDigit(s[y]) && s[y] != '*'
  {
    var a := if IsQuote(s[j]) then j + 1 else j;
    RunChars(Space, s, a);
    RunChars(Space, s, RunEnd(Space, s, a) + 1);
  }

  /** Name, quotes and separator hold no digit and no mask character. */
  lemma NamedHead(v: Vocabulary, s: string, i: nat, w: Word, g: nat)
    requires i <= |s| && NamedAt(v, s, i, w, g)
    ensures i < g < |s| && IsDigit(s[g]) && IsLetter(s[i])
    ensures forall z :: i <= z < g ==> !IsDigit(s[z]) && s[z] != '*'
  {
    WordIsLetters(s, i, w);
    SeparatorChars(s, i + |w|);
  }

  lemma NamedBounds(v: Vocabulary, s: string, i: nat)
    requires i <= |s| && NamedDigits(v, s, i).Some?
    ensures var g := NamedDigits(v, s, i).value;
            i < g < |s| && IsLetter(s[i]) && forall z :: i <= z < g ==> !IsDigit(s[z]) && s[z] != '*'
  {
    var w := NameOf(v, s, i);
    NamedHead(v, s, i, w, NamedDigits(v, s, i).value);
  }

  function EscapeMatch(s: string, i: nat): (r: Option<Match>)
    requires i < |s|
    ensures r.Some? <==> EscapeAt(s, i) > 0
    ensures r.Some? ==> 0 < r.value.len && i + r.value.len <= |s| && r.value.keep == 0 && r.value.hide
  {
    if EscapeAt(s, i) > 0 then Some(Match(EscapeAt(s, i), 0, true)) else None
  }

  function NumberMatch(s: string, i: nat): (r: Option<Match>)
    requires i < |s|
    ensures r.Some? <==> IsDigit(s[i])
    ensures r.Some? ==> 0 < r.value.len && i + r.value.len == NumberEnd(s, i) && r.value.keep == 0
    ensures r.Some? ==> (r.value.hide <==> '.' in s[i..NumberEnd(s, i)] && !IsAddress(s, i, NumberEnd(s, i)))
  {
    if IsDigit(s[i]) then
      var e := NumberEnd(s, i);
      Some(Match(e - i, 0, '.' in s[i..e] && !IsAddress(s, i, e)))
    else None
  }

  function HexRunMatch(s: string, i: nat): (r: Option<Match>)
    requires i < |s|
    ensures r.Some? <==> RunEnd(Hex, s, i) - i >= 64
    ensures r.Some? ==> 0 < r.value.len && i + r.value.len == RunEnd(Hex, s, i) && r.value.keep == 0 && r.value.hide
  {
    var e := RunEnd(Hex, s, i);
    if e - i >= 64 then Some(Match(e - i, 0, true)) else None
  }

  function EnvelopeMatch(s: string, i: nat): (r: Option<Match>)
    requires i < |s|
    ensures r.Some? <==> EnvelopeAt(s, i)
    ensures r.Some? ==> r.value.len >= 36 && i + r.value.len == RunEnd(Url, s, i + 20) && r.value.keep == 3 && r.value.hide
    ensures r.Some? ==> s[i] == 'v' && (i + r.value.len < |s| ==> !IsDigit(s[i + r.value.len]))
  {
    if EnvelopeAt(s, i) then
      RunCovers(Url, s, i + 20, i + 36);
      Some(Match(RunEnd(Url, s, i + 20) - i, 3, true))
    else None
  }

  function NamedMatch(v: Vocabulary, s: string, i: nat): (r: Option<Match>)
    requires i < |s|
    ensures r.Some? <==> NamedDigits(v, s, i).Some?
    ensures r.Some? ==>
              && 0 < r.value.keep < r.value.len && i + r.value.len <= |s| && r.value.hide
              && IsLetter(s[i]) && (forall z :: i <= z < i + r.value.keep ==> !IsDigit(s[z]) && s[z] != '*')
              && IsDigit(s[i + r.value.len - 1])
              && (i + r.value.len < |s| ==> !IsDigit(s[i + r.value.len]))
  {
    var g := NamedDigits(v, s, i);
    if g.Some? then
      NamedBounds(v, s, i);
      Some(Match(ValueEnd(s, g.value) - i, g.value - i, true))
    else None
  }

  function Hex64Match(s: string, i: nat): (r: Option<Match>)
    requires i < |s|
    ensures r.Some? ==> 0 < r.value.len && i + r.value.len <= |s| && r.value.keep == 0 && r.value.hide
  {
    if !IsHex(Before(s, i)) && RunEnd(Hex, s, i) - i == 64 then Some(Match(64, 0, true)) else None
  }

  /** What the pattern matches at position `i`. */
  function At(k: Pattern, s: string, i: nat): (r: Option<Match>)
    requires i < |s|
    ensures r.Some? ==> 0 < r.value.len && i + r.value.len <= |s| && r.value.keep < r.value.len
  {
    match k
    case Escape => EscapeMatch(s, i)
    case NumberRun => NumberMatch(s, i)
    case HexRun => HexRunMatch(s, i)
    case Envelope => EnvelopeMatch(s, i)
    case LooseNamed(v) => NamedMatch(v, s, i)
    case Hex64 => Hex64Match(s, i)
    case LooseNumber => LooseNumberAt(s, i)
  }

  /** The whole table of a pattern over a line. */
  function Matches(k: Pattern, s: string): (ms: Table)
    ensures Fits(ms, s)
    ensures forall i :: 0 <= i < |s| ==> ms[i] == At(k, s, i)
  {
    seq(|s|, i requires 0 <= i < |s| => At(k, s, i))
  }
}
