/** ASCII character classes of the redaction patterns, maximal runs of one class, and runs of digits. */
module Chars {
  datatype Class = Digit | Hex | Url | Space

  predicate IsDigit(c: char) { '0' <= c <= '9' }

  predicate IsHex(c: char) { IsDigit(c) || 'a' <= c <= 'f' || 'A' <= c <= 'F' }

  predicate IsLetter(c: char) { 'a' <= c <= 'z' || 'A' <= c <= 'Z' }

  predicate IsUrl(c: char) { IsDigit(c) || IsLetter(c) || c == '_' || c == '-' }

  predicate IsSpace(c: char) { c == ' ' || '\t' <= c <= '\r' || '\U{1C}' <= c <= '\U{1F}' }

  predicate IsQuote(c: char) { c == '"' || c == '\'' }

  predicate Is(k: Class, c: char) {
    match k
    case Digit => IsDigit(c)
    case Hex => IsHex(c)
    case Url => IsUrl(c)
    case Space => IsSpace(c)
  }

  function Lower(c: char): char {
    if 'A' <= c <= 'Z' then (c as int + 32) as char else c
  }

  /** Where a greedy run of the class that begins at `i` ends. */
  function RunEnd(k: Class, s: string, i: nat): (e: nat)
    requires i <= |s|
    ensures i <= e <= |s|
    ensures e < |s| ==> !Is(k, s[e])
    ensures i < e <==> i < |s| && Is(k, s[i])
    decreases |s| - i
  {
    if i < |s| && Is(k, s[i]) then RunEnd(k, s, i + 1) else i
  }

  lemma {:induction false} RunChars(k: Class, s: string, i: nat)
    requires i <= |s|
    ensures forall y :: i <= y < RunEnd(k, s, i) ==> Is(k, s[y])
    decreases |s| - i
  {
    if i < |s| && Is(k, s[i]) {
      RunChars(k, s, i + 1);
    }
  }

  lemma RunEndIs(k: Class, s: string, i: nat, e: nat)
    requires i <= e <= |s|
    requires forall y :: i <= y < e ==> Is(k, s[y])
    requires e < |s| ==> !Is(k, s[e])
    ensures RunEnd(k, s, i) == e
  {
    RunChars(k, s, i);
  }

  lemma RunCovers(k: Class, s: string, i: nat, e: nat)
    requires i <= e <= |s|
    requires forall y :: i <= y < e ==> Is(k, s[y])
    ensures e <= RunEnd(k, s, i)
  {
  }

  /** `t`, shifted by `k`, reads what `s` reads on [lo, hi). */
  predicate Agree(s: string, t: string, k: int, lo: nat, hi: nat) {
    hi <= |s| && (lo < hi ==> 0 <= lo + k && hi + k <= |t|) && forall z :: lo <= z < hi ==> s[z] == t[z + k]
  }

  /** The same agreement read from the other text, on any part of the stretch. */
  lemma AgreeBack(s: string, t: string, k: int, lo: nat, hi: nat, k': int, lo': nat, hi': nat)
    requires lo < hi && Agree(s, t, k, lo, hi) && k' == -k && lo + k <= lo' && hi' <= hi + k && lo' <= hi'
    ensures Agree(t, s, k', lo', hi')
  {
    forall z | lo' <= z < hi'
      ensures t[z] == s[z + k']
    {
      assert s[z + k'] == t[z + k' + k];
    }
  }

  /** A run that ends inside a stretch read alike ends at the same place in both. */
  lemma RunEndMoved(c: Class, s: string, t: string, k: int, lo: nat, hi: nat)
    requires lo < hi && Agree(s, t, k, lo, hi) && RunEnd(c, s, lo) < hi
    ensures RunEnd(c, t, lo + k) == RunEnd(c, s, lo) + k
  {
    var e := RunEnd(c, s, lo);
    RunChars(c, s, lo);
    assert s[e] == t[e + k];
    forall y | lo + k <= y < e + k
      ensures Is(c, t[y])
    {
      assert s[y - k] == t[y - k + k];
    }
    RunEndIs(c, t, lo + k, e + k);
  }

  /** The same, for a run of the text that is copied. */
  lemma RunEndCopied(c: Class, s: string, t: string, k: int, lo: nat, hi: nat)
    requires lo < hi && Agree(t, s, k, lo, hi) && RunEnd(c, s, lo + k) < hi + k
    ensures RunEnd(c, t, lo) == RunEnd(c, s, lo + k) - k
  {
    var e := RunEnd(c, s, lo + k) - k;
    RunChars(c, s, lo + k);
    assert t[e] == s[e + k];
    forall y | lo <= y < e
      ensures Is(c, t[y])
    {
      assert t[y] == s[y + k];
    }
    RunEndIs(c, t, lo, e);
  }

  /** The character a lookbehind sees; the start of the line counts as a mask character. */
  function Before(s: string, i: nat): char
    requires i <= |s|
  {
    if i == 0 then '*' else s[i - 1]
  }

  function Pow10(w: nat): (p: nat)
    ensures p > 0
  {
    if w == 0 then 1 else 10 * Pow10(w - 1)
  }

  predicate AllDigits(s: string, i: nat, n: nat) {
    i + n <= |s| && forall y :: i <= y < i + n ==> IsDigit(s[y])
  }

  /** A date, T and a time of day to the second: the first 19 characters. */
  predicate DateTimeAt(s: string) {
    && AllDigits(s, 0, 4) && AllDigits(s, 5, 2) && AllDigits(s, 8, 2)
    && AllDigits(s, 11, 2) && AllDigits(s, 14, 2) && AllDigits(s, 17, 2)
    && s[4] == '-' && s[7] == '-' && s[10] == 'T' && s[13] == ':' && s[16] == ':'
  }
}
