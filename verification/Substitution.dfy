/** Leftmost non-overlapping substitution, as a regular-expression library performs it, over a
    table that says what matches at every position of the text. */
module Substitution {
  import opened Wrappers
  import opened Chars

  const MASK := "***"

  /** A match of `len` characters. When `hide` is set its first `keep` characters stay and a mask
      replaces the rest; otherwise the callback returned the match as it was. */
  datatype Match = Match(len: nat, keep: nat, hide: bool)

  type Table = seq<Option<Match>>

  ghost predicate Fits(ms: Table, s: string) {
    |ms| == |s| &&
    forall i :: 0 <= i < |s| && ms[i].Some? ==>
      0 < ms[i].value.len && i + ms[i].value.len <= |s| && ms[i].value.keep < ms[i].value.len
  }

  function Sub(ms: Table, s: string, i: nat): string
    requires Fits(ms, s) && i <= |s|
    decreases |s| - i
  {
    if i == |s| then ""
    else
      match ms[i]
      case None => [s[i]] + Sub(ms, s, i + 1)
      case Some(m) =>
        (if m.hide then s[i..i + m.keep] + MASK else s[i..i + m.len]) + Sub(ms, s, i + m.len)
  }

  /** How many masks a substitution writes. */
  function Masks(ms: Table, s: string, i: nat): nat
    requires Fits(ms, s) && i <= |s|
    decreases |s| - i
  {
    if i == |s| then 0
    else
      match ms[i]
      case None => Masks(ms, s, i + 1)
      case Some(m) => (if m.hide then 1 else 0) + Masks(ms, s, i + m.len)
  }

  /** Whether scanning for non-overlapping matches meets one that would be masked. */
  predicate Finds(ms: Table, s: string, i: nat)
    requires Fits(ms, s) && i <= |s|
    decreases |s| - i
  {
    i < |s| &&
    match ms[i]
    case None => Finds(ms, s, i + 1)
    case Some(m) => m.hide || Finds(ms, s, i + m.len)
  }

  predicate Plain(s: string, x: nat, n: nat) {
    x + n <= |s| && forall y :: x <= y < x + n ==> s[y] != '*'
  }

  /** A masked match that begins at `f` ends at `p`. */
  predicate MaskedUpTo(ms: Table, s: string, f: nat, p: nat) {
    f < |ms| && ms[f].Some? && ms[f].value.hide && f + ms[f].value.len == p
  }

  /** Where a stretch of output without mask characters comes from. The scan either stood at its
      first character `p` and found no match there, or that character lies in a match at `f`: in
      the kept head of a masked one, or anywhere in one that was returned as it was. */
  ghost predicate Origin(ms: Table, s: string, i: nat, x: nat, n: nat, p: nat, f: nat)
    requires Fits(ms, s) && i <= |s|
  {
    OriginIn(ms, s, i, Sub(ms, s, i), x, n, p, f)
  }

  ghost predicate OriginIn(ms: Table, s: string, i: nat, out: string, x: nat, n: nat, p: nat, f: nat)
    requires Fits(ms, s)
  {
    && i <= f <= p && p + n <= |s| && f < |s|
    && Agree(out, s, p - x, x, x + n)
    && (match ms[f]
        case None => f == p && x <= |out| && out[x..] == Sub(ms, s, p)
        case Some(m) =>
          p < f + m.len &&
          if m.hide then p + n <= f + m.keep else Agree(out, s, p - x, x, x + (f + m.len - p)))
    && (x == 0 ==> p == i)
    && (x > 0 ==> p > i && x <= |out| && LeftOf(ms, s, p, out[x - 1]))
  }

  /** `c` is what stands before the copy of position `p` in the output. */
  ghost predicate LeftOf(ms: Table, s: string, p: nat, c: char)
    requires 0 < p <= |s|
  {
    c == s[p - 1] || (c == '*' && exists h :: MaskedUpTo(ms, s, h, p))
  }

  lemma HeadOfGap(ms: Table, s: string, i: nat)
    requires Fits(ms, s) && i < |s| && ms[i].None?
    ensures var out := Sub(ms, s, i);
            1 <= |out| && out[1..] == Sub(ms, s, i + 1) && Agree(out, s, i, 0, 1)
  {
    assert Sub(ms, s, i) == [s[i]] + Sub(ms, s, i + 1);
  }

  lemma HeadOfMasked(ms: Table, s: string, i: nat)
    requires Fits(ms, s) && i < |s| && ms[i].Some? && ms[i].value.hide
    ensures var m, out := ms[i].value, Sub(ms, s, i);
            && m.keep + 3 <= |out| && out[m.keep + 3..] == Sub(ms, s, i + m.len)
            && out[m.keep] == out[m.keep + 1] == out[m.keep + 2] == '*'
            && Agree(out, s, i, 0, m.keep)
  {
    var m := ms[i].value;
    ThreeParts(s[i..i + m.keep], MASK, Sub(ms, s, i + m.len));
  }

  lemma ThreeParts(a: string, b: string, c: string)
    requires |b| == 3
    ensures var t := a + b + c;
            t[|a| + 3..] == c && t[..|a|] == a && t[|a|] == b[0] && t[|a| + 1] == b[1] && t[|a| + 2] == b[2]
  {
  }

  lemma HeadOfKept(ms: Table, s: string, i: nat)
    requires Fits(ms, s) && i < |s| && ms[i].Some? && !ms[i].value.hide
    ensures var m, out := ms[i].value, Sub(ms, s, i);
            m.len <= |out| && out[m.len..] == Sub(ms, s, i + m.len) && Agree(out, s, i, 0, m.len)
  {
    var m := ms[i].value;
    assert Sub(ms, s, i) == s[i..i + m.len] + Sub(ms, s, i + m.len);
  }

  /** A mask-free head of the output is the head of the input. */
  lemma {:induction false} PlainHead(ms: Table, s: string, i: nat, n: nat)
    requires Fits(ms, s) && i <= |s| && Plain(Sub(ms, s, i), 0, n)
    ensures i + n <= |s| && Agree(Sub(ms, s, i), s, i, 0, n)
    decreases |s| - i
  {
    if n == 0 || i == |s| {
    } else if ms[i].None? {
      HeadOfGap(ms, s, i);
      PlainBeyond(ms, s, i, Sub(ms, s, i), n, 1);
    } else if ms[i].value.hide {
      HeadOfMasked(ms, s, i);
      assert n <= ms[i].value.keep;
    } else {
      HeadOfKept(ms, s, i);
      PlainBeyond(ms, s, i, Sub(ms, s, i), n, ms[i].value.len);
    }
  }

  lemma {:induction false} PlainBeyond(ms: Table, s: string, i: nat, out: string, n: nat, h: nat)
    requires Fits(ms, s) && 0 < h && i + h <= |s| && Plain(out, 0, n)
    requires h <= |out| && out[h..] == Sub(ms, s, i + h) && Agree(out, s, i, 0, h)
    ensures i + n <= |s| && Agree(out, s, i, 0, n)
    decreases |s| - i, 0
  {
    if n > h {
      var rest := out[h..];
      PlainHead(ms, s, i + h, n - h);
      forall z | 0 <= z < n
        ensures out[z] == s[z + i]
      {
        assert z >= h ==> rest[z - h] == s[z - h + (i + h)];
      }
    }
  }

  /** Every mask-free stretch of the output has an origin in the input. */
  lemma {:induction false} Trace(ms: Table, s: string, i: nat, x: nat, n: nat) returns (p: nat, f: nat)
    requires Fits(ms, s) && i <= |s| && n > 0 && Plain(Sub(ms, s, i), x, n)
    ensures Origin(ms, s, i, x, n, p, f)
    decreases |s| - i, 3
  {
    if ms[i].None? {
      p, f := TraceGap(ms, s, i, Sub(ms, s, i), x, n);
    } else if ms[i].value.hide {
      p, f := TraceMasked(ms, s, i, Sub(ms, s, i), x, n);
    } else {
      p, f := TraceKept(ms, s, i, Sub(ms, s, i), x, n);
    }
  }

  lemma {:induction false} TraceGap(ms: Table, s: string, i: nat, out: string, x: nat, n: nat) returns (p: nat, f: nat)
    requires Fits(ms, s) && i < |s| && n > 0 && out == Sub(ms, s, i) && Plain(out, x, n) && ms[i].None?
    ensures OriginIn(ms, s, i, out, x, n, p, f)
    decreases |s| - i, 2
  {
    HeadOfGap(ms, s, i);
    if x == 0 {
      p, f := i, i;
      PlainHead(ms, s, i, n);
      assert out[0..] == out;
    } else {
      p, f := TraceRest(ms, s, i, out, x, n, 1, i + 1);
    }
  }

  lemma {:induction false} TraceMasked(ms: Table, s: string, i: nat, out: string, x: nat, n: nat) returns (p: nat, f: nat)
    requires Fits(ms, s) && i < |s| && n > 0 && out == Sub(ms, s, i) && Plain(out, x, n) && ms[i].Some? && ms[i].value.hide
    ensures OriginIn(ms, s, i, out, x, n, p, f)
    decreases |s| - i, 2
  {
    HeadOfMasked(ms, s, i);
    var keep, j := ms[i].value.keep, i + ms[i].value.len;
    if x >= keep + 3 {
      assert MaskedUpTo(ms, s, i, j);
      p, f := TraceRest(ms, s, i, out, x, n, keep + 3, j);
    } else {
      p, f := i + x, i;
      assert x + n <= keep;
      AgreePart(out, s, i, 0, keep, x, x + n);
    }
  }

  lemma {:induction false} TraceKept(ms: Table, s: string, i: nat, out: string, x: nat, n: nat) returns (p: nat, f: nat)
    requires Fits(ms, s) && i < |s| && n > 0 && out == Sub(ms, s, i) && Plain(out, x, n) && ms[i].Some? && !ms[i].value.hide
    ensures OriginIn(ms, s, i, out, x, n, p, f)
    decreases |s| - i, 2
  {
    HeadOfKept(ms, s, i);
    var len := ms[i].value.len;
    if x >= len {
      p, f := TraceRest(ms, s, i, out, x, n, len, i + len);
    } else {
      p, f := i + x, i;
      AgreeOver(ms, s, i, out, x, n, len);
      AgreePart(out, s, i, 0, len, x, len);
      assert x > 0 ==> out[x - 1] == s[x - 1 + i];
      OriginInHead(ms, s, i, out, x, n);
    }
  }

  lemma OriginInHead(ms: Table, s: string, i: nat, out: string, x: nat, n: nat)
    requires Fits(ms, s) && i < |s| && ms[i].Some? && !ms[i].value.hide && i + x + n <= |s|
    requires x < ms[i].value.len && x <= |out| && (x > 0 ==> out[x - 1] == s[i + x - 1])
    requires Agree(out, s, i, x, x + n) && Agree(out, s, i, x, ms[i].value.len)
    ensures OriginIn(ms, s, i, out, x, n, i + x, i)
  {
  }

  /** A mask-free stretch that begins in a copied head is copied. */
  lemma AgreeOver(ms: Table, s: string, i: nat, out: string, x: nat, n: nat, len: nat)
    requires Fits(ms, s) && n > 0 && Plain(out, x, n) && i + len <= |s|
    requires x < len <= |out| && out[len..] == Sub(ms, s, i + len) && Agree(out, s, i, 0, len)
    ensures i + x + n <= |s| && Agree(out, s, i, x, x + n)
  {
    if x + n > len {
      AgreePart(out, s, i, 0, len, x, len);
      PlainRest(ms, s, i + len, out, x, n, len);
      AgreeJoin(out, s, i, x, len, x + n);
    } else {
      AgreePart(out, s, i, 0, len, x, x + n);
    }
  }

  lemma AgreePart(out: string, s: string, k: int, lo: nat, hi: nat, lo': nat, hi': nat)
    requires Agree(out, s, k, lo, hi) && lo <= lo' < hi' <= hi
    ensures Agree(out, s, k, lo', hi')
  {
  }

  lemma AgreeJoin(out: string, s: string, k: int, lo: nat, mid: nat, hi: nat)
    requires Agree(out, s, k, lo, mid) && Agree(out, s, k, mid, hi) && lo < mid < hi
    ensures Agree(out, s, k, lo, hi)
  {
  }

  lemma PlainRest(ms: Table, s: string, j: nat, out: string, x: nat, n: nat, h: nat)
    requires Fits(ms, s) && h <= j <= |s| && h <= |out| && out[h..] == Sub(ms, s, j)
    requires x <= h < x + n && Plain(out, x, n)
    ensures j + (x + n - h) <= |s| && Agree(out, s, j - h, h, x + n)
  {
    var rest := out[h..];
    assert Plain(rest, 0, x + n - h);
    PlainHead(ms, s, j, x + n - h);
    AgreeShift(out, h, rest, s, j, 0, x + n - h);
  }

  lemma {:induction false} TraceRest(ms: Table, s: string, i: nat, out: string, x: nat, n: nat, h: nat, j: nat) returns (p: nat, f: nat)
    requires Fits(ms, s) && i < j <= |s| && n > 0 && 0 < h <= x && Plain(out, x, n)
    requires h <= |out| && out[h..] == Sub(ms, s, j) && LeftOf(ms, s, j, out[h - 1])
    ensures OriginIn(ms, s, i, out, x, n, p, f)
    decreases |s| - i, 1
  {
    var rest := out[h..];
    assert forall y :: 0 <= y < |rest| ==> rest[y] == out[h + y];
    p, f := Trace(ms, s, j, x - h, n);
    OriginShift(ms, s, i, out, x, n, h, j, rest, p, f);
  }

  lemma OriginShift(ms: Table, s: string, i: nat, out: string, x: nat, n: nat, h: nat, j: nat, rest: string, p: nat, f: nat)
    requires Fits(ms, s) && n > 0 && i < j <= |s| && 0 < h <= x && h <= |out| && out[h..] == rest
    requires OriginIn(ms, s, j, rest, x - h, n, p, f) && LeftOf(ms, s, j, out[h - 1])
    ensures OriginIn(ms, s, i, out, x, n, p, f)
  {
    AgreeShift(out, h, rest, s, p - x + h, x - h, x - h + n);
    assert out[x..] == rest[x - h..];
    if ms[f].Some? && !ms[f].value.hide {
      AgreeShift(out, h, rest, s, p - x + h, x - h, x - h + (f + ms[f].value.len - p));
    }
    if x > h {
      assert out[x - 1] == rest[x - h - 1];
    }
  }

  lemma AgreeShift(out: string, h: nat, rest: string, s: string, k: int, lo: nat, hi: nat)
    requires h <= |out| && out[h..] == rest && lo < hi && Agree(rest, s, k, lo, hi)
    ensures Agree(out, s, k - h, lo + h, hi + h)
  {
    forall z | lo + h <= z < hi + h
      ensures out[z] == s[z + (k - h)]
    {
      assert rest[z - h] == s[z - h + k];
    }
  }

  /** Text in which no match begins is copied. */
  lemma {:induction false} Copied(ms: Table, s: string, i: nat, z: nat)
    requires Fits(ms, s) && i <= z <= |s|
    requires forall y :: i <= y < z ==> ms[y].None?
    ensures |Sub(ms, s, i)| >= z - i && Agree(Sub(ms, s, i), s, i, 0, z - i)
    decreases z - i
  {
    if i < z {
      HeadOfGap(ms, s, i);
      Copied(ms, s, i + 1, z);
      AgreeTail(Sub(ms, s, i), s, i, z - i);
    }
  }

  lemma AgreeTail(out: string, s: string, i: nat, n: nat)
    requires 1 <= |out| && i + n <= |s| && n > 0 && Agree(out, s, i, 0, 1) && Agree(out[1..], s, i + 1, 0, n - 1)
    ensures Agree(out, s, i, 0, n)
  {
    forall z | 0 <= z < n
      ensures out[z] == s[z + i]
    {
      assert z > 0 ==> out[1..][z - 1] == s[z - 1 + (i + 1)];
    }
  }
}
