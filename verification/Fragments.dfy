/** Rejoining the fragments of one over-long Docker log message. */
module Fragments {
  import opened Wrappers
  import opened Chars

  /** The size at which the json-file driver cuts a message. */
  const FRAGMENT_BYTES := 16384

  /** Length of the timestamp prefix at the head of a record: an optional fraction of one to nine
      digits, then Z and a space. */
  function PrefixLength(s: string): (n: Option<nat>)
    ensures n.Some? ==> 0 < n.value <= |s|
  {
    if !DateTimeAt(s) then None else
    var e := if 19 < |s| && s[19] == '.' then RunEnd(Digit, s, 20) else 19;
    if (e == 19 || 21 <= e <= 29) && e + 1 < |s| && s[e] == 'Z' && s[e + 1] == ' ' then Some(e + 2) else None
  }

  /** The first n characters cut into a date and time, a point and one to nine digits or nothing, the letter
      of the zone, and a space. */
  predicate PrefixCut(s: string, n: nat, fraction: string) {
    && DateTimeAt(s) && |fraction| <= 9 && AllDigits(fraction, 0, |fraction|) && 19 <= n <= |s|
    && s[19..n] == (if fraction == "" then "" else "." + fraction) + "Z "
  }

  lemma LengthOfCut(s: string, n: nat, fraction: string)
    requires PrefixCut(s, n, fraction)
    ensures PrefixLength(s) == Some(n)
  {
    var k := |fraction|;
    if fraction != "" {
      CutChars(s, n, fraction);
      RunEndIs(Digit, s, 20, 20 + k);
    } else {
      assert s[19] == s[19..n][0] && s[20] == s[19..n][1];
    }
  }

  lemma CutChars(s: string, n: nat, fraction: string)
    requires fraction != "" && AllDigits(fraction, 0, |fraction|) && 19 <= n <= |s| && s[19..n] == "." + fraction + "Z "
    ensures n == 22 + |fraction| && s[19] == '.' && s[n - 2] == 'Z' && s[n - 1] == ' '
    ensures forall y :: 20 <= y < 20 + |fraction| ==> IsDigit(s[y])
  {
    var tail := "." + fraction + "Z ";
    assert |tail| == n - 19;
    forall y | 19 <= y < n
      ensures s[y] == tail[y - 19]
    {
      assert s[y] == s[19..n][y - 19];
    }
  }

  /** The scan finds exactly such a prefix. */
  lemma PrefixLengthExactly(s: string, n: nat)
    ensures PrefixLength(s) == Some(n) <==> exists fraction :: PrefixCut(s, n, fraction)
  {
    if PrefixLength(s) == Some(n) {
      var fraction := if n == 21 then "" else s[20..n - 2];
      if n > 21 {
        RunChars(Digit, s, 20);
      }
      assert s[19..n] == (if n == 21 then "" else "." + fraction) + "Z ";
      assert PrefixCut(s, n, fraction);
    }
    if fraction :| PrefixCut(s, n, fraction) {
      LengthOfCut(s, n, fraction);
    }
  }

  predicate OccursAt(w: string, s: string, p: nat) {
    p + |w| <= |s| && s[p..p + |w|] == w
  }

  predicate Occurs(w: string, s: string) {
    exists p :: 0 <= p <= |s| && OccursAt(w, s, p)
  }

  /** Deleting every occurrence, leftmost first and without overlap. */
  function Removed(s: string, w: string): string
    requires w != ""
    decreases |s|
  {
    if |s| < |w| then s
    else if s[..|w|] == w then Removed(s[|w|..], w)
    else [s[0]] + Removed(s[1..], w)
  }

  function JoinFragments(record: string): string {
    match PrefixLength(record)
    case None => record
    case Some(n) =>
      var prefix, body := record[..n], record[n..];
      if |body| <= FRAGMENT_BYTES then record
      else prefix + body[..FRAGMENT_BYTES] + Removed(body[FRAGMENT_BYTES..], prefix)
  }

  // ----- what Docker prints -----

  /** The prefix stands before every fragment. */
  function Printed(prefix: string, fragments: seq<string>): string {
    if fragments == [] then "" else prefix + fragments[0] + Printed(prefix, fragments[1..])
  }

  function Concatenated(fragments: seq<string>): string {
    if fragments == [] then "" else fragments[0] + Concatenated(fragments[1..])
  }

  // ----- the prefix has no border -----

  /** No proper head of `w` is also a tail of it. */
  ghost predicate Unbordered(w: string) {
    forall b :: 0 < b < |w| ==> w[..b] != w[|w| - b..]
  }

  /** The only space of a timestamp prefix is its last character. */
  lemma PrefixShape(s: string)
    requires PrefixLength(s).Some?
    ensures var w := s[..PrefixLength(s).value];
            w[|w| - 1] == ' ' && forall y :: 0 <= y < |w| - 1 ==> w[y] != ' '
  {
    var e := if 19 < |s| && s[19] == '.' then RunEnd(Digit, s, 20) else 19;
    if 20 <= |s| {
      RunChars(Digit, s, 20);
    }
    var w := s[..e + 2];
    forall y | 0 <= y < |w| - 1
      ensures w[y] != ' '
    {
      assert w[y] == s[y];
      if y < 19 {
        assert IsDigit(s[y]) || s[y] == '-' || s[y] == 'T' || s[y] == ':';
      }
    }
  }

  lemma PrefixUnbordered(s: string)
    requires PrefixLength(s).Some?
    ensures Unbordered(s[..PrefixLength(s).value])
  {
    PrefixShape(s);
    var w := s[..PrefixLength(s).value];
    forall b | 0 < b < |w|
      ensures w[..b] != w[|w| - b..]
    {
      assert w[..b][b - 1] == w[b - 1];
      assert w[|w| - b..][b - 1] == w[|w| - 1];
    }
  }

  // ----- deleting an unbordered word -----

  /** An occurrence that reaches into the copy behind it gives the word a border. */
  lemma SeamBorder(u: string, w: string, rest: string, p: nat)
    requires p < |u| < p + |w| && OccursAt(w, u + w + rest, p)
    ensures var b := p + |w| - |u|; 0 < b < |w| && w[..b] == w[|w| - b..]
  {
    var s := u + w + rest;
    var b := p + |w| - |u|;
    assert s[p..p + |w|][|w| - b..] == s[|u|..|u| + b];
    assert s[|u|..|u| + b] == w[..b];
  }

  /** An unbordered word that occurs before a copy of itself ends before that copy begins. */
  lemma NoSeam(u: string, w: string, rest: string, p: nat)
    requires w != "" && Unbordered(w) && p < |u| && OccursAt(w, u + w + rest, p)
    ensures p + |w| <= |u| && OccursAt(w, u, p)
  {
    if |u| < p + |w| {
      SeamBorder(u, w, rest, p);
    } else {
      assert (u + w + rest)[p..p + |w|] == u[p..p + |w|];
    }
  }

  /** Deletion works on the two sides of a copy separately. */
  lemma {:induction false} RemovedAtSeam(u: string, w: string, rest: string)
    requires w != "" && Unbordered(w)
    ensures Removed(u + w + rest, w) == Removed(u, w) + Removed(rest, w)
    decreases |u|
  {
    var s := u + w + rest;
    if u == "" {
      assert s[..|w|] == w && s[|w|..] == rest;
    } else if s[..|w|] == w {
      assert OccursAt(w, s, 0);
      NoSeam(u, w, rest, 0);
      assert u[..|w|] == w;
      assert s[|w|..] == u[|w|..] + w + rest;
      RemovedAtSeam(u[|w|..], w, rest);
    } else {
      assert s[1..] == u[1..] + w + rest && s[0] == u[0];
      RemovedAtSeam(u[1..], w, rest);
      RemovedHead(u, w, s);
    }
  }

  /** A first character that begins no occurrence stays. */
  lemma RemovedHead(u: string, w: string, s: string)
    requires w != "" && u != "" && |u| <= |s| && s[..|u|] == u && |w| <= |s| && s[..|w|] != w
    ensures Removed(u, w) == [u[0]] + Removed(u[1..], w)
  {
    if |u| >= |w| {
      assert u[..|w|] == s[..|u|][..|w|] == s[..|w|];
    } else {
      assert u == [u[0]] + u[1..];
    }
  }

  /** Deletion never lengthens a text, and changes it exactly if the word occurs. */
  lemma {:induction false} RemovedLength(s: string, w: string)
    requires w != ""
    ensures |Removed(s, w)| <= |s|
    ensures |Removed(s, w)| == |s| <==> !Occurs(w, s)
    ensures !Occurs(w, s) ==> Removed(s, w) == s
    decreases |s|
  {
    if |s| < |w| {
    } else if s[..|w|] == w {
      assert OccursAt(w, s, 0);
      RemovedLength(s[|w|..], w);
    } else {
      RemovedLength(s[1..], w);
      OccursInTail(s, w);
    }
  }

  lemma TailSlice(s: string, p: nat, n: nat)
    requires 0 < p && p + n <= |s|
    ensures s[1..][p - 1..p - 1 + n] == s[p..p + n]
  {
  }

  lemma OccursInTail(s: string, w: string)
    requires w != "" && |w| <= |s| && s[..|w|] != w
    ensures Occurs(w, s) <==> Occurs(w, s[1..])
  {
    assert s[0..|w|] == s[..|w|];
    if Occurs(w, s) {
      var p :| 0 <= p <= |s| && OccursAt(w, s, p);
      TailSlice(s, p, |w|);
      assert OccursAt(w, s[1..], p - 1);
    }
    if Occurs(w, s[1..]) {
      var p :| 0 <= p <= |s[1..]| && OccursAt(w, s[1..], p);
      TailSlice(s, p + 1, |w|);
      assert OccursAt(w, s, p + 1);
    }
  }

  function RemovedFromAll(fragments: seq<string>, w: string): string
    requires w != ""
  {
    if fragments == [] then "" else Removed(fragments[0], w) + RemovedFromAll(fragments[1..], w)
  }

  /** Deleting the prefix from everything printed after a text `u`. */
  lemma {:induction false} RemovedFromPrinted(u: string, w: string, fragments: seq<string>)
    requires w != "" && Unbordered(w)
    ensures Removed(u + Printed(w, fragments), w) == Removed(u, w) + RemovedFromAll(fragments, w)
    decreases |fragments|
  {
    if fragments == [] {
      assert u + Printed(w, fragments) == u;
    } else {
      var rest := fragments[0] + Printed(w, fragments[1..]);
      assert u + Printed(w, fragments) == u + w + rest;
      RemovedAtSeam(u, w, rest);
      RemovedFromPrinted(fragments[0], w, fragments[1..]);
    }
  }

  /** No text holds the word. */
  predicate NoneOccurs(w: string, fragments: seq<string>) {
    forall i :: 0 <= i < |fragments| ==> !Occurs(w, fragments[i])
  }

  lemma {:induction false} RemovedFromAllLength(fragments: seq<string>, w: string)
    requires w != ""
    ensures |RemovedFromAll(fragments, w)| <= |Concatenated(fragments)|
    ensures |RemovedFromAll(fragments, w)| == |Concatenated(fragments)| <==> NoneOccurs(w, fragments)
    ensures NoneOccurs(w, fragments) ==> RemovedFromAll(fragments, w) == Concatenated(fragments)
  {
    if fragments != [] {
      RemovedLength(fragments[0], w);
      RemovedFromAllLength(fragments[1..], w);
      assert NoneOccurs(w, fragments) <==> !Occurs(w, fragments[0]) && NoneOccurs(w, fragments[1..]) by {
        if NoneOccurs(w, fragments[1..]) && !Occurs(w, fragments[0]) {
          forall i | 0 <= i < |fragments|
            ensures !Occurs(w, fragments[i])
          {
            assert i > 0 ==> fragments[i] == fragments[1..][i - 1];
          }
        }
        if NoneOccurs(w, fragments) {
          forall i | 0 <= i < |fragments[1..]|
            ensures !Occurs(w, fragments[1..][i])
          {
            assert fragments[1..][i] == fragments[i + 1];
          }
        }
      }
    }
  }

  // ----- the main result -----

  /** The scanned prefix of a printed record is the printed prefix, whatever follows it. */
  lemma PrefixStays(prefix: string, rest: string)
    requires PrefixLength(prefix) == Some(|prefix|)
    ensures PrefixLength(prefix + rest) == Some(|prefix|)
  {
    var s := prefix + rest;
    assert forall y :: 0 <= y < |prefix| ==> s[y] == prefix[y];
    if prefix[19] == '.' {
      var e := RunEnd(Digit, prefix, 20);
      RunChars(Digit, prefix, 20);
      RunEndIs(Digit, s, 20, e);
    }
  }

  lemma JoinOfBody(prefix: string, body: string)
    requires PrefixLength(prefix) == Some(|prefix|) && |body| >= FRAGMENT_BYTES
    ensures prefix != "" && JoinFragments(prefix + body) == prefix + body[..FRAGMENT_BYTES] + Removed(body[FRAGMENT_BYTES..], prefix)
  {
    PrefixStays(prefix, body);
    var record := prefix + body;
    assert record[..|prefix|] == prefix && record[|prefix|..] == body;
    if |body| == FRAGMENT_BYTES {
      assert body[FRAGMENT_BYTES..] == "" && body[..FRAGMENT_BYTES] == body;
    }
  }

  lemma RemovedBehindCut(first: string, w: string, later: seq<string>)
    requires w != "" && Unbordered(w) && |first| >= FRAGMENT_BYTES
    ensures var body := first + Printed(w, later);
            && body[..FRAGMENT_BYTES] == first[..FRAGMENT_BYTES]
            && Removed(body[FRAGMENT_BYTES..], w) == Removed(first[FRAGMENT_BYTES..], w) + RemovedFromAll(later, w)
  {
    var body := first + Printed(w, later);
    assert body[FRAGMENT_BYTES..] == first[FRAGMENT_BYTES..] + Printed(w, later);
    RemovedFromPrinted(first[FRAGMENT_BYTES..], w, later);
  }

  lemma KeptExactly(tail: string, w: string, later: seq<string>)
    requires w != ""
    ensures Removed(tail, w) + RemovedFromAll(later, w) == tail + Concatenated(later) <==>
            !Occurs(w, tail) && NoneOccurs(w, later)
  {
    RemovedLength(tail, w);
    RemovedFromAllLength(later, w);
    var a, b := Removed(tail, w) + RemovedFromAll(later, w), tail + Concatenated(later);
    assert |a| == |b| <==> |Removed(tail, w)| == |tail| && |RemovedFromAll(later, w)| == |Concatenated(later)|;
  }

  /** A record without such a prefix, or whose message is not longer than one fragment, stays as it is. */
  lemma UnsplitStays(record: string)
    requires forall n: nat, fraction :: PrefixCut(record, n, fraction) ==> |record| <= n + FRAGMENT_BYTES
    ensures JoinFragments(record) == record
  {
    if PrefixLength(record).Some? {
      var n := PrefixLength(record).value;
      PrefixLengthExactly(record, n);
      assert |record| <= n + FRAGMENT_BYTES;
    }
  }

  /** Rejoining gives back prefix and message exactly if the prefix occurs neither in the first
      fragment behind the cut size nor in any later fragment. */
  lemma JoinInvertsPrinting(prefix: string, fragments: seq<string>)
    requires PrefixLength(prefix) == Some(|prefix|)
    requires fragments != [] && |fragments[0]| >= FRAGMENT_BYTES
    ensures JoinFragments(Printed(prefix, fragments)) == prefix + Concatenated(fragments) <==>
            !Occurs(prefix, fragments[0][FRAGMENT_BYTES..]) && NoneOccurs(prefix, fragments[1..])
  {
    var first, later := fragments[0], fragments[1..];
    var head, tail := first[..FRAGMENT_BYTES], first[FRAGMENT_BYTES..];
    PrefixUnbordered(prefix);
    assert prefix[..|prefix|] == prefix;
    JoinOfBody(prefix, first + Printed(prefix, later));
    RemovedBehindCut(first, prefix, later);
    KeptExactly(tail, prefix, later);
    var kept := Removed(tail, prefix) + RemovedFromAll(later, prefix);
    SamePrefix(prefix + head, kept, tail + Concatenated(later));
    Regrouped(prefix, first, later);
  }

  lemma Regrouped(prefix: string, first: string, later: seq<string>)
    requires |first| >= FRAGMENT_BYTES
    ensures prefix + (first + Concatenated(later)) ==
            prefix + first[..FRAGMENT_BYTES] + (first[FRAGMENT_BYTES..] + Concatenated(later))
    ensures prefix + (first + Printed(prefix, later)) == prefix + first + Printed(prefix, later)
  {
    assert first == first[..FRAGMENT_BYTES] + first[FRAGMENT_BYTES..];
  }

  lemma SamePrefix(a: string, b: string, c: string)
    ensures a + b == a + c <==> b == c
  {
    assert (a + b)[|a|..] == b;
    assert (a + c)[|a|..] == c;
  }
}
