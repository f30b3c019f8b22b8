/** Decoding inverts writing: what the detector reads in place of the escapes of a line. */
module Escapes {
  import opened Chars
  import opened Redaction

  type Octet = n: nat | n < 256

  /** One character as it stands, or one byte as two hexadecimal digits, each in either case, behind a
      percent sign or a backslash and an x. */
  datatype Piece = Plain(c: char) | Byte(b: Octet, slash: bool, upper: bool, lowUpper: bool)

  function HexChar(d: nat, upper: bool): char
    requires d < 16
  {
    if d < 10 then (d + 48) as char else if upper then (d + 55) as char else (d + 87) as char
  }

  function WrittenPiece(p: Piece): string {
    match p
    case Plain(c) => [c]
    case Byte(b, slash, upper, lowUpper) =>
      (if slash then ['\\', 'x'] else ['%']) + [HexChar(b / 16, upper), HexChar(b % 16, lowUpper)]
  }

  function Written(ps: seq<Piece>): string {
    if ps == [] then "" else WrittenPiece(ps[0]) + Written(ps[1..])
  }

  /** What the pieces say: a byte of 0x80 or above is one opaque character. */
  function Said(ps: seq<Piece>): string {
    if ps == [] then ""
    else
      (match ps[0]
       case Plain(c) => [c]
       case Byte(b, _, _, _) => [if b < 128 then b as char else '\U{FFFD}']) + Said(ps[1..])
  }

  predicate BeginsPercent(s: string) { |s| >= 3 && s[0] == '%' && IsHex(s[1]) && IsHex(s[2]) }

  predicate BeginsSlash(s: string) { |s| >= 4 && s[0] == '\\' && s[1] == 'x' && IsHex(s[2]) && IsHex(s[3]) }

  /** No character that stands as it is begins an escape with those behind it. */
  predicate Clear(ps: seq<Piece>) {
    ps != [] ==> Clear(ps[1..]) && (ps[0].Plain? ==> !BeginsPercent(Written(ps)) && !BeginsSlash(Written(ps)))
  }

  lemma HexCharIs(d: nat, upper: bool)
    requires d < 16
    ensures IsHex(HexChar(d, upper)) && HexDigit(HexChar(d, upper)) == d
  {
  }

  /** The same pieces with percent signs only. */
  function Percents(ps: seq<Piece>): seq<Piece> {
    if ps == [] then [] else [if ps[0].Byte? then ps[0].(slash := false) else ps[0]] + Percents(ps[1..])
  }

  lemma PiecesFromHead(ps: seq<Piece>)
    requires ps != []
    ensures Written(ps)[0] == (if ps[0].Plain? then ps[0].c else if ps[0].slash then '\\' else '%')
    ensures ps[0].Plain? ==> Written(ps) == [ps[0].c] + Written(ps[1..])
  {
  }

  /** Two hexadecimal digits in front stand there as they are, so they stand there in both. */
  lemma HexPairStays(ps: seq<Piece>)
    requires |Written(Percents(ps))| >= 2 && IsHex(Written(Percents(ps))[0]) && IsHex(Written(Percents(ps))[1])
    ensures |Written(ps)| >= 2 && Written(ps)[..2] == Written(Percents(ps))[..2]
  {
    var qs := Percents(ps);
    PiecesFromHead(qs);
    assert ps[0].Plain? && qs[1..] == Percents(ps[1..]);
    PiecesFromHead(ps);
    PiecesFromHead(qs[1..]);
    assert ps[1].Plain?;
    PiecesFromHead(ps[1..]);
  }

  lemma PercentStays(ps: seq<Piece>)
    requires ps != [] && ps[0].Plain? && BeginsPercent(Written(Percents(ps)))
    ensures BeginsPercent(Written(ps))
  {
    var qs := Percents(ps);
    assert qs[1..] == Percents(ps[1..]);
    PiecesFromHead(qs);
    HexPairStays(ps[1..]);
    PiecesFromHead(ps);
  }

  lemma {:induction false} SlashesGone(ps: seq<Piece>)
    requires Clear(ps)
    ensures Percented(Written(ps)) == Written(Percents(ps))
  {
    if ps != [] {
      SlashesGone(ps[1..]);
      assert Percents(ps)[1..] == Percents(ps[1..]);
      var s := Written(ps);
      if ps[0].Plain? {
        assert s[1..] == Written(ps[1..]);
      } else {
        HexCharIs(ps[0].b / 16, ps[0].upper);
        HexCharIs(ps[0].b % 16, ps[0].lowUpper);
        SlashPiece(ps[0], Written(ps[1..]));
      }
    }
  }

  lemma SlashPiece(p: Piece, rest: string)
    requires p.Byte?
    ensures Percented(WrittenPiece(p) + rest) == WrittenPiece(p.(slash := false)) + Percented(rest)
  {
    HexCharIs(p.b / 16, p.upper);
    HexCharIs(p.b % 16, p.lowUpper);
    var x, y := HexChar(p.b / 16, p.upper), HexChar(p.b % 16, p.lowUpper);
    if p.slash {
      SlashFront(x, y, rest);
      assert WrittenPiece(p) + rest == ['\\', 'x', x, y] + rest;
    } else {
      PercentFront(x, y, rest);
      assert WrittenPiece(p) + rest == ['%', x, y] + rest;
    }
  }

  lemma SlashFront(x: char, y: char, rest: string)
    requires IsHex(x) && IsHex(y)
    ensures Percented(['\\', 'x', x, y] + rest) == ['%', x, y] + Percented(rest)
  {
    var s := ['\\', 'x', x, y] + rest;
    assert s[2..4] == [x, y] && s[4..] == rest;
  }

  lemma PercentFront(x: char, y: char, rest: string)
    requires IsHex(x) && IsHex(y)
    ensures Percented(['%', x, y] + rest) == ['%', x, y] + Percented(rest)
  {
    PlainFront('%', [x, y] + rest);
    PlainFront(x, [y] + rest);
    PlainFront(y, rest);
    assert ['%', x, y] + rest == ['%'] + ([x, y] + rest) && [x, y] + rest == [x] + ([y] + rest);
  }

  lemma PlainFront(c: char, rest: string)
    requires c != '\\'
    ensures Percented([c] + rest) == [c] + Percented(rest)
  {
    assert ([c] + rest)[1..] == rest;
  }

  lemma {:induction false} PercentsRead(ps: seq<Piece>)
    requires Clear(ps)
    ensures Unquoted(Written(Percents(ps))) == Said(ps)
  {
    if ps != [] {
      PercentsRead(ps[1..]);
      var qs := Percents(ps);
      assert qs[1..] == Percents(ps[1..]);
      var s := Written(qs);
      if ps[0].Plain? {
        assert s[1..] == Written(qs[1..]);
        if BeginsPercent(s) {
          PercentStays(ps);
        }
      } else {
        HexCharIs(ps[0].b / 16, ps[0].upper);
        HexCharIs(ps[0].b % 16, ps[0].lowUpper);
        assert s[3..] == Written(qs[1..]);
      }
    }
  }

  /** Decoding is the inverse of writing, whichever characters are written as escapes, and however. */
  lemma DecodingInvertsWriting(ps: seq<Piece>)
    requires Clear(ps)
    ensures Decoded(Written(ps)) == Said(ps)
  {
    SlashesGone(ps);
    PercentsRead(ps);
  }

  function HexValue(c: char): (d: nat)
    requires IsHex(c)
    ensures d < 16 && (HexChar(d, true) == c || HexChar(d, false) == c)
  {
    if c <= '9' then c as int - 48 else if c <= 'F' then c as int - 55 else c as int - 87
  }

  function ByteOf(x: char, y: char, slash: bool): Piece
    requires IsHex(x) && IsHex(y)
  {
    Byte(16 * HexValue(x) + HexValue(y), slash, HexChar(HexValue(x), true) == x, HexChar(HexValue(y), true) == y)
  }

  lemma ByteOfIs(x: char, y: char, slash: bool)
    requires IsHex(x) && IsHex(y)
    ensures WrittenPiece(ByteOf(x, y, slash)) == (if slash then ['\\', 'x'] else ['%']) + [x, y]
  {
    assert (16 * HexValue(x) + HexValue(y)) / 16 == HexValue(x);
  }

  /** And every line is written so: reading it from the left, each escape is a byte. */
  lemma {:induction false} EveryLineIsWritten(s: string) returns (ps: seq<Piece>)
    ensures Written(ps) == s && Clear(ps)
  {
    ps := [];
    if s != "" {
      var n := if BeginsPercent(s) then 3 else if BeginsSlash(s) then 4 else 1;
      var rest := EveryLineIsWritten(s[n..]);
      var p := if n == 1 then Plain(s[0]) else ByteOf(s[n - 2], s[n - 1], n == 4);
      ps := [p] + rest;
      assert ps[1..] == rest;
      FrontIsWritten(s, n, p);
    }
  }

  lemma FrontIsWritten(s: string, n: nat, p: Piece)
    requires s != "" && n == (if BeginsPercent(s) then 3 else if BeginsSlash(s) then 4 else 1)
    requires p == if n == 1 then Plain(s[0]) else ByteOf(s[n - 2], s[n - 1], n == 4)
    ensures n <= |s| && WrittenPiece(p) + s[n..] == s
  {
    if n > 1 {
      ByteOfIs(s[n - 2], s[n - 1], n == 4);
    }
  }
}
