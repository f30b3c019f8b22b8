/** Counting the rows of a plain SQL dump: a scanner over its lines that inverts the way the dump was
    laid out. */
module DumpRows {
  import opened Wrappers

  /** A qualified table name. */
  datatype Name = Name(schema: string, table: string)

  predicate Starts(c: char) { 'a' <= c <= 'z' || c == '_' }

  predicate Continues(c: char) { Starts(c) || '0' <= c <= '9' }

  predicate IsName(s: string) { s != "" && Starts(s[0]) && forall i :: 0 <= i < |s| ==> Continues(s[i]) }

  function NameEnd(s: string, i: nat): (e: nat)
    requires i <= |s|
    ensures i <= e <= |s| && (e < |s| ==> !Continues(s[e]))
    ensures forall k :: i <= k < e ==> Continues(s[k])
    decreases |s| - i
  {
    if i < |s| && Continues(s[i]) then NameEnd(s, i + 1) else i
  }

  /** pre occurs in s at i. */
  predicate HasAt(s: string, i: int, pre: string) {
    0 <= i && i + |pre| <= |s| && forall y :: i <= y < i + |pre| ==> s[y] == pre[y - i]
  }

  const COPY := "COPY "
  const COLUMNS := " ("
  const STDIN := ") FROM stdin;"
  const END := "\\."

  /** The table whose rows follow this line, if it is the first line of a COPY block. */
  function Header(line: string): Option<Name> {
    if !HasAt(line, 0, COPY) then None
    else
      var a := NameEnd(line, |COPY|);
      if !IsName(line[|COPY|..a]) || !HasAt(line, a, ".") then None
      else
        var b := NameEnd(line, a + 1);
        if !IsName(line[a + 1..b]) || !HasAt(line, b, COLUMNS) then None
        else if |line| < b + |COLUMNS| + |STDIN| || !HasAt(line, |line| - |STDIN|, STDIN) then None
        else Some(Name(line[|COPY|..a], line[a + 1..b]))
  }

  predicate ValidName(n: Name) { IsName(n.schema) && IsName(n.table) }

  /** The first line of the block of table n, with any column list, as the program's pattern describes it:
      five pieces in their places, and the sixth at the end. */
  predicate IsHeader(line: string, n: Name) {
    var a := |COPY| + |n.schema|;
    var b := a + 1 + |n.table|;
    && HasAt(line, 0, COPY) && HasAt(line, |COPY|, n.schema) && HasAt(line, a, ".")
    && HasAt(line, a + 1, n.table) && HasAt(line, b, COLUMNS)
    && b + |COLUMNS| + |STDIN| <= |line| && HasAt(line, |line| - |STDIN|, STDIN)
  }

  lemma {:induction false} NameEndIs(s: string, i: nat, e: nat)
    requires i <= e <= |s| && (forall k :: i <= k < e ==> Continues(s[k])) && (e < |s| ==> !Continues(s[e]))
    ensures NameEnd(s, i) == e
    decreases e - i
  {
    if i < e {
      NameEndIs(s, i + 1, e);
    }
  }

  /** A name that stands at i and is followed by something that does not go on with it is cut out there. */
  lemma NameIs(s: string, i: nat, name: string)
    requires IsName(name) && HasAt(s, i, name) && (i + |name| < |s| ==> !Continues(s[i + |name|]))
    ensures NameEnd(s, i) == i + |name| && s[i..i + |name|] == name
  {
    forall k | i <= k < i + |name|
      ensures Continues(s[k])
    {
      assert s[k] == name[k - i];
    }
    NameEndIs(s, i, i + |name|);
  }

  lemma HeaderMarks(line: string, a: nat, b: nat)
    requires HasAt(line, a, ".") && HasAt(line, b, COLUMNS)
    ensures line[a] == '.' && line[b] == ' ' && !Continues(line[a]) && !Continues(line[b])
  {
    assert "."[0] == '.' && COLUMNS[0] == ' ';
  }

  /** A line is read as the header of a table exactly when it is one. */
  lemma HeaderReadsBack(line: string, n: Name)
    requires ValidName(n) && IsHeader(line, n)
    ensures Header(line) == Some(n)
  {
    var a := |COPY| + |n.schema|;
    var b := a + 1 + |n.table|;
    HeaderMarks(line, a, b);
    NameIs(line, |COPY|, n.schema);
    NameIs(line, a + 1, n.table);
  }

  lemma HeaderMeansHeader(line: string)
    requires Header(line).Some?
    ensures ValidName(Header(line).value) && IsHeader(line, Header(line).value)
  {
  }

  predicate Letter(c: char) { c == '_' || 'a' <= c <= 'z' }

  /** A small letter or underscore c, and any number of these and of digits. */
  ghost predicate NameCut(s: string, c: char, rest: string) {
    s == [c] + rest && Letter(c) && forall k :: 0 <= k < |rest| ==> Letter(rest[k]) || '0' <= rest[k] <= '9'
  }

  ghost predicate MatchesName(s: string) { exists c, rest :: NameCut(s, c, rest) }

  lemma NameOfCut(s: string, c: char, rest: string)
    requires NameCut(s, c, rest)
    ensures IsName(s)
  {
    forall i | 0 < i < |s|
      ensures s[i] == rest[i - 1]
    {
    }
  }

  lemma NameExactly(s: string)
    ensures IsName(s) <==> MatchesName(s)
  {
    if IsName(s) {
      assert NameCut(s, s[0], s[1..]);
    }
    if c, rest :| NameCut(s, c, rest) {
      NameOfCut(s, c, rest);
    }
  }

  lemma HasAtIs(s: string, i: nat, pre: string)
    ensures HasAt(s, i, pre) <==> i + |pre| <= |s| && s[i..i + |pre|] == pre
  {
    if i + |pre| <= |s| && s[i..i + |pre|] == pre {
      forall y | i <= y < i + |pre|
        ensures s[y] == pre[y - i]
      {
        assert s[y] == s[i..i + |pre|][y - i];
      }
    }
  }

  /** The line as the program's pattern matches it, piece by piece. */
  ghost predicate HeaderCut(line: string, n: Name, columns: string) {
    line == COPY + n.schema + "." + n.table + COLUMNS + columns + STDIN && MatchesName(n.schema) && MatchesName(n.table)
  }

  lemma HeaderOfCut(line: string, n: Name, columns: string)
    requires HeaderCut(line, n, columns)
    ensures Header(line) == Some(n)
  {
    NameExactly(n.schema);
    NameExactly(n.table);
    CutIsHeader(line, n, columns);
    HeaderReadsBack(line, n);
  }

  lemma CutIsHeader(line: string, n: Name, columns: string)
    requires line == COPY + n.schema + "." + n.table + COLUMNS + columns + STDIN
    ensures IsHeader(line, n)
  {
    Pieces(line, COPY, n.schema, ".", n.table, COLUMNS, columns, STDIN);
  }

  /** A text that is put together has each piece in its place. */
  lemma Pieces(line: string, x: string, s: string, d: string, t: string, y: string, c: string, z: string)
    requires line == x + s + d + t + y + c + z
    ensures HasAt(line, 0, x) && HasAt(line, |x|, s) && HasAt(line, |x + s|, d) && HasAt(line, |x + s + d|, t)
    ensures HasAt(line, |x + s + d + t|, y) && HasAt(line, |line| - |z|, z)
  {
    PieceAt("", x, s + d + t + y + c + z, line);
    PieceAt(x, s, d + t + y + c + z, line);
    PieceAt(x + s, d, t + y + c + z, line);
    PieceAt(x + s + d, t, y + c + z, line);
    PieceAt(x + s + d + t, y, c + z, line);
    PieceAt(x + s + d + t + y + c, z, "", line);
  }

  lemma PieceAt(before: string, piece: string, behind: string, line: string)
    requires line == before + piece + behind
    ensures HasAt(line, |before|, piece)
  {
  }

  lemma HeaderIsCut(line: string, n: Name) returns (columns: string)
    requires IsHeader(line, n)
    ensures line == COPY + n.schema + "." + n.table + COLUMNS + columns + STDIN
  {
    columns := Between(line, COPY, n.schema, ".", n.table, COLUMNS, STDIN);
  }

  /** And pieces in their places make up the text. */
  lemma Between(line: string, x: string, s: string, d: string, t: string, y: string, z: string) returns (c: string)
    requires HasAt(line, 0, x) && HasAt(line, |x|, s) && HasAt(line, |x| + |s|, d) && HasAt(line, |x| + |s| + |d|, t)
    requires HasAt(line, |x| + |s| + |d| + |t|, y) && |x| + |s| + |d| + |t| + |y| + |z| <= |line|
    requires HasAt(line, |line| - |z|, z)
    ensures line == x + s + d + t + y + c + z
  {
    var b := |x| + |s| + |d| + |t| + |y|;
    c := line[b..|line| - |z|];
    var k := ThreeFront(line, x, s, d);
    FrontIs(line, x + s + d, k, t);
    FrontIs(line, x + s + d + t, k + |t|, y);
    HasAtIs(line, |line| - |z|, z);
    Closed(line, x + s + d + t + y, c, z);
  }

  lemma Closed(line: string, front: string, c: string, z: string)
    requires |front| + |z| <= |line| && line[..|front|] == front && line[|line| - |z|..] == z
    requires c == line[|front|..|line| - |z|]
    ensures line == front + c + z
  {
    assert line == line[..|front|] + line[|front|..|line| - |z|] + line[|line| - |z|..];
  }

  lemma ThreeFront(line: string, x: string, s: string, d: string) returns (k: nat)
    requires HasAt(line, 0, x) && HasAt(line, |x|, s) && HasAt(line, |x| + |s|, d)
    ensures k == |x| + |s| + |d| == |x + s + d| <= |line| && line[..k] == x + s + d
  {
    HasAtIs(line, 0, x);
    FrontIs(line, x, |x|, s);
    FrontIs(line, x + s, |x| + |s|, d);
    k := |x| + |s| + |d|;
  }

  lemma FrontIs(line: string, front: string, k: nat, piece: string)
    requires k == |front| <= |line| && line[..k] == front && HasAt(line, k, piece)
    ensures k + |piece| == |front + piece| <= |line| && line[..k + |piece|] == front + piece
  {
    HasAtIs(line, k, piece);
    assert line[..k + |piece|] == line[..k] + line[k..k + |piece|];
  }

  /** A line is read as the header of a table exactly if the program's pattern matches it with these names,
      however it is cut. */
  lemma HeaderExactly(line: string, n: Name)
    ensures Header(line) == Some(n) <==> exists columns :: HeaderCut(line, n, columns)
  {
    NameExactly(n.schema);
    NameExactly(n.table);
    if Header(line) == Some(n) {
      HeaderMeansHeader(line);
      var columns := HeaderIsCut(line, n);
      assert HeaderCut(line, n, columns);
    }
    if columns :| HeaderCut(line, n, columns) {
      HeaderOfCut(line, n, columns);
    }
  }

  // ----- the scanner -----

  /** Where the scan stands: the counts so far and the table whose rows are being read. */
  datatype Scan = Scan(counts: map<Name, nat>, table: Option<Name>)

  predicate Sensible(s: Scan) { s.table.Some? ==> s.table.value in s.counts }

  function Step(s: Scan, line: string): (t: Scan)
    requires Sensible(s)
    ensures Sensible(t)
  {
    match s.table
    case Some(name) =>
      if line == END then s.(table := None) else s.(counts := s.counts[name := s.counts[name] + 1])
    case None =>
      match Header(line)
      case Some(name) => Scan(s.counts[name := 0], Some(name))
      case None => s
  }

  function ScanAll(s: Scan, lines: seq<string>): (t: Scan)
    requires Sensible(s)
    ensures Sensible(t)
    decreases |lines|
  {
    if lines == [] then s else ScanAll(Step(s, lines[0]), lines[1..])
  }

  lemma {:induction false} ScanConcat(s: Scan, xs: seq<string>, ys: seq<string>)
    requires Sensible(s)
    ensures ScanAll(s, xs + ys) == ScanAll(ScanAll(s, xs), ys)
    decreases |xs|
  {
    if xs == [] {
      assert xs + ys == ys;
    } else {
      assert (xs + ys)[1..] == xs[1..] + ys;
      ScanConcat(Step(s, xs[0]), xs[1..], ys);
    }
  }

  const APPLICATION: set<string> := {"hub_data", "user_service", "admin_data"}

  function Kept(counts: map<Name, nat>): map<Name, nat> { map n | n in counts && n.schema in APPLICATION :: counts[n] }

  /** The counts of the application tables, or nothing for a dump that ends inside a block. */
  method DumpRowCounts(lines: seq<string>) returns (r: Option<map<Name, nat>>)
    ensures var s := ScanAll(Scan(map[], None), lines); r == if s.table.Some? then None else Some(Kept(s.counts))
  {
    var counts: map<Name, nat>, table: Option<Name> := map[], None;
    for i := 0 to |lines|
      invariant Sensible(Scan(counts, table)) && Scan(counts, table) == ScanAll(Scan(map[], None), lines[..i])
    {
      var line := lines[i];
      ghost var before := Scan(counts, table);
      if table.Some? {
        if line == END {
          table := None;
        } else {
          counts := counts[table.value := counts[table.value] + 1];
        }
      } else {
        var name := Header(line);
        if name.Some? {
          table := name;
          counts := counts[name.value := 0];
        }
      }
      ScanConcat(Scan(map[], None), lines[..i], [line]);
      assert lines[..i + 1] == lines[..i] + [line];
    }
    assert lines[..|lines|] == lines;
    r := if table.Some? then None else Some(Kept(counts));
  }

  // ----- the layout it inverts -----

  /** A dump: ordinary lines and COPY blocks in any order. */
  datatype Part = Text(line: string) | Block(name: Name, head: string, rows: seq<string>)

  predicate WellFormed(p: Part) {
    match p
    case Text(line) => Header(line).None?
    case Block(name, head, rows) => ValidName(name) && IsHeader(head, name) && END !in rows
  }

  function Printed(p: Part): seq<string> {
    match p
    case Text(line) => [line]
    case Block(name, head, rows) => [head] + rows + [END]
  }

  function Layout(parts: seq<Part>): seq<string> {
    if parts == [] then [] else Layout(parts[..|parts| - 1]) + Printed(parts[|parts| - 1])
  }

  /** The number of rows of a table: those of its last block. */
  function Rows(parts: seq<Part>, name: Name): Option<nat> {
    if parts == [] then None
    else
      var last := parts[|parts| - 1];
      if last.Block? && last.name == name then Some(|last.rows|) else Rows(parts[..|parts| - 1], name)
  }

  lemma {:induction false} ScanRows(s: Scan, rows: seq<string>)
    requires s.table.Some? && Sensible(s) && END !in rows
    ensures ScanAll(s, rows) == s.(counts := s.counts[s.table.value := s.counts[s.table.value] + |rows|])
    decreases |rows|
  {
    if rows != [] {
      ScanRows(Step(s, rows[0]), rows[1..]);
    }
  }

  lemma ScanOne(s: Scan, line: string)
    requires Sensible(s)
    ensures ScanAll(s, [line]) == Step(s, line)
  {
    assert [line][1..] == [];
  }

  lemma ScanBlock(s: Scan, p: Part)
    requires s.table.None? && p.Block? && WellFormed(p)
    ensures ScanAll(s, Printed(p)) == Scan(s.counts[p.name := |p.rows|], None)
  {
    var inside := Scan(s.counts[p.name := 0], Some(p.name));
    HeaderReadsBack(p.head, p.name);
    ScanConcat(s, [p.head] + p.rows, [END]);
    ScanConcat(s, [p.head], p.rows);
    ScanOne(s, p.head);
    ScanRows(inside, p.rows);
    ScanOne(ScanAll(inside, p.rows), END);
  }

  /** The scan stands outside every block and has counted the rows of these parts. */
  ghost predicate Counts(s: Scan, parts: seq<Part>) {
    s.table.None? && forall n: Name :: Rows(parts, n) == if n in s.counts then Some(s.counts[n]) else None
  }

  lemma ScanPart(s: Scan, front: seq<Part>, last: Part)
    requires Counts(s, front) && WellFormed(last)
    ensures Counts(ScanAll(s, Printed(last)), front + [last])
  {
    assert (front + [last])[..|front|] == front;
    if last.Block? {
      ScanBlock(s, last);
    } else {
      ScanOne(s, last.line);
    }
  }

  lemma LayoutLast(parts: seq<Part>, front: seq<Part>, last: Part, s: Scan)
    requires parts == front + [last] && WellFormed(last) && front == parts[..|parts| - 1] && last == parts[|parts| - 1]
    requires s == ScanAll(Scan(map[], None), Layout(front)) && Counts(s, front)
    ensures Counts(ScanAll(Scan(map[], None), Layout(parts)), parts)
  {
    ScanConcat(Scan(map[], None), Layout(front), Printed(last));
    ScanPart(s, front, last);
  }

  lemma {:induction false} ScanLayout(parts: seq<Part>)
    requires forall p :: p in parts ==> WellFormed(p)
    ensures Counts(ScanAll(Scan(map[], None), Layout(parts)), parts)
    decreases |parts|
  {
    if parts != [] {
      var front, last := parts[..|parts| - 1], parts[|parts| - 1];
      ScanLayout(front);
      assert parts == front + [last] && last in parts;
      LayoutLast(parts, front, last, ScanAll(Scan(map[], None), Layout(front)));
    }
  }

  /** Whatever the order and the text between the blocks, the count of each application table is the
      number of rows of its block, and no other table is reported. */
  lemma CountsInvertLayout(parts: seq<Part>, name: Name)
    requires forall p :: p in parts ==> WellFormed(p)
    ensures var s := ScanAll(Scan(map[], None), Layout(parts));
            s.table.None? && (name in Kept(s.counts) <==> name.schema in APPLICATION && Rows(parts, name).Some?) &&
            (name in Kept(s.counts) ==> Kept(s.counts)[name] == Rows(parts, name).value)
  {
    ScanLayout(parts);
  }
}
