/** Pinning the image registry and tag in an environment file: the text is split into lines, lines are
    edited in place, and the rest of the text stays as it was. */
module Environment {
  import opened Wrappers
  import Chars

  /** A line of the file, and whether a newline ends it. */
  datatype Line = Line(text: string, ended: bool)

  const REGISTRY_KEY := "IMAGE_REGISTRY"
  const TAG_KEY := "IMAGE_TAG"
  const REGISTRY := "ghcr.io/we-meet-trip"

  predicate IsTagChar(c: char) { Chars.IsUrl(c) || c == '.' }

  /** A tag that names one release. */
  predicate ValidTag(tag: string) { HasTagForm(tag) && !Moves(tag) }

  predicate HasTagForm(tag: string) {
    1 <= |tag| <= 128 && tag[0] != '.' && tag[0] != '-' && forall k :: 0 <= k < |tag| ==> IsTagChar(tag[k])
  }

  /** Names that stand for whatever was released last. */
  predicate Moves(tag: string) { tag == "latest" || tag == "develop" || tag == "master" }

  predicate Word(c: char) { c == '_' || Chars.IsLetter(c) || Chars.IsDigit(c) }

  /** A letter, digit or underscore c, and up to 127 more of these, points and hyphens. */
  ghost predicate TagCut(tag: string, c: char, rest: string) {
    tag == [c] + rest && Word(c) && |rest| < 128 && forall k :: 0 <= k < |rest| ==> Word(rest[k]) || rest[k] == '.' || rest[k] == '-'
  }

  /** Such a tag, and none of the three moving names. */
  ghost predicate NamesRelease(tag: string) {
    (exists c, rest :: TagCut(tag, c, rest)) && tag !in ["latest", "develop", "master"]
  }

  lemma FormOfCut(tag: string, c: char, rest: string)
    requires TagCut(tag, c, rest)
    ensures HasTagForm(tag)
  {
    forall k | 0 <= k < |tag|
      ensures IsTagChar(tag[k])
    {
      assert k > 0 ==> tag[k] == rest[k - 1];
    }
  }

  lemma CutOfForm(tag: string)
    requires HasTagForm(tag)
    ensures TagCut(tag, tag[0], tag[1..])
  {
    assert IsTagChar(tag[0]);
    forall k | 0 <= k < |tag| - 1
      ensures Word(tag[1..][k]) || tag[1..][k] == '.' || tag[1..][k] == '-'
    {
      assert IsTagChar(tag[k + 1]);
    }
  }

  lemma ValidTagExactly(tag: string)
    ensures ValidTag(tag) <==> NamesRelease(tag)
  {
    if HasTagForm(tag) {
      CutOfForm(tag);
    }
    if c, rest :| TagCut(tag, c, rest) {
      FormOfCut(tag, c, rest);
    }
  }

  // ----- text and lines -----

  /** No newline in the text. */
  predicate Clean(text: string) { forall k :: 0 <= k < |text| ==> text[k] != '\n' }

  function LineEnd(text: string): (n: nat)
    ensures n <= |text| && (n < |text| ==> text[n] == '\n')
    ensures forall k :: 0 <= k < n ==> text[k] != '\n'
  {
    if text == "" || text[0] == '\n' then 0
    else 1 + LineEnd(text[1..])
  }

  function Split(text: string): seq<Line> {
    if text == "" then []
    else if LineEnd(text) == |text| then [Line(text, false)]
    else [Line(text[..LineEnd(text)], true)] + Split(text[LineEnd(text) + 1..])
  }

  function Print(lines: seq<Line>): string {
    if lines == [] then "" else lines[0].text + (if lines[0].ended then "\n" else "") + Print(lines[1..])
  }

  /** Lines as a text has them: only the last one may lack its newline, and it is not empty then. */
  predicate WellEnded(lines: seq<Line>) {
    && (forall i :: 0 <= i < |lines| ==> Clean(lines[i].text))
    && (forall i :: 0 <= i < |lines| && !lines[i].ended ==> i == |lines| - 1 && lines[i].text != "")
  }

  lemma PrintFirst(line: Line, rest: seq<Line>)
    requires line.ended || (rest == [] && line.text != "")
    requires WellEnded(rest) && Clean(line.text)
    ensures Print([line] + rest) == line.text + (if line.ended then "\n" else "") + Print(rest)
    ensures WellEnded([line] + rest)
  {
    var lines := [line] + rest;
    assert lines[1..] == rest;
    forall i | 0 <= i < |lines|
      ensures Clean(lines[i].text) && (lines[i].ended || (i == |lines| - 1 && lines[i].text != ""))
    {
      if i > 0 {
        assert lines[i] == rest[i - 1];
      }
    }
  }

  /** A first line and its newline are split off. */
  lemma SplitAt(first: string, rest: string)
    requires Clean(first)
    ensures Split(first + "\n" + rest) == [Line(first, true)] + Split(rest)
  {
    var text := first + "\n" + rest;
    assert text[|first|] == '\n' && forall k :: 0 <= k < |first| ==> text[k] == first[k];
    assert text[..|first|] == first && text[|first| + 1..] == rest;
  }

  lemma SplitOne(text: string)
    requires Clean(text) && text != ""
    ensures Split(text) == [Line(text, false)]
  {
  }

  lemma PrintLine(text: string, first: string, rest: string)
    requires Clean(first) && text == first + "\n" + rest && Print(Split(rest)) == rest && WellEnded(Split(rest))
    ensures Print(Split(text)) == text && WellEnded(Split(text))
  {
    PrintFirst(Line(first, true), Split(rest));
    SplitAt(first, rest);
  }

  lemma PrintLast(text: string)
    requires Clean(text)
    ensures Print(Split(text)) == text && WellEnded(Split(text))
  {
    if text != "" {
      SplitOne(text);
      PrintFirst(Line(text, false), []);
    }
  }

  lemma FirstLine(text: string) returns (first: string, rest: string)
    requires LineEnd(text) < |text|
    ensures Clean(first) && text == first + "\n" + rest && |rest| < |text|
  {
    first, rest := text[..LineEnd(text)], text[LineEnd(text) + 1..];
  }

  lemma {:induction false} PrintSplit(text: string)
    ensures Print(Split(text)) == text && WellEnded(Split(text))
    decreases |text|
  {
    if LineEnd(text) < |text| {
      var first, rest := FirstLine(text);
      PrintSplit(rest);
      PrintLine(text, first, rest);
    } else {
      PrintLast(text);
    }
  }

  lemma {:induction false} SplitPrint(lines: seq<Line>)
    requires WellEnded(lines)
    ensures Split(Print(lines)) == lines
  {
    if lines != [] {
      var text, line := Print(lines), lines[0];
      SplitPrint(lines[1..]);
      if line.ended {
        assert text == line.text + "\n" + Print(lines[1..]);
        SplitAt(line.text, Print(lines[1..]));
      } else {
        assert lines == [line] && text == line.text;
      }
    }
  }

  // ----- one key -----

  /** The line assigns the key: spaces, the key, spaces and an equals sign. */
  predicate Assigns(text: string, key: string) {
    var a := Chars.RunEnd(Chars.Space, text, 0);
    && a + |key| <= |text| && text[a..a + |key|] == key
    && var b := Chars.RunEnd(Chars.Space, text, a + |key|);
       b < |text| && text[b] == '='
  }

  function Assignment(key: string, value: string): Line { Line(key + "=" + value, true) }

  /** The first line that assigns the key, or the number of lines. */
  function At(lines: seq<Line>, key: string): (i: nat)
    ensures i <= |lines| && (i < |lines| ==> Assigns(lines[i].text, key))
    ensures forall k :: 0 <= k < i ==> !Assigns(lines[k].text, key)
  {
    if lines == [] || Assigns(lines[0].text, key) then 0 else 1 + At(lines[1..], key)
  }

  /** No two lines assign the key. */
  predicate AtMostOne(lines: seq<Line>, key: string) {
    forall i, j :: 0 <= i < j < |lines| && Assigns(lines[i].text, key) ==> !Assigns(lines[j].text, key)
  }

  lemma AtIs(lines: seq<Line>, key: string, i: nat)
    requires AtMostOne(lines, key) && i < |lines| && Assigns(lines[i].text, key)
    ensures At(lines, key) == i
  {
    var k := At(lines, key);
    assert k <= i && Assigns(lines[k].text, key);
  }

  /** The file with its last line ended. */
  function Ended(lines: seq<Line>): seq<Line> {
    if lines == [] then [] else lines[|lines| - 1 := lines[|lines| - 1].(ended := true)]
  }

  function Put(lines: seq<Line>, key: string, value: string): seq<Line> {
    if At(lines, key) == |lines| then Ended(lines) + [Assignment(key, value)]
    else lines[At(lines, key) := Assignment(key, value)]
  }

  /** An ordinary key: one that no space can run into and whose assignment is read back as it. */
  predicate Plain(key: string) { key != "" && !Chars.IsSpace(key[0]) }

  lemma AssignmentAssigns(key: string, value: string)
    requires Plain(key)
    ensures Assigns(Assignment(key, value).text, key)
  {
    var text := key + "=" + value;
    assert text[0] == key[0] && text[|key|] == '=' && text[..|key|] == key;
  }

  predicate AllSpaces(text: string, i: nat, e: nat) {
    i <= e <= |text| && forall y :: i <= y < e ==> Chars.IsSpace(text[y])
  }

  /** The text cut into spaces, the key up to e, spaces, and an equals sign at b with anything behind it. */
  predicate AssignsCut(text: string, key: string, e: nat, b: nat) {
    && |key| <= e <= b < |text| && text[e - |key|..e] == key && text[b] == '='
    && AllSpaces(text, 0, e - |key|) && AllSpaces(text, e, b)
  }

  /** Reading from the left finds an assignment exactly if the line can be cut so anywhere. */
  lemma AssignsExactly(text: string, key: string)
    requires Plain(key)
    ensures Assigns(text, key) <==> exists e: nat, b: nat :: AssignsCut(text, key, e, b)
  {
    var a := Chars.RunEnd(Chars.Space, text, 0);
    if Assigns(text, key) {
      Chars.RunChars(Chars.Space, text, 0);
      Chars.RunChars(Chars.Space, text, a + |key|);
      assert AssignsCut(text, key, a + |key|, Chars.RunEnd(Chars.Space, text, a + |key|));
    }
    forall e: nat, b: nat | AssignsCut(text, key, e, b)
      ensures Assigns(text, key)
    {
      assert text[e - |key|] == key[0];
      Chars.RunEndIs(Chars.Space, text, 0, e - |key|);
      Chars.RunEndIs(Chars.Space, text, e, b);
    }
  }

  /** Neither key is read in an assignment of the other. */
  lemma KeysDiffer(value: string)
    ensures !Assigns(Assignment(REGISTRY_KEY, value).text, TAG_KEY)
    ensures !Assigns(Assignment(TAG_KEY, value).text, REGISTRY_KEY)
  {
    var r, t := Assignment(REGISTRY_KEY, value).text, Assignment(TAG_KEY, value).text;
    assert r[0] == t[0] == 'I' && r[6] == 'R' && t[6] == 'T';
    assert TAG_KEY[6] == 'T' && REGISTRY_KEY[6] == 'R';
    assert r[0..9][6] == 'R';
    assert |t| >= 14 ==> t[0..14][6] == 'T';
  }

  // ----- what one key's update does -----

  const KEYS: seq<string> := [REGISTRY_KEY, TAG_KEY]

  predicate Ours(text: string) { Assigns(text, REGISTRY_KEY) || Assigns(text, TAG_KEY) }

  /** The lines in order, without those of the two keys. */
  function Rest(lines: seq<Line>): seq<string> {
    if lines == [] then []
    else
      var n := |lines| - 1;
      Rest(lines[..n]) + if Ours(lines[n].text) then [] else [lines[n].text]
  }

  lemma {:induction false} RestAppend(xs: seq<Line>, ys: seq<Line>)
    ensures Rest(xs + ys) == Rest(xs) + Rest(ys)
    decreases |ys|
  {
    if ys == [] {
      assert xs + ys == xs;
    } else {
      var n := |ys| - 1;
      assert (xs + ys)[..|xs + ys| - 1] == xs + ys[..n];
      RestAppend(xs, ys[..n]);
    }
  }

  lemma {:induction false} RestEnded(lines: seq<Line>)
    ensures Rest(Ended(lines)) == Rest(lines)
  {
    if lines != [] {
      assert Ended(lines)[..|lines| - 1] == lines[..|lines| - 1];
    }
  }

  lemma RestReplaced(lines: seq<Line>, i: nat, put: Line)
    requires i < |lines| && Ours(lines[i].text) && Ours(put.text)
    ensures Rest(lines[i := put]) == Rest(lines)
  {
    var front, back := lines[..i], lines[i + 1..];
    assert lines == front + [lines[i]] + back && lines[i := put] == front + [put] + back;
    RestAppend(front + [lines[i]], back);
    RestAppend(front, [lines[i]]);
    RestAppend(front + [put], back);
    RestAppend(front, [put]);
  }

  lemma RestPut(lines: seq<Line>, key: string, value: string)
    requires key in KEYS
    ensures Rest(Put(lines, key, value)) == Rest(lines)
  {
    AssignmentAssigns(key, value);
    if At(lines, key) == |lines| {
      RestEnded(lines);
      RestAppend(Ended(lines), [Assignment(key, value)]);
    } else {
      RestReplaced(lines, At(lines, key), Assignment(key, value));
    }
  }

  lemma AtFirst(lines: seq<Line>, key: string, i: nat)
    requires i < |lines| && Assigns(lines[i].text, key) && forall k :: 0 <= k < i ==> !Assigns(lines[k].text, key)
    ensures At(lines, key) == i
  {
  }

  /** After the update the key has its line where it had it before, or at the end, and says the value. */
  lemma PutReads(lines: seq<Line>, key: string, value: string)
    requires Plain(key)
    ensures var r, i := Put(lines, key, value), At(lines, key);
            i < |r| && At(r, key) == i && r[i] == Assignment(key, value)
  {
    AssignmentAssigns(key, value);
    AtFirst(Put(lines, key, value), key, At(lines, key));
  }

  lemma PutText(lines: seq<Line>, key: string, value: string)
    ensures var r := Put(lines, key, value);
            && |lines| <= |r| <= |lines| + 1 && (|r| > |lines| ==> At(lines, key) == |lines|)
            && (At(lines, key) < |lines| ==> r[At(lines, key)] == Assignment(key, value))
            && forall k :: 0 <= k < |lines| && k != At(lines, key) ==>
                 r[k].text == lines[k].text && (lines[k].ended ==> r[k] == lines[k])
  {
  }

  /** Only the line that was put assigns the key. */
  lemma PutOnlyThere(lines: seq<Line>, key: string, value: string, i: nat)
    requires AtMostOne(lines, key) && i < |Put(lines, key, value)| && i != At(lines, key)
    ensures !Assigns(Put(lines, key, value)[i].text, key)
  {
    PutText(lines, key, value);
    if Assigns(lines[i].text, key) {
      AtIs(lines, key, i);
    }
  }

  lemma PutKeepsItsOne(lines: seq<Line>, key: string, value: string)
    requires AtMostOne(lines, key)
    ensures AtMostOne(Put(lines, key, value), key)
  {
    var r := Put(lines, key, value);
    forall i, j | 0 <= i < j < |r| && Assigns(r[i].text, key)
      ensures !Assigns(r[j].text, key)
    {
      if i != At(lines, key) {
        PutOnlyThere(lines, key, value, i);
      } else {
        PutOnlyThere(lines, key, value, j);
      }
    }
  }

  /** A change that leaves the lines of a key where they are. */
  predicate SameLines(lines: seq<Line>, r: seq<Line>, key: string) {
    && |lines| <= |r|
    && (forall i :: 0 <= i < |lines| ==> (Assigns(r[i].text, key) <==> Assigns(lines[i].text, key)))
    && (forall i :: |lines| <= i < |r| ==> !Assigns(r[i].text, key))
  }

  lemma PutKeepsOther(lines: seq<Line>, key: string, value: string, other: string)
    requires !Assigns(Assignment(key, value).text, other)
    requires forall i :: 0 <= i < |lines| && Assigns(lines[i].text, key) ==> !Assigns(lines[i].text, other)
    ensures SameLines(lines, Put(lines, key, value), other)
  {
    PutText(lines, key, value);
    var r, a := Put(lines, key, value), At(lines, key);
    forall i | 0 <= i < |lines|
      ensures Assigns(r[i].text, other) <==> Assigns(lines[i].text, other)
    {
      if i != a {
        assert r[i].text == lines[i].text;
      }
    }
  }

  lemma SameOne(lines: seq<Line>, r: seq<Line>, key: string)
    requires SameLines(lines, r, key)
    ensures AtMostOne(r, key) <==> AtMostOne(lines, key)
  {
    if AtMostOne(r, key) {
      forall i, j | 0 <= i < j < |lines| && Assigns(lines[i].text, key)
        ensures !Assigns(lines[j].text, key)
      {
        assert Assigns(r[i].text, key);
      }
    }
  }

  lemma PutTwice(lines: seq<Line>, key: string, v: string, w: string)
    requires Plain(key)
    ensures Put(Put(lines, key, v), key, w) == Put(lines, key, w)
  {
    PutReads(lines, key, v);
  }

  lemma OneKey(text: string)
    ensures !(Assigns(text, REGISTRY_KEY) && Assigns(text, TAG_KEY))
  {
    var a := Chars.RunEnd(Chars.Space, text, 0);
    assert REGISTRY_KEY[6] == 'R' && TAG_KEY[6] == 'T';
    assert a + 14 <= |text| ==> text[a..a + 14][6] == text[a + 6] == text[a..a + 9][6];
  }

  // ----- the update -----

  predicate Accepted(lines: seq<Line>) { AtMostOne(lines, REGISTRY_KEY) && AtMostOne(lines, TAG_KEY) }

  function Update(lines: seq<Line>, tag: string): seq<Line> {
    Put(Put(lines, REGISTRY_KEY, REGISTRY), TAG_KEY, tag)
  }

  /** What the text of an accepted file becomes. */
  function Updated(text: string, tag: string): string { Print(Update(Split(text), tag)) }

  /** The indices of the lines that assign the key. */
  method FindKey(lines: seq<Line>, key: string) returns (found: seq<nat>)
    ensures |found| <= 1 <==> AtMostOne(lines, key)
    ensures found == [] <==> At(lines, key) == |lines|
    ensures found != [] ==> found[0] == At(lines, key)
  {
    found := [];
    for i := 0 to |lines|
      invariant forall k :: k in found <==> 0 <= k < i && Assigns(lines[k].text, key)
      invariant forall a, b :: 0 <= a < b < |found| ==> found[a] < found[b]
      invariant forall a :: 0 <= a < |found| ==> found[a] < i
    {
      if Assigns(lines[i].text, key) {
        found := found + [i];
      }
    }
    if found != [] {
      assert found[0] in found;
      assert forall k :: 0 <= k < found[0] ==> k !in found;
      AtFirst(lines, key, found[0]);
    }
    if |found| > 1 {
      assert found[0] in found && found[1] in found;
    }
  }

  /** Edits the lines of one key in place, or appends one; a key with two lines is refused. */
  method Set(lines: seq<Line>, key: string, value: string) returns (r: Option<seq<Line>>)
    ensures r == if AtMostOne(lines, key) then Some(Put(lines, key, value)) else None
  {
    var out := lines;
    var found := FindKey(out, key);
    if |found| > 1 {
      return None;
    }
    if found != [] {
      out := out[found[0] := Assignment(key, value)];
    } else {
      if out != [] && !out[|out| - 1].ended {
        out := out[|out| - 1 := out[|out| - 1].(ended := true)];
      }
      assert out == Ended(lines);
      out := out + [Assignment(key, value)];
    }
    r := Some(out);
  }

  /** The whole update of the text: it is refused exactly for a tag that names no release or a key that
      has two lines already. */
  method UpdatedEnvironment(original: string, tag: string) returns (r: Option<string>)
    ensures r == if NamesRelease(tag) && Accepted(Split(original)) then Some(Updated(original, tag)) else None
  {
    ValidTagExactly(tag);
    if !ValidTag(tag) {
      return None;
    }
    var lines := Split(original);
    var first := Set(lines, REGISTRY_KEY, REGISTRY);
    if first.None? {
      return None;
    }
    TagStaysOnce(lines, REGISTRY);
    var second := Set(first.value, TAG_KEY, tag);
    if second.None? {
      return None;
    }
    r := Some(Print(second.value));
  }

  lemma TagStaysOnce(lines: seq<Line>, registry: string)
    requires AtMostOne(lines, REGISTRY_KEY)
    ensures AtMostOne(Put(lines, REGISTRY_KEY, registry), TAG_KEY) <==> AtMostOne(lines, TAG_KEY)
    ensures AtMostOne(Put(lines, REGISTRY_KEY, registry), REGISTRY_KEY)
  {
    KeysDiffer(registry);
    forall i | 0 <= i < |lines| && Assigns(lines[i].text, REGISTRY_KEY)
      ensures !Assigns(lines[i].text, TAG_KEY)
    {
      OneKey(lines[i].text);
    }
    PutKeepsOther(lines, REGISTRY_KEY, registry, TAG_KEY);
    SameOne(lines, Put(lines, REGISTRY_KEY, registry), TAG_KEY);
    PutKeepsItsOne(lines, REGISTRY_KEY, registry);
  }

  lemma RegistryStaysOnce(lines: seq<Line>, tag: string)
    requires Accepted(lines)
    ensures Accepted(Put(lines, TAG_KEY, tag))
  {
    KeysDiffer(tag);
    forall i | 0 <= i < |lines| && Assigns(lines[i].text, TAG_KEY)
      ensures !Assigns(lines[i].text, REGISTRY_KEY)
    {
      OneKey(lines[i].text);
    }
    PutKeepsOther(lines, TAG_KEY, tag, REGISTRY_KEY);
    SameOne(lines, Put(lines, TAG_KEY, tag), REGISTRY_KEY);
    PutKeepsItsOne(lines, TAG_KEY, tag);
  }

  /** The file has exactly one line of the key, and it says the value. */
  predicate Says(lines: seq<Line>, key: string, value: string) {
    AtMostOne(lines, key) && At(lines, key) < |lines| && lines[At(lines, key)] == Assignment(key, value)
  }

  /** Putting one key leaves the line of another where it is. */
  lemma OtherStays(lines: seq<Line>, key: string, value: string, other: string, w: string)
    requires Plain(key) && At(lines, key) < |lines| && lines[At(lines, key)] == Assignment(key, value)
    requires !Assigns(Assignment(key, value).text, other) && !Assigns(Assignment(other, w).text, key)
    ensures var r := Put(lines, other, w); var i := At(lines, key);
            i < |r| && At(r, key) == i && r[i] == Assignment(key, value)
  {
    var i, r := At(lines, key), Put(lines, other, w);
    AssignmentAssigns(key, value);
    PutText(lines, other, w);
    forall k | 0 <= k < i
      ensures !Assigns(r[k].text, key)
    {
      if k != At(lines, other) {
        assert r[k].text == lines[k].text;
      }
    }
    AtFirst(r, key, i);
  }

  // ----- what the update does to the text -----

  /** Editing a key keeps every line a line: the assignment stands behind an ended one. */
  lemma PutWellEnded(lines: seq<Line>, key: string, value: string)
    requires WellEnded(lines) && Clean(key) && Clean(value)
    ensures WellEnded(Put(lines, key, value))
  {
    var line := Assignment(key, value);
    AssignmentIsClean(key, value);
    if At(lines, key) == |lines| {
      AppendWellEnded(lines, line);
    } else {
      ReplaceWellEnded(lines, At(lines, key), line);
    }
  }

  lemma AssignmentIsClean(key: string, value: string)
    requires Clean(key) && Clean(value)
    ensures Clean(Assignment(key, value).text)
  {
  }

  lemma AppendWellEnded(lines: seq<Line>, line: Line)
    requires WellEnded(lines) && line.ended && Clean(line.text)
    ensures WellEnded(Ended(lines) + [line])
  {
  }

  lemma ReplaceWellEnded(lines: seq<Line>, i: nat, line: Line)
    requires WellEnded(lines) && i < |lines| && line.ended && Clean(line.text)
    ensures WellEnded(lines[i := line])
  {
  }

  lemma UpdateWellEnded(lines: seq<Line>, tag: string)
    requires WellEnded(lines) && Clean(tag)
    ensures WellEnded(Update(lines, tag))
  {
    assert Clean(REGISTRY_KEY) && Clean(REGISTRY) && Clean(TAG_KEY);
    PutWellEnded(lines, REGISTRY_KEY, REGISTRY);
    PutWellEnded(Put(lines, REGISTRY_KEY, REGISTRY), TAG_KEY, tag);
  }

  /** The edited lines are the lines of the text written. */
  lemma UpdatedLines(text: string, tag: string)
    requires ValidTag(tag)
    ensures Split(Updated(text, tag)) == Update(Split(text), tag)
  {
    PrintSplit(text);
    UpdateWellEnded(Split(text), tag);
    SplitPrint(Update(Split(text), tag));
  }

  lemma LinesUpdated(lines: seq<Line>, tag: string)
    requires Accepted(lines)
    ensures var r := Update(lines, tag);
            Says(r, REGISTRY_KEY, REGISTRY) && Says(r, TAG_KEY, tag) && Rest(r) == Rest(lines) && Accepted(r)
  {
    var first := Put(lines, REGISTRY_KEY, REGISTRY);
    TagStaysOnce(lines, REGISTRY);
    PutReads(lines, REGISTRY_KEY, REGISTRY);
    RegistryStaysOnce(first, tag);
    PutReads(first, TAG_KEY, tag);
    KeysDiffer(REGISTRY);
    KeysDiffer(tag);
    OtherStays(first, REGISTRY_KEY, REGISTRY, TAG_KEY, tag);
    RestPut(lines, REGISTRY_KEY, REGISTRY);
    RestPut(first, TAG_KEY, tag);
  }

  /** What the text of an accepted file becomes, split again: one line for each key with the new value, all
      other lines kept in order, and it is accepted again. */
  lemma UpdateLaws(text: string, tag: string)
    requires ValidTag(tag) && Accepted(Split(text))
    ensures var r := Split(Updated(text, tag));
            Says(r, REGISTRY_KEY, REGISTRY) && Says(r, TAG_KEY, tag) && Rest(r) == Rest(Split(text)) && Accepted(r)
  {
    UpdatedLines(text, tag);
    LinesUpdated(Split(text), tag);
  }

  lemma PutSame(lines: seq<Line>, key: string, value: string)
    requires At(lines, key) < |lines| && lines[At(lines, key)] == Assignment(key, value)
    ensures Put(lines, key, value) == lines
  {
  }

  lemma UpdateTwice(lines: seq<Line>, t: string, u: string)
    requires Accepted(lines)
    ensures Update(Update(lines, t), u) == Update(lines, u)
  {
    LinesUpdated(lines, t);
    PutSame(Update(lines, t), REGISTRY_KEY, REGISTRY);
    PutTwice(Put(lines, REGISTRY_KEY, REGISTRY), TAG_KEY, t, u);
  }

  /** Updating with one tag and then another writes the text that updating with the other writes. */
  lemma LastTagWins(text: string, t: string, u: string)
    requires ValidTag(t) && Accepted(Split(text))
    ensures Updated(Updated(text, t), u) == Updated(text, u)
  {
    UpdatedLines(text, t);
    UpdateTwice(Split(text), t, u);
  }
}
