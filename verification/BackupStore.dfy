/** The closed backup store: a snapshot is staged, verified and published into a new directory, with the
    manifest renamed last; a restore does the same the other way. */
module BackupStore {
  import opened Wrappers

  type Bytes = seq<nat>

  type Directory = map<string, Bytes>

  const MANIFEST := "manifest.json"
  const MAX_FILES := 64
  const MAX_BACKUP_BYTES := 0x100_0000_0000

  datatype Record = Record(name: string, bytes: int, sha: string)

  /** The files a source declares, and its own helper manifest if it has one. */
  datatype Contract = Contract(records: seq<Record>, helper: Option<Record>)

  datatype Manifest = Manifest(contract: Contract, files: seq<Record>)

  // ----- file records -----

  predicate SafeName(s: string) { HasNameForm(s) && !Reserved(s) }

  predicate HasNameForm(s: string) {
    && 1 <= |s| <= 160
    && (forall i :: 0 <= i < |s| ==>
          'a' <= s[i] <= 'z' || 'A' <= s[i] <= 'Z' || '0' <= s[i] <= '9' || (i > 0 && (s[i] == '_' || s[i] == '.' || s[i] == '-')))
  }

  /** The names the store uses itself. */
  predicate Reserved(s: string) { s == MANIFEST || s == "transport.json" || s == "backup.age" || s == "backup.zip" }

  /** A checksum as it is written: 64 hexadecimal digits in lower case. */
  predicate IsSha(s: string) { |s| == 64 && forall i :: 0 <= i < 64 ==> '0' <= s[i] <= '9' || 'a' <= s[i] <= 'f' }

  function Total(records: seq<Record>): int {
    if records == [] then 0 else Total(records[..|records| - 1]) + records[|records| - 1].bytes
  }

  function Names(records: seq<Record>): set<string> { set r | r in records :: r.name }

  predicate Distinct(records: seq<Record>) { forall i, j :: 0 <= i < j < |records| ==> records[i].name != records[j].name }

  predicate Proper(r: Record) { SafeName(r.name) && r.bytes >= 0 && IsSha(r.sha) }

  predicate ValidEntries(records: seq<Record>) {
    && 1 <= |records| <= MAX_FILES && Distinct(records) && Total(records) <= MAX_BACKUP_BYTES
    && forall r :: r in records ==> Proper(r)
  }

  predicate Plain(c: char) { '0' <= c <= '9' || 'A' <= c <= 'Z' || 'a' <= c <= 'z' }

  /** A letter or digit c, and up to 159 more of these, points, underscores and hyphens. */
  ghost predicate NameCut(s: string, c: char, rest: string) {
    && s == [c] + rest && Plain(c) && |rest| < 160
    && forall k :: 0 <= k < |rest| ==> Plain(rest[k]) || rest[k] in {'.', '_', '-'}
  }

  /** Such a name, and none of the four the store uses itself. */
  ghost predicate ArtifactName(s: string) {
    (exists c, rest :: NameCut(s, c, rest)) && s !in ["manifest.json", "transport.json", "backup.age", "backup.zip"]
  }

  /** 64 digits, each a decimal one or a letter from a to f. */
  ghost predicate Checksum(s: string) { |s| == 64 && forall x :: x in s ==> '0' <= x <= '9' || 'a' <= x <= 'f' }

  ghost predicate RecordMay(r: Record) { ArtifactName(r.name) && 0 <= r.bytes && Checksum(r.sha) }

  /** What a list of file records must be: between 1 and 64 of them with different names, at most a tebibyte
      in all, each with a name that can be used, a size and a checksum. */
  ghost predicate Acceptable(records: seq<Record>) {
    && 0 < |records| < 65 && |Names(records)| == |records| && Total(records) <= 0x100_0000_0000
    && forall r :: r in records ==> RecordMay(r)
  }

  lemma NameOfCut(s: string, c: char, rest: string)
    requires NameCut(s, c, rest)
    ensures HasNameForm(s)
  {
    forall i | 0 < i < |s|
      ensures s[i] == rest[i - 1]
    {
    }
  }

  lemma CutOfName(s: string)
    requires HasNameForm(s)
    ensures NameCut(s, s[0], s[1..])
  {
  }

  lemma SafeNameExactly(s: string)
    ensures SafeName(s) <==> ArtifactName(s)
  {
    if HasNameForm(s) {
      CutOfName(s);
    }
    if c, rest :| NameCut(s, c, rest) {
      NameOfCut(s, c, rest);
    }
  }

  lemma IsShaExactly(s: string)
    ensures IsSha(s) <==> Checksum(s)
  {
    if Checksum(s) {
      forall i | 0 <= i < 64
        ensures '0' <= s[i] <= '9' || 'a' <= s[i] <= 'f'
      {
        assert s[i] in s;
      }
    }
  }

  lemma ProperExactly(r: Record)
    ensures Proper(r) <==> RecordMay(r)
  {
    SafeNameExactly(r.name);
    IsShaExactly(r.sha);
  }

  /** Names are distinct exactly if there are as many as records. */
  lemma {:induction false} DistinctCounts(records: seq<Record>)
    ensures |Names(records)| <= |records| && (Distinct(records) <==> |Names(records)| == |records|)
    decreases |records|
  {
    if records != [] {
      var front, last := records[..|records| - 1], records[|records| - 1];
      DistinctCounts(front);
      DistinctLast(records, front, last);
    }
  }

  lemma DistinctLast(records: seq<Record>, front: seq<Record>, last: Record)
    requires records == front + [last]
    ensures Names(records) == Names(front) + {last.name}
    ensures Distinct(records) <==> Distinct(front) && last.name !in Names(front)
  {
    forall i | 0 <= i < |front|
      ensures front[i] == records[i] && front[i] in front
    {
    }
    if last.name in Names(front) {
      var r :| r in front && r.name == last.name;
      var i :| 0 <= i < |front| && front[i] == r;
      assert records[i].name == records[|front|].name;
    }
  }

  lemma ValidEntriesExactly(records: seq<Record>)
    ensures ValidEntries(records) <==> Acceptable(records)
  {
    DistinctCounts(records);
    forall r | r in records
      ensures Proper(r) <==> RecordMay(r)
    {
      ProperExactly(r);
    }
  }

  /** Checks a list of records in one pass; a size limit that is broken in the end may be broken early. */
  method Entries(records: seq<Record>) returns (ok: bool)
    ensures ok <==> ValidEntries(records)
  {
    if !(1 <= |records| <= MAX_FILES) {
      return false;
    }
    var seen: set<string>, total := {}, 0;
    for i := 0 to |records|
      invariant seen == Names(records[..i]) && total == Total(records[..i]) && Distinct(records[..i])
      invariant forall r :: r in records[..i] ==> Proper(r)
    {
      var item := records[i];
      assert records[..i + 1][..i] == records[..i];
      if !Proper(item) {
        assert item in records;
        return false;
      }
      if item.name in seen {
        var j :| 0 <= j < i && records[j].name == item.name;
        return false;
      }
      seen, total := seen + {item.name}, total + item.bytes;
    }
    assert records[..|records|] == records;
    ok := total <= MAX_BACKUP_BYTES;
  }

  // ----- what a verified directory is -----

  /** The digest, and the manifest's reader and printer, which only have to be inverse. */
  datatype Codec = Codec(digest: Bytes -> string, read: Bytes -> Option<Manifest>, write: Manifest -> Bytes)

  ghost predicate Inverse(c: Codec) { forall m :: c.read(c.write(m)) == Some(m) }

  predicate Matches(c: Codec, dir: Directory, r: Record) {
    r.name in dir && |dir[r.name]| == r.bytes && c.digest(dir[r.name]) == r.sha
  }

  function Expected(contract: Contract): seq<Record> {
    contract.records + if contract.helper.Some? then [contract.helper.value] else []
  }

  predicate ValidContract(c: Codec, contract: Contract, dir: Directory) {
    ValidEntries(contract.records) && ValidEntries(Expected(contract)) && forall r :: r in Expected(contract) ==> Matches(c, dir, r)
  }

  predicate Verifies(c: Codec, dir: Directory) {
    && MANIFEST in dir && c.read(dir[MANIFEST]).Some?
    && var m := c.read(dir[MANIFEST]).value;
       ValidContract(c, m.contract, dir) && m.files == Expected(m.contract) && dir.Keys == {MANIFEST} + Names(m.files)
  }

  // ----- staging and publishing -----

  /** Every file of the original is in exactly one of the two directories, unchanged. */
  predicate Conserved(original: Directory, stage: Directory, target: Directory) {
    stage.Keys !! target.Keys && stage + target == original
  }

  datatype Moment = Moment(stage: Directory, target: Option<Directory>)

  class Store {
    const codec: Codec
    var stage: Directory
    var target: Option<Directory>
    ghost var past: seq<Moment>

    constructor (codec: Codec, target: Option<Directory>)
      ensures this.codec == codec && stage == map[] && this.target == target && past == []
    {
      this.codec := codec;
      this.target := target;
      stage, past := map[], [];
    }

    /** A rename that may fail, unless all goes smoothly. */
    method Rename(name: string, smooth: bool) returns (ok: bool)
      requires name in stage && target.Some?
      modifies this`stage, this`target, this`past
      ensures if ok then stage == old(stage) - {name} && target == Some(old(target.value)[name := old(stage)[name]]) &&
                          past == old(past) + [Moment(stage, target)]
              else stage == old(stage) && target == old(target) && past == old(past)
      ensures smooth ==> ok
    {
      ok := *;
      ok := ok || smooth;
      if ok {
        target := Some(target.value[name := stage[name]]);
        stage := stage - {name};
        past := past + [Moment(stage, target)];
      }
    }

    /** What is true at every moment of a publication: nothing is lost or doubled, and the manifest is in
        the target only when everything else is. */
    ghost predicate Careful(original: Directory, m: Moment) {
      m.target.Some? && Conserved(original, m.stage, m.target.value) && (MANIFEST in m.target.value ==> m.target.value == original)
    }

    /** Moves everything but the manifest into the target, in any order; a rename that fails leaves what was
        moved so far. */
    method MoveFiles(smooth: bool, ghost original: Directory) returns (ok: bool)
      requires target.Some? && MANIFEST !in target.value && Careful(original, Moment(stage, target))
      modifies this`stage, this`target, this`past
      ensures target.Some? && MANIFEST !in target.value && Careful(original, Moment(stage, target))
      ensures old(past) <= past && forall m :: m in past[|old(past)|..] ==> Careful(original, m)
      ensures ok ==> stage.Keys <= {MANIFEST}
      ensures smooth ==> ok
    {
      var rest := stage.Keys - {MANIFEST};
      while rest != {}
        invariant target.Some? && rest == stage.Keys - {MANIFEST}
        invariant Careful(original, Moment(stage, target)) && MANIFEST !in target.value
        invariant old(past) <= past && forall m :: m in past[|old(past)|..] ==> Careful(original, m)
        decreases rest
      {
        var name :| name in rest;
        var moved := Rename(name, smooth);
        if !moved {
          return false;
        }
        rest := rest - {name};
      }
      ok := true;
    }

    /** Publishes the stage as a new directory. A directory that exists is refused untouched. */
    method Publish(smooth: bool) returns (ok: bool)
      modifies this`stage, this`target, this`past
      ensures old(past) <= past && forall m :: m in past[|old(past)|..] ==> Careful(old(stage), m)
      ensures old(target.Some?) ==> !ok && target == old(target) && stage == old(stage) && past == old(past)
      ensures old(target.None?) ==> Careful(old(stage), Moment(stage, target))
      ensures ok ==> target == Some(old(stage)) && stage == map[] && MANIFEST in old(stage)
      ensures smooth && old(target).None? && MANIFEST in old(stage) ==> ok
    {
      if target.Some? {
        return false;
      }
      target := Some(map[]);
      past := past + [Moment(stage, target)];
      ok := MoveFiles(smooth, stage);
      if !ok || MANIFEST !in stage {
        return false;
      }
      assert stage.Keys == {MANIFEST};
      ok := Rename(MANIFEST, smooth);
    }

    /** Copies one file block by block, counting and hashing on the way; the target must not exist. It
        works exactly when the bytes are the recorded ones, and then they are all copied. */
    method CopyChecked(from: Directory, name: string, bytes: int, sha: string) returns (ok: bool)
      modifies this`stage
      ensures ok <==> name in from && name !in old(stage) && |from[name]| == bytes && codec.digest(from[name]) == sha
      ensures ok ==> stage == old(stage)[name := from[name]]
      ensures forall n :: n != name ==> (n in stage <==> n in old(stage)) && (n in stage ==> stage[n] == old(stage)[n])
    {
      if name !in from || name in stage {
        return false;
      }
      var data, out: Bytes := from[name], [];
      stage := stage[name := out];
      while |out| < |data|
        invariant |out| <= |data| && out == data[..|out|]
        invariant stage == old(stage)[name := out]
        decreases |data| - |out|
      {
        var many: bool := *;
        var block := if many then data[|out|..] else [data[|out|]];
        if |out| + |block| > bytes {
          return false;
        }
        assert out + block == data[..|out| + |block|];
        out := out + block;
        stage := stage[name := out];
      }
      assert out == data;
      ok := |out| == bytes && codec.digest(out) == sha;
    }

    /** Copies every recorded file into the empty stage. */
    method CopyAll(from: Directory, records: seq<Record>) returns (ok: bool)
      requires stage == map[] && Distinct(records)
      modifies this`stage
      ensures ok <==> forall r :: r in records ==> Matches(codec, from, r)
      ensures ok ==> stage.Keys == Names(records) && forall r :: r in records ==> stage[r.name] == from[r.name]
    {
      for i := 0 to |records|
        invariant stage.Keys == Names(records[..i])
        invariant forall r :: r in records[..i] ==> Matches(codec, from, r) && stage[r.name] == from[r.name]
      {
        var r := records[i];
        assert r in records && r.name !in Names(records[..i]);
        ok := CopyChecked(from, r.name, r.bytes, r.sha);
        if !ok {
          return;
        }
        assert records[..i + 1] == records[..i] + [r];
      }
      assert records[..|records|] == records;
      ok := true;
    }

    /** A verified source directory, staged and published as the new one. */
    method Snapshot(contract: Contract, source: Directory, smooth: bool) returns (ok: bool)
      requires stage == map[] && past == [] && Inverse(codec)
      modifies this
      ensures ok ==> old(target).None? && target.Some? && Verifies(codec, target.value) && HoldsSnapshot(target.value, contract, source)
      ensures old(target).Some? ==> !ok && target == old(target)
      ensures smooth && old(target).None? && ValidContract(codec, contract, source) ==> ok
      ensures forall m :: m in past ==> m.target.Some? && (Verifies(codec, m.target.value) <==> MANIFEST in m.target.value)
    {
      if target.Some? || !ValidContract(codec, contract, source) {
        return false;
      }
      var records := Expected(contract);
      var copied := CopyAll(source, records);
      if !copied {
        return false;
      }
      NotManifest(records);
      stage := stage[MANIFEST := codec.write(Manifest(contract, records))];
      StagedVerifies(codec, stage, source, contract);
      ghost var whole := stage;
      ok := Publish(smooth);
      assert past[0..] == past;
      CarefulVerifies(codec, whole, past);
    }

    /** The directory a snapshot leaves: the recorded files with the bytes of the source, and the manifest. */
    predicate HoldsSnapshot(dir: Directory, contract: Contract, source: Directory)
      reads this
    {
      && dir.Keys == {MANIFEST} + Names(Expected(contract))
      && codec.read(dir[MANIFEST]) == Some(Manifest(contract, Expected(contract)))
      && forall r :: r in Expected(contract) ==> r.name in source && dir[r.name] == source[r.name]
    }

    /** A verified snapshot, copied and published somewhere else: the same manifest and the same bytes. */
    method Restore(source: Directory, smooth: bool) returns (ok: bool)
      requires stage == map[] && past == []
      modifies this
      ensures ok ==> old(target).None? && target == Some(source) && Verifies(codec, source)
      ensures old(target).Some? ==> !ok && target == old(target)
      ensures smooth && old(target).None? && Verifies(codec, source) ==> ok
      ensures forall m :: m in past ==> m.target.Some? && (Verifies(codec, m.target.value) <==> MANIFEST in m.target.value)
    {
      if target.Some? || !Verifies(codec, source) {
        return false;
      }
      var manifest := codec.read(source[MANIFEST]).value;
      var copied := CopyAll(source, manifest.files);
      if !copied {
        return false;
      }
      NotManifest(manifest.files);
      var last := CopyChecked(source, MANIFEST, |source[MANIFEST]|, codec.digest(source[MANIFEST]));
      if !last {
        return false;
      }
      assert stage == source by { SameFiles(stage, source, manifest.files); }
      ghost var whole := stage;
      ok := Publish(smooth);
      assert past[0..] == past;
      CarefulVerifies(codec, whole, past);
    }
  }

  lemma NotManifest(records: seq<Record>)
    requires ValidEntries(records)
    ensures MANIFEST !in Names(records)
  {
  }

  lemma SameFiles(a: Directory, b: Directory, records: seq<Record>)
    requires a.Keys == b.Keys == {MANIFEST} + Names(records) && a[MANIFEST] == b[MANIFEST]
    requires forall r :: r in records ==> a[r.name] == b[r.name]
    ensures a == b
  {
    forall n | n in a
      ensures a[n] == b[n]
    {
    }
  }

  lemma StagedVerifies(c: Codec, dir: Directory, source: Directory, contract: Contract)
    requires Inverse(c) && ValidContract(c, contract, source)
    requires dir.Keys == {MANIFEST} + Names(Expected(contract)) && dir[MANIFEST] == c.write(Manifest(contract, Expected(contract)))
    requires forall r :: r in Expected(contract) ==> dir[r.name] == source[r.name]
    ensures Verifies(c, dir)
  {
  }

  /** Whenever the publication of a verified stage is cut short, the target verifies exactly if it already
      has the manifest, and then it is whole. */
  lemma CarefulVerifies(c: Codec, whole: Directory, past: seq<Moment>)
    requires Verifies(c, whole)
    requires forall m :: m in past ==> m.target.Some? && (MANIFEST in m.target.value ==> m.target.value == whole)
    ensures forall m :: m in past ==> (Verifies(c, m.target.value) <==> MANIFEST in m.target.value)
  {
  }
}
