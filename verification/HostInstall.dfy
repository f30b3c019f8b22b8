/** The host bootstrap transaction: ownership of every managed file is journalled before the file is
    written, so that an install may be killed anywhere and run again. What is durable changes by the steps
    of a state machine; a method of the class may stop between any two of them, as a kill or a failing
    command makes it do. */
module HostInstall {
  import opened Wrappers
  import Runs

  type Bytes = seq<nat>

  type Digest = Bytes -> nat

  datatype File = File(content: Bytes, mode: nat)

  datatype Record = Record(sha: nat, mode: nat)

  datatype Status = Installing | Installed | RollingBack | RolledBack

  datatype Journal = Journal(status: Status, files: map<string, Record>)

  /** A managed file in the order of the plan. */
  datatype Planned = Planned(path: string, file: File)

  function Rank(j: Option<Journal>): nat {
    if j.None? then 0 else match j.value.status
      case Installing => 1
      case Installed => 2
      case RollingBack => 3
      case RolledBack => 4
  }

  predicate DistinctPaths(plan: seq<Planned>) { forall i, j :: 0 <= i < j < |plan| ==> plan[i].path != plan[j].path }

  function Paths(plan: seq<Planned>): set<string> { set p | p in plan :: p.path }

  function RecordOf(digest: Digest, f: File): Record { Record(digest(f.content), f.mode) }

  type Records = map<string, Record>

  type Disk = map<string, File>

  /** Every managed file on disk is the one its record in the journal describes. */
  predicate Owned(digest: Digest, j: Option<Journal>, disk: Disk) {
    forall p :: p in disk ==> j.Some? && p in j.value.files && j.value.files[p] == RecordOf(digest, disk[p])
  }

  /** The file is not there yet, or its record is the planned one. */
  predicate Fits(digest: Digest, disk: Disk, p: Planned) {
    p.path in disk ==> RecordOf(digest, disk[p.path]) == RecordOf(digest, p.file)
  }

  /** The records after those of the files are written ahead in turn. */
  function Recorded(digest: Digest, records: Records, files: seq<Planned>): Records {
    if files == [] then records
    else
      var n := |files| - 1;
      Recorded(digest, records, files[..n])[files[n].path := RecordOf(digest, files[n].file)]
  }

  /** The disk after the files are published in turn where none is there. */
  function Laid(disk: Disk, files: seq<Planned>): Disk {
    if files == [] then disk
    else
      var n := |files| - 1;
      var d := Laid(disk, files[..n]);
      if files[n].path in d then d else d[files[n].path := files[n].file]
  }

  function FilesOf(j: Option<Journal>): Records { if j.None? then map[] else j.value.files }

  lemma {:induction false} RecordedIs(digest: Digest, records: Records, files: seq<Planned>)
    requires DistinctPaths(files)
    ensures Recorded(digest, records, files).Keys == records.Keys + Paths(files)
    ensures forall p :: p in files ==> Recorded(digest, records, files)[p.path] == RecordOf(digest, p.file)
    ensures forall q :: q in records && q !in Paths(files) ==> Recorded(digest, records, files)[q] == records[q]
    decreases |files|
  {
    if files != [] {
      var n := |files| - 1;
      RecordedIs(digest, records, files[..n]);
      PathsAppend(files[..n], files[n]);
      assert files == files[..n] + [files[n]];
      OneMoreRecorded(digest, Recorded(digest, records, files[..n]), files, n);
    }
  }

  lemma OneMoreRecorded(digest: Digest, r: Records, files: seq<Planned>, n: nat)
    requires |files| == n + 1 && DistinctPaths(files) && Paths(files[..n]) <= r.Keys
    requires forall p :: p in files[..n] ==> r[p.path] == RecordOf(digest, p.file)
    ensures var r' := r[files[n].path := RecordOf(digest, files[n].file)];
            forall p :: p in files ==> p.path in r' && r'[p.path] == RecordOf(digest, p.file)
  {
    assert files == files[..n] + [files[n]];
    forall p | p in files[..n]
      ensures p.path != files[n].path && p.path in r
    {
      var k :| 0 <= k < n && files[..n][k] == p;
      assert p.path in Paths(files[..n]);
    }
  }

  lemma {:induction false} LaidIs(disk: Disk, files: seq<Planned>)
    requires DistinctPaths(files)
    ensures Laid(disk, files).Keys == disk.Keys + Paths(files)
    ensures forall q :: q in disk ==> Laid(disk, files)[q] == disk[q]
    ensures forall p :: p in files && p.path !in disk ==> Laid(disk, files)[p.path] == p.file
    decreases |files|
  {
    if files != [] {
      var n := |files| - 1;
      LaidIs(disk, files[..n]);
      PathsAppend(files[..n], files[n]);
      assert files == files[..n] + [files[n]];
      OneMoreLaid(disk, Laid(disk, files[..n]), files, n);
    }
  }

  lemma OneMoreLaid(disk: Disk, d: Disk, files: seq<Planned>, n: nat)
    requires |files| == n + 1 && DistinctPaths(files) && d.Keys == disk.Keys + Paths(files[..n])
    requires forall p :: p in files[..n] && p.path !in disk ==> d[p.path] == p.file
    ensures var p := files[n]; var r := if p.path in d then d else d[p.path := p.file];
            forall p :: p in files && p.path !in disk ==> p.path in r && r[p.path] == p.file
  {
    assert files == files[..n] + [files[n]];
    forall p | p in files[..n]
      ensures p.path != files[n].path
    {
      var k :| 0 <= k < n && files[..n][k] == p;
    }
  }

  lemma PathsAppend(files: seq<Planned>, p: Planned)
    ensures Paths(files + [p]) == Paths(files) + {p.path}
  {
    assert forall q :: q in files + [p] <==> q in files || q == p;
  }

  /** The journal still describes every file after a record is written ahead exactly when the file is not
      there yet or has that very record: a second attempt that computes other bytes for a file that is
      there leaves a journal its own disk contradicts. */
  lemma WriteAheadIsSafe(digest: Digest, j: Journal, disk: Disk, p: Planned)
    requires Owned(digest, Some(j), disk)
    ensures Owned(digest, Some(j.(files := Recorded(digest, j.files, [p]))), disk) <==> Fits(digest, disk, p)
  {
    assert Recorded(digest, j.files, [p]) == j.files[p.path := RecordOf(digest, p.file)] by {
      assert [p][..0] == [];
    }
  }

  /** A second attempt that breaks the journal: the first one had published [1] under the name for which the
      second one computes [2]. */
  lemma SecondAttemptBreaks(digest: Digest)
    requires digest([1]) != digest([2])
    ensures var j := Journal(Installing, map["a" := RecordOf(digest, File([1], 0))]);
            var disk: Disk := map["a" := File([1], 0)];
            Owned(digest, Some(j), disk) &&
            !Owned(digest, Some(j.(files := Recorded(digest, j.files, [Planned("a", File([2], 0))]))), disk)
  {
    var j := Journal(Installing, map["a" := RecordOf(digest, File([1], 0))]);
    WriteAheadIsSafe(digest, j, map["a" := File([1], 0)], Planned("a", File([2], 0)));
  }

  /** What holds of a host that was only ever installed to this plan. */
  predicate SoundFor(digest: Digest, enrolled: bool, j: Option<Journal>, disk: Disk, policy: bool, plan: seq<Planned>) {
    && Owned(digest, j, disk)
    && (forall p :: p in plan && p.path in disk ==> disk[p.path] == p.file)
    && (j.Some? ==> enrolled && j.value.files.Keys <= Paths(plan))
    && disk.Keys <= Paths(plan)
    && (Rank(j) >= 2 ==> disk.Keys == Paths(plan) == j.value.files.Keys && !policy)
  }

  /** An attempt that wrote n records ahead and published m of their files, and no others. */
  predicate Went(digest: Digest, records: Records, disk: Disk, records': Records, disk': Disk, plan: seq<Planned>, n: nat, m: nat) {
    && m <= n <= |plan| && n <= m + 1
    && records' == Recorded(digest, records, plan[..n])
    && disk' == Laid(disk, plan[..m])
  }

  /** After such an attempt the journal describes every file exactly when each record it wrote ahead fitted
      the disk it found; the files it published all had to fit. */
  lemma OwnedAfter(digest: Digest, j: Option<Journal>, disk: Disk, j': Option<Journal>, disk': Disk, plan: seq<Planned>, n: nat, m: nat)
    requires Went(digest, FilesOf(j), disk, FilesOf(j'), disk', plan, n, m) && DistinctPaths(plan)
    requires j'.Some? || disk' == map[]
    requires Owned(digest, j, disk)
    ensures Owned(digest, j', disk') <==> forall k :: 0 <= k < n ==> Fits(digest, disk, plan[k])
  {
    RecordedIs(digest, FilesOf(j), plan[..n]);
    LaidIs(disk, plan[..m]);
    if forall k :: 0 <= k < n ==> Fits(digest, disk, plan[k]) {
      AllFit(digest, j, disk, j', disk', plan, n, m);
    } else {
      var k :| 0 <= k < n && !Fits(digest, disk, plan[k]);
      assert plan[k] in plan[..n] && plan[k].path in disk';
    }
  }

  lemma AllFit(digest: Digest, j: Option<Journal>, disk: Disk, j': Option<Journal>, disk': Disk, plan: seq<Planned>, n: nat, m: nat)
    requires m <= n <= |plan| && (j'.Some? || disk' == map[]) && Owned(digest, j, disk)
    requires FilesOf(j').Keys == FilesOf(j).Keys + Paths(plan[..n]) && disk'.Keys == disk.Keys + Paths(plan[..m])
    requires forall p :: p in plan[..n] ==> FilesOf(j')[p.path] == RecordOf(digest, p.file)
    requires forall q :: q in FilesOf(j) && q !in Paths(plan[..n]) ==> FilesOf(j')[q] == FilesOf(j)[q]
    requires forall q :: q in disk ==> disk'[q] == disk[q]
    requires forall p :: p in plan[..m] && p.path !in disk ==> disk'[p.path] == p.file
    requires forall k :: 0 <= k < n ==> Fits(digest, disk, plan[k])
    ensures Owned(digest, j', disk')
  {
    forall q | q in disk'
      ensures q in FilesOf(j') && FilesOf(j')[q] == RecordOf(digest, disk'[q])
    {
      if q !in disk {
        var p :| p in plan[..m] && p.path == q;
        assert p in plan[..n];
      } else if q in Paths(plan[..n]) {
        var k :| 0 <= k < n && plan[..n][k].path == q;
        assert Fits(digest, disk, plan[k]);
      }
    }
  }

  /** An attempt at the plan the host was installed to keeps it sound. */
  lemma SoundAfter(digest: Digest, e: bool, j: Option<Journal>, disk: Disk, policy: bool,
                   e': bool, j': Option<Journal>, disk': Disk, policy': bool, plan: seq<Planned>, n: nat, m: nat)
    requires Went(digest, FilesOf(j), disk, FilesOf(j'), disk', plan, n, m) && DistinctPaths(plan)
    requires SoundFor(digest, e, j, disk, policy, plan)
    requires j'.Some? || disk' == map[]
    requires j'.Some? ==> e'
    requires Rank(j') >= 2 ==> n == m == |plan| && !policy'
    ensures SoundFor(digest, e', j', disk', policy', plan)
  {
    OwnedAfter(digest, j, disk, j', disk', plan, n, m);
    PlannedStay(disk, plan, m);
    KeysAfter(digest, FilesOf(j), disk, plan, n, m);
  }

  lemma PlannedStay(disk: Disk, plan: seq<Planned>, m: nat)
    requires m <= |plan| && DistinctPaths(plan) && forall p :: p in plan && p.path in disk ==> disk[p.path] == p.file
    ensures forall p :: p in plan && p.path in Laid(disk, plan[..m]) ==> Laid(disk, plan[..m])[p.path] == p.file
  {
    LaidIs(disk, plan[..m]);
    forall p | p in plan && p.path in Laid(disk, plan[..m]) && p.path !in disk
      ensures p in plan[..m]
    {
      var q :| q in plan[..m] && q.path == p.path;
      assert q == p;
    }
  }

  lemma KeysAfter(digest: Digest, records: Records, disk: Disk, plan: seq<Planned>, n: nat, m: nat)
    requires m <= n <= |plan| && DistinctPaths(plan) && records.Keys <= Paths(plan) && disk.Keys <= Paths(plan)
    ensures Recorded(digest, records, plan[..n]).Keys <= Paths(plan) && Laid(disk, plan[..m]).Keys <= Paths(plan)
    ensures n == |plan| ==> Recorded(digest, records, plan[..n]).Keys == Paths(plan)
    ensures m == |plan| ==> Laid(disk, plan[..m]).Keys == Paths(plan)
  {
    RecordedIs(digest, records, plan[..n]);
    LaidIs(disk, plan[..m]);
    PathsWithin(plan, n);
    PathsWithin(plan, m);
    assert plan[..|plan|] == plan;
  }

  lemma PathsWithin(plan: seq<Planned>, n: nat)
    requires n <= |plan|
    ensures Paths(plan[..n]) <= Paths(plan)
  {
    assert forall p :: p in plan[..n] ==> p in plan;
  }

  /** One more file of the attempt. */
  lemma WentOn(digest: Digest, records: Records, disk: Disk, r: Records, d: Disk, plan: seq<Planned>, i: nat, r': Records, d': Disk)
    requires i < |plan| && Went(digest, records, disk, r, d, plan, i, i)
    requires r' == r[plan[i].path := RecordOf(digest, plan[i].file)]
    requires d' == d || (plan[i].path !in d && d' == d[plan[i].path := plan[i].file])
    ensures Went(digest, records, disk, r', d', plan, i + 1, if plan[i].path in d' then i + 1 else i)
  {
    assert plan[..i + 1][..i] == plan[..i];
  }

  // ----- the host as a state machine -----

  datatype World = World(enrolled: bool, journal: Option<Journal>, disk: Disk, policy: bool, copies: map<string, Bytes>)

  /** One durable write, or one call whose moment matters. An administrator may change files at any time. */
  datatype Action =
    | Enroll
    | Begin
    | WriteRecord(p: Planned)
    | Publish(p: Planned)
    | Guard
    | Packages
    | Unguard
    | Complete
    | BeginRollback
    | StopServices
    | Copy(path: string)
    | FinishRollback
    | Edit(disk: Disk)

  predicate Has(j: Option<Journal>, status: Status) { j.Some? && j.value.status == status }

  /** The recorded file is there with its digest. */
  predicate Unchanged(digest: Digest, records: Records, disk: Disk, p: string)
    requires p in records
  {
    p in disk && digest(disk[p].content) == records[p].sha
  }

  /** Every recorded file has a copy with its digest. */
  predicate Copied(digest: Digest, records: Records, copies: map<string, Bytes>) {
    forall p :: p in records ==> p in copies && digest(copies[p]) == records[p].sha
  }

  predicate Enabled(digest: Digest, w: World, a: Action) {
    match a
    case Enroll => !w.enrolled
    case Begin => w.journal.None? && w.enrolled && !w.policy
    case WriteRecord(_) => Has(w.journal, Installing)
    case Publish(p) => Has(w.journal, Installing) && p.path !in w.disk && p.path in w.journal.value.files &&
                       w.journal.value.files[p.path] == RecordOf(digest, p.file)
    case Guard => Has(w.journal, Installing)
    case Packages => Has(w.journal, Installing) && w.policy
    case Unguard => Has(w.journal, Installing)
    case Complete => Has(w.journal, Installing) && !w.policy
    case BeginRollback => Has(w.journal, Installed) && forall p :: p in w.journal.value.files ==> Unchanged(digest, w.journal.value.files, w.disk, p)
    case StopServices => Has(w.journal, RollingBack)
    case Copy(p) => Has(w.journal, RollingBack) && p in w.journal.value.files && p !in w.copies &&
                    Unchanged(digest, w.journal.value.files, w.disk, p)
    case FinishRollback => Has(w.journal, RollingBack) && Copied(digest, w.journal.value.files, w.copies)
    case Edit(_) => true
  }

  function WithStatus(w: World, status: Status): World
    requires w.journal.Some?
  {
    w.(journal := Some(w.journal.value.(status := status)))
  }

  function Next(digest: Digest, w: World, a: Action): World
    requires Enabled(digest, w, a)
  {
    match a
    case Enroll => w.(enrolled := true)
    case Begin => w.(journal := Some(Journal(Installing, map[])))
    case WriteRecord(p) =>
      w.(journal := Some(w.journal.value.(files := w.journal.value.files[p.path := RecordOf(digest, p.file)])))
    case Publish(p) => w.(disk := w.disk[p.path := p.file])
    case Guard => w.(policy := true)
    case Packages => w
    case Unguard => w.(policy := false)
    case Complete => WithStatus(w, Installed)
    case BeginRollback => WithStatus(w, RollingBack)
    case StopServices => w
    case Copy(p) => w.(copies := w.copies[p := w.disk[p].content])
    case FinishRollback => WithStatus(w, RolledBack)
    case Edit(disk) => w.(disk := disk)
  }

  predicate Step(digest: Digest, w: World, a: Action, v: World) { Enabled(digest, w, a) && v == Next(digest, w, a) }

  ghost function Steps(digest: Digest): (World, Action, World) -> bool { (w, a, v) => Step(digest, w, a, v) }

  ghost predicate Behaves(digest: Digest, ws: seq<World>, acts: seq<Action>) { Runs.Behaves(Steps(digest), ws, acts) }

  lemma StepOf(digest: Digest, ws: seq<World>, acts: seq<Action>, i: nat)
    requires Behaves(digest, ws, acts) && i < |acts|
    ensures Step(digest, ws[i], acts[i], ws[i + 1])
  {
    assert Steps(digest)(ws[i], acts[i], ws[i + 1]);
  }

  /** A host nothing was ever installed on. */
  predicate Bare(w: World) { !w.enrolled && w.journal.None? && w.disk == map[] && !w.policy && w.copies == map[] }

  /** A record that does not fit the file that is there. */
  predicate Misfits(digest: Digest, w: World, a: Action) { a.WriteRecord? && !Fits(digest, w.disk, a.p) }

  /** What the journal says of the disk stays true with every step except one: it becomes false exactly when
      a record is written that does not fit. */
  lemma StepKeepsOwned(digest: Digest, w: World, a: Action)
    requires Enabled(digest, w, a) && !a.Edit? && Owned(digest, w.journal, w.disk)
    ensures Owned(digest, Next(digest, w, a).journal, Next(digest, w, a).disk) <==> !Misfits(digest, w, a)
  {
  }

  /** Over every run of installs of any plans, rollbacks and kills: at every moment the journal describes
      every managed file, as long as no record was written that did not fit. */
  lemma {:induction false} JournalDescribes(digest: Digest, ws: seq<World>, acts: seq<Action>, i: nat)
    requires Behaves(digest, ws, acts) && Bare(ws[0]) && i < |ws|
    requires forall k :: 0 <= k < i ==> !acts[k].Edit? && !Misfits(digest, ws[k], acts[k])
    ensures Owned(digest, ws[i].journal, ws[i].disk)
    decreases i
  {
    if i > 0 {
      JournalDescribes(digest, ws, acts, i - 1);
      StepOf(digest, ws, acts, i - 1);
      StepKeepsOwned(digest, ws[i - 1], acts[i - 1]);
    }
  }

  /** And whatever was recorded: every managed file came onto the disk at a moment when its own record was in
      the journal already. */
  lemma {:induction false} FileHadItsRecord(digest: Digest, ws: seq<World>, acts: seq<Action>, i: nat, p: string) returns (k: nat)
    requires Behaves(digest, ws, acts) && Bare(ws[0]) && i < |ws| && p in ws[i].disk
    requires forall m :: 0 <= m < i ==> !acts[m].Edit?
    ensures k < i && acts[k] == Publish(Planned(p, ws[i].disk[p])) && p !in ws[k].disk
    ensures p in FilesOf(ws[k].journal) && FilesOf(ws[k].journal)[p] == RecordOf(digest, ws[i].disk[p])
    decreases i
  {
    StepOf(digest, ws, acts, i - 1);
    if p in ws[i - 1].disk {
      k := FileHadItsRecord(digest, ws, acts, i - 1, p);
    } else {
      k := i - 1;
    }
  }

  predicate Regular(digest: Digest, w: World) {
    && (w.journal.Some? ==> w.enrolled)
    && (w.journal.None? ==> !w.policy)
    && (Rank(w.journal) >= 2 ==> !w.policy)
    && (Has(w.journal, RolledBack) ==> Copied(digest, w.journal.value.files, w.copies))
  }

  lemma StepKeepsRegular(digest: Digest, w: World, a: Action)
    requires Regular(digest, w) && Enabled(digest, w, a)
    ensures var v := Next(digest, w, a);
            && Regular(digest, v) && Rank(w.journal) <= Rank(v.journal)
            && (Rank(w.journal) >= 2 ==> FilesOf(v.journal) == FilesOf(w.journal))
            && forall p :: p in w.copies ==> p in v.copies && v.copies[p] == w.copies[p]
  {
  }

  /** Over every run, whatever an administrator edits: the status only moves on, the records are fixed once
      installed, a copy is never lost or changed, the service policy is there only while installing, and a
      rolled back host has a copy of every recorded file, with its digest. */
  lemma {:induction false} RunIsRegular(digest: Digest, ws: seq<World>, acts: seq<Action>, i: nat, j: nat)
    requires Behaves(digest, ws, acts) && Bare(ws[0]) && i <= j < |ws|
    ensures Regular(digest, ws[j]) && Rank(ws[i].journal) <= Rank(ws[j].journal)
    ensures Rank(ws[i].journal) >= 2 ==> FilesOf(ws[j].journal) == FilesOf(ws[i].journal)
    ensures forall p :: p in ws[i].copies ==> p in ws[j].copies && ws[j].copies[p] == ws[i].copies[p]
    decreases j
  {
    if j > 0 {
      RunIsRegular(digest, ws, acts, if i < j then i else j - 1, j - 1);
      StepOf(digest, ws, acts, j - 1);
      StepKeepsRegular(digest, ws[j - 1], acts[j - 1]);
    }
  }

  /** An administrator may change any file at any moment. */
  lemma EditedAnywhere(digest: Digest, ws: seq<World>, acts: seq<Action>, disk: Disk)
    requires Behaves(digest, ws, acts)
    ensures Behaves(digest, ws + [ws[|acts|].(disk := disk)], acts + [Edit(disk)])
  {
    var w := ws[|acts|];
    assert Steps(digest)(w, Edit(disk), w.(disk := disk));
    Runs.Extend(Steps(digest), ws, acts, Edit(disk), w.(disk := disk));
  }

  // ----- the moments of an attempt -----

  /** What a kill in an attempt at the plan leaves of journal j and disk: some records written ahead, and the
      files of all but at most the last. */
  ghost predicate Stopped(digest: Digest, j: Option<Journal>, disk: Disk, plan: seq<Planned>, w: World) {
    && (j.Some? ==> w.journal.Some?)
    && exists n: nat, m: nat :: Went(digest, FilesOf(j), disk, FilesOf(w.journal), w.disk, plan, n, m)
  }

  ghost predicate AllStopped(digest: Digest, j: Option<Journal>, disk: Disk, plan: seq<Planned>, ws: seq<World>) {
    forall i :: 0 <= i < |ws| ==> Stopped(digest, j, disk, plan, ws[i])
  }

  lemma OneMoreStopped(digest: Digest, j: Option<Journal>, disk: Disk, plan: seq<Planned>, ws: seq<World>, w: World, n: nat, m: nat)
    requires AllStopped(digest, j, disk, plan, ws) && (j.Some? ==> w.journal.Some?)
    requires Went(digest, FilesOf(j), disk, FilesOf(w.journal), w.disk, plan, n, m)
    ensures AllStopped(digest, j, disk, plan, ws + [w])
  {
    assert Stopped(digest, j, disk, plan, w);
  }

  /** If every record of the plan fits the disk that was found, the journal describes it at every moment. */
  lemma OwnedAtEvery(digest: Digest, j: Option<Journal>, disk: Disk, plan: seq<Planned>, w: World)
    requires Stopped(digest, j, disk, plan, w) && DistinctPaths(plan) && Owned(digest, j, disk)
    requires forall k :: 0 <= k < |plan| ==> Fits(digest, disk, plan[k])
    ensures Owned(digest, w.journal, w.disk)
  {
    var n: nat, m: nat :| Went(digest, FilesOf(j), disk, FilesOf(w.journal), w.disk, plan, n, m);
    OwnedAfter(digest, j, disk, w.journal, w.disk, plan, n, m);
  }

  /** The moments of placing one file: none, the record, or the record and then the file. */
  function Placing(digest: Digest, w: World, p: Planned, steps: nat): seq<World>
    requires Has(w.journal, Installing) && (steps > 1 ==> p.path !in w.disk)
  {
    if steps == 0 then []
    else
      var v := Next(digest, w, WriteRecord(p));
      if steps == 1 then [v] else [v, Next(digest, v, Publish(p))]
  }

  function AfterPlacing(digest: Digest, w: World, p: Planned, steps: nat): World
    requires Has(w.journal, Installing) && steps <= 2 && (steps > 1 ==> p.path !in w.disk)
  {
    if steps == 0 then w else Placing(digest, w, p, steps)[steps - 1]
  }

  lemma PlacingStopped(digest: Digest, j: Option<Journal>, disk: Disk, plan: seq<Planned>, w: World, i: nat, steps: nat, ws: seq<World>)
      returns (n: nat, m: nat)
    requires i < |plan| && Has(w.journal, Installing) && steps <= 2 && (steps == 2 ==> plan[i].path !in w.disk)
    requires Went(digest, FilesOf(j), disk, FilesOf(w.journal), w.disk, plan, i, i)
    requires AllStopped(digest, j, disk, plan, ws)
    ensures AllStopped(digest, j, disk, plan, ws + Placing(digest, w, plan[i], steps))
    ensures var v := AfterPlacing(digest, w, plan[i], steps);
            Went(digest, FilesOf(j), disk, FilesOf(v.journal), v.disk, plan, n, m) &&
            (steps > 0 && plan[i].path in v.disk ==> n == m == i + 1)
  {
    var placing := Placing(digest, w, plan[i], steps);
    n, m := i, i;
    if steps == 0 {
      assert ws + placing == ws;
    } else {
      var v := placing[0];
      WentOn(digest, FilesOf(j), disk, FilesOf(w.journal), w.disk, plan, i, FilesOf(v.journal), v.disk);
      n, m := i + 1, if plan[i].path in v.disk then i + 1 else i;
      OneMoreStopped(digest, j, disk, plan, ws, v, n, m);
      if steps == 2 {
        v := placing[1];
        WentOn(digest, FilesOf(j), disk, FilesOf(w.journal), w.disk, plan, i, FilesOf(v.journal), v.disk);
        n, m := i + 1, i + 1;
        OneMoreStopped(digest, j, disk, plan, ws + [placing[0]], v, n, m);
        assert ws + placing == ws + [placing[0]] + [v];
      } else {
        assert ws + placing == ws + [v];
      }
    }
  }

  lemma HistoryStopped(digest: Digest, j: Option<Journal>, disk: Disk, plan: seq<Planned>, i: nat, steps: nat,
                       ws: seq<World>, vs: seq<World>, k: nat) returns (n: nat, m: nat)
    requires i < |plan| && k <= |ws| && ws != [] && steps <= 2
    requires var w := ws[|ws| - 1];
             && Has(w.journal, Installing) && (steps > 1 ==> plan[i].path !in w.disk)
             && Went(digest, FilesOf(j), disk, FilesOf(w.journal), w.disk, plan, i, i)
             && vs == ws + Placing(digest, w, plan[i], steps)
    requires AllStopped(digest, j, disk, plan, ws[k..])
    ensures AllStopped(digest, j, disk, plan, vs[k..])
    ensures var v := vs[|vs| - 1];
            Went(digest, FilesOf(j), disk, FilesOf(v.journal), v.disk, plan, n, m) &&
            (steps > 0 && plan[i].path in v.disk ==> n == m == i + 1)
  {
    var w := ws[|ws| - 1];
    n, m := PlacingStopped(digest, j, disk, plan, w, i, steps, ws[k..]);
    assert vs[k..] == ws[k..] + Placing(digest, w, plan[i], steps);
    assert AfterPlacing(digest, w, plan[i], steps) == vs[|vs| - 1];
  }

  /** The policy file is there at all these moments. */
  predicate PolicyIn(ws: seq<World>, from: int, to: int) { forall i :: 0 <= i < |ws| && from <= i < to ==> ws[i].policy }

  lemma PlacingKeepsPolicy(digest: Digest, w: World, p: Planned, steps: nat, ws: seq<World>)
    requires Has(w.journal, Installing) && steps <= 2 && (steps > 1 ==> p.path !in w.disk) && w.policy
    requires ws != [] && ws[|ws| - 1] == w
    ensures PolicyIn(ws + Placing(digest, w, p, steps), |ws| - 1, |ws| + steps)
  {
  }

  predicate PlacedAt(disk: Disk, p: Planned) { p.path in disk && disk[p.path] == p.file }

  predicate Placed(disk: Disk, plan: seq<Planned>, n: nat)
    requires n <= |plan|
  {
    forall i :: 0 <= i < n ==> PlacedAt(disk, plan[i])
  }

  /** From the i-th on, no name of the plan holds another file. */
  predicate FreeFrom(disk: Disk, plan: seq<Planned>, i: nat) {
    forall k :: i <= k < |plan| && plan[k].path in disk ==> disk[plan[k].path] == plan[k].file
  }

  lemma StillFree(before: Disk, after: Disk, plan: seq<Planned>, i: nat)
    requires i < |plan| && DistinctPaths(plan) && FreeFrom(before, plan, i)
    requires after == before || after == before[plan[i].path := plan[i].file]
    ensures FreeFrom(after, plan, i + 1)
  {
  }

  /** The step was taken since. */
  ghost predicate Took(acts: seq<Action>, since: nat, a: Action) { exists i :: since <= i < |acts| && acts[i] == a }

  /** A copy that is there already is one of the file. */
  predicate CopiesFit(records: Records, disk: Disk, copies: map<string, Bytes>) {
    forall p :: p in records && p in copies && p in disk ==> copies[p] == disk[p].content
  }

  lemma TookEarlier(acts: seq<Action>, since: nat, before: nat, a: Action)
    requires Took(acts, since, a) && before <= since
    ensures Took(acts, before, a)
  {
  }

  predicate Keeps(before: Disk, after: Disk) { forall p :: p in before ==> p in after && after[p] == before[p] }

  lemma OneMorePlaced(before: Disk, after: Disk, plan: seq<Planned>, i: nat)
    requires i < |plan| && Placed(before, plan, i) && Keeps(before, after) && PlacedAt(after, plan[i])
    ensures Placed(after, plan, i + 1)
  {
  }

  // ----- the program -----

  /** How the calls of an operation end: whether no write and no other call fails, whether the packages are
      installed, whether the services start and answer, whether there are no workloads, and whether the
      services stop. */
  datatype Calls = Calls(smooth: bool, packages: bool, services: bool, answers: bool, idle: bool, stops: bool)

  /** No call of a rollback fails; one that is under way does not look for workloads again. */
  predicate Eager(c: Calls, underway: bool) { c.smooth && c.stops && (c.idle || underway) }

  class Host {
    const digest: Digest
    var enrolled: bool
    var journal: Option<Journal>
    var disk: Disk
    var policy: bool
    var copies: map<string, Bytes>
    /** Every world the host has been in and the step taken in each: a kill may come between any two. */
    ghost var past: seq<World>
    ghost var acts: seq<Action>

    constructor (digest: Digest)
      ensures this.digest == digest && Valid() && Bare(Here()) && acts == []
    {
      this.digest := digest;
      enrolled, journal, disk, policy, copies := false, None, map[], false, map[];
      past, acts := [World(false, None, map[], false, map[])], [];
    }

    ghost function Here(): World
      reads this
    {
      World(enrolled, journal, disk, policy, copies)
    }

    ghost predicate Valid()
      reads this
    {
      Behaves(digest, past, acts) && past[|acts|] == Here()
    }

    /** The history only grows. */
    twostate predicate Grown()
      reads this
    {
      old(past) <= past && old(acts) <= acts
    }

    /** Every write is one step of the model, and is logged before the next. */
    ghost method Log(a: Action)
      requires Behaves(digest, past, acts) && Enabled(digest, past[|acts|], a) && Here() == Next(digest, past[|acts|], a)
      modifies this`past, this`acts
      ensures Valid() && past == old(past) + [Here()] && acts == old(acts) + [a]
    {
      assert Steps(digest)(past[|acts|], a, Here());
      Runs.Extend(Steps(digest), past, acts, a, Here());
      past, acts := past + [Here()], acts + [a];
    }

    predicate Sound(plan: seq<Planned>)
      reads this
    {
      SoundFor(digest, enrolled, journal, disk, policy, plan)
    }

    predicate Is(status: Status)
      reads this
    {
      Has(journal, status)
    }

    /** A call that may fail, unless all goes smoothly. */
    method Call(smooth: bool) returns (ok: bool)
      ensures smooth ==> ok
    {
      ok := *;
      ok := ok || smooth;
    }

    /** Publishes a complete file under a name that is free; a name that is taken must hold the same file. */
    method WriteOnce(p: Planned, smooth: bool) returns (ok: bool, ghost published: bool)
      requires Valid() && Is(Installing) && p.path in journal.value.files && journal.value.files[p.path] == RecordOf(digest, p.file)
      modifies this`disk, this`past, this`acts
      ensures Valid()
      ensures disk == if published then old(disk)[p.path := p.file] else old(disk)
      ensures past == old(past) + (if published then [Here()] else []) && acts == old(acts) + (if published then [Publish(p)] else [])
      ensures published ==> p.path !in old(disk)
      ensures ok ==> PlacedAt(disk, p)
      ensures p.path in old(disk) ==> (ok <==> old(disk)[p.path] == p.file)
      ensures p.path !in old(disk) && smooth ==> ok
    {
      published := false;
      if p.path in disk {
        ok := disk[p.path] == p.file;
      } else {
        ok := Call(smooth);
        var linked := Call(false);
        if ok || linked {
          disk := disk[p.path := p.file];
          Log(Publish(p));
          published := true;
        }
      }
    }

    /** One managed file: its record first, then the file, which is only published under a free name. On any
        host whose journal describes its files this stays so exactly if no record was written or the record
        fitted. */
    method Place(p: Planned, smooth: bool) returns (ok: bool, ghost steps: nat)
      requires Valid() && Is(Installing)
      modifies this`journal, this`disk, this`past, this`acts
      ensures Valid() && Is(Installing) && steps <= 2 && (steps > 1 ==> p.path !in old(disk))
      ensures past == old(past) + Placing(digest, old(Here()), p, steps)
      ensures acts == old(acts) + [WriteRecord(p), Publish(p)][..steps]
      ensures ok ==> steps > 0 && PlacedAt(disk, p)
      ensures smooth && (p.path in old(disk) ==> old(disk)[p.path] == p.file) ==> ok
      ensures disk == old(disk) || disk == old(disk)[p.path := p.file]
      ensures old(Owned(digest, journal, disk)) ==>
                (Owned(digest, journal, disk) <==> steps == 0 || Fits(digest, old(disk), p))
    {
      steps := 0;
      ok := Call(smooth);
      if !ok {
        return;
      }
      journal := Some(journal.value.(files := journal.value.files[p.path := RecordOf(digest, p.file)]));
      Log(WriteRecord(p));
      ghost var published;
      ok, published := WriteOnce(p, smooth);
      steps := if published then 2 else 1;
    }

    /** An attempt at the plan is under way that found journal j and disk d, at moment k of the history: n
        records and m files are there, and every moment since is one of its stops. */
    ghost predicate Underway(plan: seq<Planned>, j: Option<Journal>, d: Disk, k: nat, n: nat, m: nat)
      reads this
    {
      && Valid() && Is(Installing) && k <= |past| && AllStopped(digest, j, d, plan, past[k..])
      && Went(digest, FilesOf(j), d, FilesOf(journal), disk, plan, n, m)
    }

    /** The next file of the plan. */
    method PlaceNext(plan: seq<Planned>, i: nat, smooth: bool, ghost j: Option<Journal>, ghost d: Disk, ghost k: nat)
        returns (ok: bool, ghost n: nat, ghost m: nat, ghost steps: nat)
      requires i < |plan| && Underway(plan, j, d, k, i, i)
      modifies this`journal, this`disk, this`past, this`acts
      ensures Underway(plan, j, d, k, n, m) && steps <= 2 && (steps > 1 ==> plan[i].path !in old(disk))
      ensures past == old(past) + Placing(digest, old(Here()), plan[i], steps) && Grown()
      ensures ok ==> n == m == i + 1 && PlacedAt(disk, plan[i])
      ensures disk == old(disk) || disk == old(disk)[plan[i].path := plan[i].file]
      ensures smooth && FreeFrom(old(disk), plan, i) ==> ok
      ensures Keeps(old(disk), disk)
    {
      ghost var ws := past;
      ok, steps := Place(plan[i], smooth);
      n, m := HistoryStopped(digest, j, d, plan, i, steps, ws, past, k);
    }

    /** The files of the plan before a given one, in order, as far as this goes. */
    method PlaceAll(plan: seq<Planned>, upTo: nat, smooth: bool, ghost j: Option<Journal>, ghost d: Disk, ghost k: nat)
        returns (ok: bool, ghost n: nat, ghost m: nat)
      requires Underway(plan, j, d, k, 0, 0) && upTo <= |plan|
      modifies this`journal, this`disk, this`past, this`acts
      ensures Underway(plan, j, d, k, n, m) && Grown()
      ensures ok ==> n == m == upTo && Placed(disk, plan, upTo)
      ensures smooth && DistinctPaths(plan) && FreeFrom(old(disk), plan, 0) ==> ok && FreeFrom(disk, plan, upTo)
    {
      n, m := 0, 0;
      for i := 0 to upTo
        invariant Underway(plan, j, d, k, i, i) && Grown() && n == m == i
        invariant Placed(disk, plan, i)
        invariant smooth && DistinctPaths(plan) && FreeFrom(old(disk), plan, 0) ==> FreeFrom(disk, plan, i)
      {
        ghost var steps, before := 0, disk;
        ok, n, m, steps := PlaceNext(plan, i, smooth, j, d, k);
        if !ok {
          return;
        }
        if DistinctPaths(plan) && FreeFrom(before, plan, i) {
          StillFree(before, disk, plan, i);
        }
        OneMorePlaced(before, disk, plan, i);
      }
      ok := true;
    }

    /** Packages are only installed while the policy file keeps their services from starting. */
    method InstallPackages(c: Calls, ghost plan: seq<Planned>, ghost j: Option<Journal>, ghost d: Disk, ghost k: nat, ghost n: nat)
        returns (ok: bool)
      requires Underway(plan, j, d, k, n, n) && policy
      modifies this`past, this`acts
      ensures Underway(plan, j, d, k, n, n) && past == old(past) + [Here()] && acts == old(acts) + [Packages]
      ensures ok == c.packages
    {
      ghost var ws := past;
      Log(Packages);
      OneMoreStopped(digest, j, d, plan, ws[k..], Here(), n, n);
      assert past[k..] == ws[k..] + [Here()];
      ok := c.packages;
    }

    method SetPolicy(on: bool, ghost plan: seq<Planned>, ghost j: Option<Journal>, ghost d: Disk, ghost k: nat, ghost n: nat, ghost m: nat)
      requires Underway(plan, j, d, k, n, m)
      modifies this`policy, this`past, this`acts
      ensures Underway(plan, j, d, k, n, m) && policy == on
      ensures past == old(past) + [Here()] && acts == old(acts) + [if on then Guard else Unguard]
    {
      ghost var ws := past;
      policy := on;
      Log(if on then Guard else Unguard);
      OneMoreStopped(digest, j, d, plan, ws[k..], Here(), n, m);
      assert past[k..] == ws[k..] + [Here()];
    }

    /** The last file of the plan, with the services kept from starting. */
    method PlaceLast(plan: seq<Planned>, smooth: bool, ghost j: Option<Journal>, ghost d: Disk, ghost k: nat)
        returns (ok: bool, ghost n: nat, ghost m: nat)
      requires plan != [] && policy && Underway(plan, j, d, k, |plan| - 1, |plan| - 1)
      modifies this`journal, this`disk, this`past, this`acts
      ensures Underway(plan, j, d, k, n, m) && Grown()
      ensures ok ==> n == m == |plan| && PlacedAt(disk, plan[|plan| - 1])
      ensures Keeps(old(disk), disk)
      ensures smooth && FreeFrom(old(disk), plan, |plan| - 1) ==> ok
      ensures PolicyIn(past, |old(past)| - 1, |past|)
    {
      ghost var w, ws, steps := Here(), past, 0;
      ok, n, m, steps := PlaceNext(plan, |plan| - 1, smooth, j, d, k);
      PlacingKeepsPolicy(digest, w, plan[|plan| - 1], steps, ws);
    }

    /** First the packages, and then the last file. */
    method BehindPolicy(plan: seq<Planned>, c: Calls, ghost j: Option<Journal>, ghost d: Disk, ghost k: nat)
        returns (ok: bool, ghost n: nat, ghost m: nat)
      requires plan != [] && policy && Underway(plan, j, d, k, |plan| - 1, |plan| - 1)
      modifies this`journal, this`disk, this`past, this`acts
      ensures Underway(plan, j, d, k, n, m) && Grown()
      ensures ok ==> n == m == |plan| && PlacedAt(disk, plan[|plan| - 1])
      ensures Keeps(old(disk), disk)
      ensures |acts| > |old(acts)| && acts[|old(acts)|] == Packages
      ensures ok ==> c.packages
      ensures c.smooth && c.packages && FreeFrom(old(disk), plan, |plan| - 1) ==> ok
      ensures PolicyIn(past, |old(past)| - 1, |past|)
    {
      n, m := |plan| - 1, |plan| - 1;
      ok := InstallPackages(c, plan, j, d, k, n);
      if ok {
        ok, n, m := PlaceLast(plan, c.smooth, j, d, k);
      }
    }

    /** Once the policy file is there it is taken away again, also one an earlier kill left, unless the process
        is killed. */
    method Guarded(plan: seq<Planned>, c: Calls, ghost j: Option<Journal>, ghost d: Disk, ghost k: nat)
        returns (ok: bool, killed: bool, ghost n: nat, ghost m: nat)
      requires plan != [] && policy && Underway(plan, j, d, k, |plan| - 1, |plan| - 1)
      modifies this`journal, this`disk, this`policy, this`past, this`acts
      ensures Underway(plan, j, d, k, n, m) && Grown() && (killed || !policy)
      ensures PolicyIn(past, |old(past)| - 1, |past| - 1)
      ensures ok ==> !killed && n == m == |plan| && PlacedAt(disk, plan[|plan| - 1])
      ensures Keeps(old(disk), disk)
      ensures |acts| > |old(acts)| && acts[|old(acts)|] == Packages
      ensures ok ==> c.packages
      ensures c.smooth && c.packages && FreeFrom(old(disk), plan, |plan| - 1) ==> ok
    {
      ok, n, m := BehindPolicy(plan, c, j, d, k);
      var lives := Call(c.smooth);
      killed := !lives;
      if killed {
        ok := false;
      } else {
        SetPolicy(false, plan, j, d, k, n, m);
      }
    }

    /** Packages and the last file only come while the policy file keeps services from starting. */
    method UnderPolicy(plan: seq<Planned>, c: Calls, ghost j: Option<Journal>, ghost d: Disk, ghost k: nat)
        returns (ok: bool, guarded: bool, killed: bool, ghost n: nat, ghost m: nat)
      requires plan != [] && Underway(plan, j, d, k, |plan| - 1, |plan| - 1)
      modifies this`journal, this`disk, this`policy, this`past, this`acts
      ensures Underway(plan, j, d, k, n, m) && Grown()
      ensures past == old(past) || PolicyIn(past, |old(past)|, |past| - 1)
      ensures !guarded ==> !ok && journal == old(journal) && disk == old(disk)
      ensures guarded && !killed ==> !policy
      ensures ok ==> guarded && !killed && n == m == |plan| && PlacedAt(disk, plan[|plan| - 1])
      ensures Keeps(old(disk), disk)
      ensures ok ==> Took(acts, |old(acts)|, Packages)
      ensures ok ==> c.packages
      ensures c.smooth && c.packages && FreeFrom(old(disk), plan, |plan| - 1) ==> ok
    {
      ok, killed, n, m := false, false, |plan| - 1, |plan| - 1;
      guarded := Call(c.smooth);
      var written := Call(false);
      if guarded || written {
        SetPolicy(true, plan, j, d, k, n, m);
      }
      if guarded {
        ghost var since := |acts|;
        ok, killed, n, m := Guarded(plan, c, j, d, k);
        assert acts[since] == Packages;
      }
    }

    /** Opens the transaction, or finds it open. */
    method Open(smooth: bool, ghost plan: seq<Planned>) returns (ok: bool)
      requires Valid() && (journal.None? || Is(Installing))
      modifies this`enrolled, this`journal, this`past, this`acts
      ensures Valid() && Grown() && FilesOf(journal) == FilesOf(old(journal)) && (old(enrolled) ==> enrolled)
      ensures journal == old(journal) || (old(journal).None? && !policy && enrolled && Is(Installing))
      ensures AllStopped(digest, old(journal), old(disk), plan, past[|old(past)|..])
      ensures Went(digest, FilesOf(old(journal)), old(disk), FilesOf(journal), disk, plan, 0, 0)
      ensures ok ==> Is(Installing)
      ensures old(journal).None? && policy ==> !ok
      ensures smooth && (old(journal).None? ==> !policy) ==> ok
    {
      assert plan[..0] == [];
      ok := journal.Some?;
      if !ok && !policy {
        if !enrolled {
          var written := Call(smooth);
          if !written {
            return;
          }
          enrolled := true;
          Log(Enroll);
          OneMoreStopped(digest, old(journal), disk, plan, [], Here(), 0, 0);
          assert past[|old(past)|..] == [] + [Here()];
        }
        ok := Call(smooth);
        if ok {
          ghost var ws := past;
          journal := Some(Journal(Installing, map[]));
          Log(Begin);
          OneMoreStopped(digest, old(journal), disk, plan, ws[|old(past)|..], Here(), 0, 0);
          assert past[|old(past)|..] == ws[|old(past)|..] + [Here()];
        }
      }
    }

    /** Everything an attempt does after the transaction is open: all files of the plan, the last one after
        the packages. */
    method Lay(plan: seq<Planned>, c: Calls, ghost j: Option<Journal>, ghost d: Disk, ghost k: nat) returns (ok: bool, ghost n: nat, ghost m: nat)
      requires Underway(plan, j, d, k, 0, 0) && plan != []
      modifies this`journal, this`disk, this`policy, this`past, this`acts
      ensures Underway(plan, j, d, k, n, m) && Grown()
      ensures ok ==> n == m == |plan| && !policy && Placed(disk, plan, |plan|) && Took(acts, |old(acts)|, Packages) && c.packages
      ensures c.smooth && c.packages && DistinctPaths(plan) && FreeFrom(old(disk), plan, 0) ==> ok
    {
      ok, n, m := PlaceAll(plan, |plan| - 1, c.smooth, j, d, k);
      if ok {
        ghost var since := |acts|;
        ok, n, m := LayLast(plan, c, j, d, k);
        if ok {
          TookEarlier(acts, since, |old(acts)|, Packages);
        }
      }
    }

    /** The packages and the last file, when all others are there. */
    method LayLast(plan: seq<Planned>, c: Calls, ghost j: Option<Journal>, ghost d: Disk, ghost k: nat) returns (ok: bool, ghost n: nat, ghost m: nat)
      requires plan != [] && Underway(plan, j, d, k, |plan| - 1, |plan| - 1) && Placed(disk, plan, |plan| - 1)
      modifies this`journal, this`disk, this`policy, this`past, this`acts
      ensures Underway(plan, j, d, k, n, m) && Grown()
      ensures ok ==> n == m == |plan| && !policy && Placed(disk, plan, |plan|) && Took(acts, |old(acts)|, Packages) && c.packages
      ensures c.smooth && c.packages && FreeFrom(old(disk), plan, |plan| - 1) ==> ok
    {
      var guarded, killed;
      ok, guarded, killed, n, m := UnderPolicy(plan, c, j, d, k);
      if ok {
        OneMorePlaced(old(disk), disk, plan, |plan| - 1);
      }
    }

    /** Starts the services and records that the install is complete. */
    method Finish(plan: seq<Planned>, c: Calls, ghost j: Option<Journal>, ghost d: Disk, ghost k: nat) returns (done: bool)
      requires Underway(plan, j, d, k, |plan|, |plan|) && !policy
      modifies this`journal, this`past, this`acts
      ensures Valid() && Grown() && AllStopped(digest, j, d, plan, past[k..]) && FilesOf(journal) == FilesOf(old(journal))
      ensures Is(if done then Installed else Installing) && (done ==> c.services) && (c.smooth && c.services ==> done)
    {
      done := Call(c.smooth);
      done := done && c.services;
      if done {
        ghost var ws := past;
        journal := Some(journal.value.(status := Installed));
        Log(Complete);
        OneMoreStopped(digest, j, d, plan, ws[k..], Here(), |plan|, |plan|);
        assert past[k..] == ws[k..] + [Here()];
      }
    }

    /** Opens the transaction, lays the plan out and starts the services. */
    method Attempt(plan: seq<Planned>, c: Calls) returns (done: bool, ghost n: nat, ghost m: nat)
      requires Valid() && (journal.None? || Is(Installing)) && plan != []
      modifies this`enrolled, this`journal, this`disk, this`policy, this`past, this`acts
      ensures Valid() && Grown() && AllStopped(digest, old(journal), old(disk), plan, past[|old(past)|..])
      ensures Went(digest, FilesOf(old(journal)), old(disk), FilesOf(journal), disk, plan, n, m)
      ensures journal.None? ==> old(journal).None? && disk == old(disk)
      ensures Rank(old(journal)) <= Rank(journal) <= 2 && (done <==> Rank(journal) == 2)
      ensures journal.Some? && (old(journal).Some? ==> old(enrolled)) ==> enrolled
      ensures done ==> n == m == |plan| && !policy && Placed(disk, plan, |plan|) && Took(acts, |old(acts)|, Packages) && c.packages && c.services
      ensures old(journal).None? && old(policy) ==> !done && journal.None? && disk == old(disk)
      ensures (c.smooth && c.packages && c.services && DistinctPaths(plan) && FreeFrom(old(disk), plan, 0) &&
               (old(journal).None? ==> !old(policy))) ==> done
    {
      n, m := 0, 0;
      ghost var j, d, k := journal, disk, |past|;
      done := Open(c.smooth, plan);
      if done {
        done, n, m := Lay(plan, c, j, d, k);
      }
      if done {
        done := Finish(plan, c, j, d, k);
      }
    }

    method AttemptSoundly(plan: seq<Planned>, c: Calls) returns (done: bool, ghost n: nat, ghost m: nat)
      requires Valid() && (journal.None? || Is(Installing)) && plan != [] && DistinctPaths(plan)
      modifies this`enrolled, this`journal, this`disk, this`policy, this`past, this`acts
      ensures Valid() && Grown() && AllStopped(digest, old(journal), old(disk), plan, past[|old(past)|..])
      ensures Went(digest, FilesOf(old(journal)), old(disk), FilesOf(journal), disk, plan, n, m)
      ensures Rank(old(journal)) <= Rank(journal) <= 2 && (done <==> Rank(journal) == 2)
      ensures old(Owned(digest, journal, disk)) ==>
                (Owned(digest, journal, disk) <==> forall k :: 0 <= k < n ==> Fits(digest, old(disk), plan[k]))
      ensures old(Sound(plan)) ==> Sound(plan)
      ensures Rank(journal) == 2 ==> !policy && Placed(disk, plan, |plan|) && Took(acts, |old(acts)|, Packages) && c.packages && c.services
      ensures old(journal).None? && old(policy) ==> !done && journal.None? && disk == old(disk)
      ensures c.smooth && c.packages && c.services && FreeFrom(old(disk), plan, 0) && (old(journal).None? ==> !old(policy)) ==> done
    {
      done, n, m := Attempt(plan, c);
      if old(Owned(digest, journal, disk)) {
        OwnedAfter(digest, old(journal), old(disk), journal, disk, plan, n, m);
      }
      if old(Sound(plan)) {
        SoundAfter(digest, old(enrolled), old(journal), old(disk), old(policy), enrolled, journal, disk, policy, plan, n, m);
      }
    }

    /** Installs to any plan, whose last file is written after the packages. At every moment of it the host is
        as one of its stops would leave it. A policy file that was there before is refused. Of a host whose
        journal describes its files this stays so exactly if every record written ahead fitted the disk found,
        and if the whole plan fits, at every moment; a
        host that was only ever installed to this plan stays so, and a later attempt can go on. Done means
        that every planned file is there, however often it was killed before, that none drifted, and that the
        packages were installed; and if no call fails on such a host, it is done. */
    method Install(plan: seq<Planned>, c: Calls) returns (done: bool, ghost n: nat, ghost m: nat)
      requires Valid() && DistinctPaths(plan) && plan != []
      modifies this
      ensures Valid() && Grown() && copies == old(copies)
      ensures Rank(old(journal)) <= Rank(journal) <= (if Rank(old(journal)) > 2 then Rank(old(journal)) else 2)
      ensures AllStopped(digest, old(journal), old(disk), plan, past[|old(past)|..])
      ensures Went(digest, FilesOf(old(journal)), old(disk), FilesOf(journal), disk, plan, n, m)
      ensures old(Rank(journal)) >= 2 ==> past == old(past)
      ensures old(Owned(digest, journal, disk)) ==>
                (Owned(digest, journal, disk) <==> forall k :: 0 <= k < n ==> Fits(digest, old(disk), plan[k]))
      ensures old(Sound(plan)) ==> Sound(plan)
      ensures done || (old(Sound(plan)) && Rank(journal) == 2) ==> Rank(journal) == 2 && Intact()
      ensures done && old(Rank(journal)) < 2 ==> !policy && Placed(disk, plan, |plan|) && Took(acts, |old(acts)|, Packages) && c.packages && c.services
      ensures done ==> c.answers
      ensures old(journal).None? && old(policy) ==> !done && disk == old(disk) && journal.None?
      ensures (c.smooth && c.packages && c.services && c.answers && old(Sound(plan)) && old(Rank(journal)) <= 2 &&
               (old(journal).None? ==> !old(policy))) ==> done
    {
      n, m := 0, 0;
      done := false;
      assert Sound(plan) ==> FreeFrom(disk, plan, 0);
      if journal.None? || Is(Installing) {
        done, n, m := AttemptSoundly(plan, c);
      }
      if Rank(journal) == 2 {
        done := Verify(c);
      }
    }

    /** What a plan that fits promises at every moment of its attempts. */
    lemma FittingPlan(plan: seq<Planned>, j: Option<Journal>, d: Disk, k: nat, i: nat)
      requires k <= i < |past| && AllStopped(digest, j, d, plan, past[k..]) && DistinctPaths(plan) && Owned(digest, j, d)
      requires forall t :: 0 <= t < |plan| ==> Fits(digest, d, plan[t])
      ensures Owned(digest, past[i].journal, past[i].disk)
    {
      assert past[i] == past[k..][i - k];
      OwnedAtEvery(digest, j, d, plan, past[i]);
    }

    /** Every recorded file still has its digest. */
    predicate Undrifted()
      requires journal.Some?
      reads this
    {
      forall p :: p in journal.value.files ==> Unchanged(digest, journal.value.files, disk, p)
    }

    /** Every recorded file has its digest and mode. */
    predicate Intact()
      requires journal.Some?
      reads this
    {
      forall p :: p in journal.value.files ==> p in disk && RecordOf(digest, disk[p]) == journal.value.files[p]
    }

    /** Reports a prepared host if the install is complete, no recorded file drifted, and the services answer. */
    method Verify(c: Calls) returns (ok: bool)
      ensures ok <==> c.answers && Rank(journal) == 2 && Intact()
    {
      ok := c.answers && Is(Installed) && Intact();
    }

    /** Marks the rollback on disk before anything is stopped. */
    method StartRollback(c: Calls) returns (ok: bool)
      requires Valid() && (Is(Installed) || Is(RollingBack)) && Undrifted()
      modifies this`journal, this`past, this`acts
      ensures Valid() && Grown() && journal.Some? && FilesOf(journal) == FilesOf(old(journal))
      ensures if ok then Is(RollingBack) else journal == old(journal)
      ensures ok ==> c.idle || Has(old(journal), RollingBack)
      ensures c.smooth && (c.idle || Has(old(journal), RollingBack)) ==> ok
    {
      ok := Is(RollingBack);
      if !ok {
        ok := Call(c.smooth);
        ok := ok && c.idle;
        if ok {
          journal := Some(journal.value.(status := RollingBack));
          Log(BeginRollback);
        }
      }
    }

    /** Services are only stopped once the rollback is on disk. */
    method StopAll(c: Calls) returns (ok: bool)
      requires Valid() && Is(RollingBack)
      modifies this`past, this`acts
      ensures Valid() && past == old(past) + [Here()] && acts == old(acts) + [StopServices] && ok == c.stops
    {
      Log(StopServices);
      ok := c.stops;
    }

    /** Copies one recorded file under a name that is free, or finds the same copy there. */
    method CopyOne(p: string, smooth: bool) returns (ok: bool)
      requires Valid() && Is(RollingBack) && p in journal.value.files && Unchanged(digest, journal.value.files, disk, p)
      modifies this`copies, this`past, this`acts
      ensures Valid() && Grown()
      ensures forall q :: q in old(copies) ==> q in copies && copies[q] == old(copies)[q]
      ensures ok ==> p in copies && copies[p] == disk[p].content
      ensures smooth && (p in old(copies) ==> old(copies)[p] == disk[p].content) ==> ok
      ensures forall q :: q in copies && q !in old(copies) ==> q == p
    {
      ok := Call(smooth);
      if p in copies {
        ok := ok && copies[p] == disk[p].content;
      } else if ok {
        copies := copies[p := disk[p].content];
        Log(Copy(p));
      }
    }

    /** Copies every recorded file; the rollback is recorded as done only then. */
    method CopyFiles(smooth: bool) returns (ok: bool)
      requires Valid() && Is(RollingBack) && Undrifted()
      modifies this`copies, this`past, this`acts
      ensures Valid() && Grown()
      ensures forall q :: q in old(copies) ==> q in copies && copies[q] == old(copies)[q]
      ensures ok ==> forall p :: p in journal.value.files ==> p in copies && copies[p] == disk[p].content
      ensures smooth && CopiesFit(FilesOf(journal), disk, old(copies)) ==> ok
    {
      var rest := journal.value.files.Keys;
      while rest != {}
        invariant Valid() && Grown() && rest <= journal.value.files.Keys
        invariant forall p :: p in copies && p in rest ==> p in old(copies)
        invariant forall p :: p in journal.value.files.Keys - rest ==> p in copies && copies[p] == disk[p].content
        invariant forall p :: p in old(copies) ==> p in copies && copies[p] == old(copies)[p]
        decreases rest
      {
        var p :| p in rest;
        ok := CopyOne(p, smooth);
        if !ok {
          return;
        }
        rest := rest - {p};
      }
      ok := true;
    }

    /** Stops the services and copies every recorded file, on any host whatever an administrator changed. A
        drifted file is refused before anything is done, and no file is ever removed. Done always means that
        every recorded file has a copy with its digest, also if an earlier rollback had said so; and if no call
        fails and no copy that is there differs, it is done. */
    method Rollback(c: Calls, ghost plan: seq<Planned>) returns (done: bool)
      requires Valid()
      modifies this`journal, this`copies, this`past, this`acts
      ensures Valid() && Grown() && (old(Sound(plan)) ==> Sound(plan))
      ensures journal.None? <==> old(journal).None?
      ensures journal.Some? ==> FilesOf(journal) == FilesOf(old(journal)) && Rank(old(journal)) <= Rank(journal)
      ensures old(journal).None? || Has(old(journal), Installing) ==> !done && past == old(past)
      ensures old(journal).Some? && !old(Undrifted()) ==> !done && past == old(past)
      ensures done ==> Is(RolledBack) && Undrifted()
      ensures done && !Has(old(journal), RolledBack) ==>
                forall p :: p in journal.value.files ==> p in copies && copies[p] == disk[p].content
      ensures done && !Has(old(journal), RolledBack) ==> Took(acts, |old(acts)|, StopServices) && c.stops
      ensures (Eager(c, Has(old(journal), RollingBack)) && Rank(old(journal)) >= 2 && old(Undrifted()) &&
               CopiesFit(FilesOf(old(journal)), disk, old(copies))) ==> done
      ensures done && Bare(past[0]) ==> Copied(digest, journal.value.files, copies)
      ensures forall p :: p in old(copies) ==> p in copies && copies[p] == old(copies)[p]
    {
      done := false;
      if journal.None? || Is(Installing) || !Undrifted() {
        return;
      }
      if Is(RolledBack) {
        done := true;
      } else {
        done := RollBackNow(c);
      }
      if Bare(past[0]) {
        RunIsRegular(digest, past, acts, 0, |acts|);
      }
    }

    method RollBackNow(c: Calls) returns (done: bool)
      requires Valid() && (Is(Installed) || Is(RollingBack)) && Undrifted()
      modifies this`journal, this`copies, this`past, this`acts
      ensures Valid() && Grown() && journal.Some? && FilesOf(journal) == FilesOf(old(journal)) && Rank(old(journal)) <= Rank(journal)
      ensures forall p :: p in old(copies) ==> p in copies && copies[p] == old(copies)[p]
      ensures done ==> Is(RolledBack) && forall p :: p in journal.value.files ==> p in copies && copies[p] == disk[p].content
      ensures done ==> Took(acts, |old(acts)|, StopServices) && c.stops
      ensures Eager(c, Has(old(journal), RollingBack)) && CopiesFit(FilesOf(old(journal)), disk, old(copies)) ==> done
    {
      done := StartRollback(c);
      if done {
        done := StopAndCopy(c);
      }
    }

    method StopAndCopy(c: Calls) returns (done: bool)
      requires Valid() && Is(RollingBack) && Undrifted()
      modifies this`journal, this`copies, this`past, this`acts
      ensures Valid() && Grown() && journal.Some? && FilesOf(journal) == FilesOf(old(journal)) && Rank(old(journal)) <= Rank(journal)
      ensures forall p :: p in old(copies) ==> p in copies && copies[p] == old(copies)[p]
      ensures done ==> Is(RolledBack) && forall p :: p in journal.value.files ==> p in copies && copies[p] == disk[p].content
      ensures |acts| > |old(acts)| && acts[|old(acts)|] == StopServices
      ensures done ==> c.stops
      ensures c.smooth && c.stops && CopiesFit(FilesOf(old(journal)), disk, old(copies)) ==> done
    {
      done := StopAll(c);
      if done {
        done := CopyFiles(c.smooth);
      }
      if done {
        done := Call(c.smooth);
      }
      if done {
        journal := Some(journal.value.(status := RolledBack));
        Log(FinishRollback);
      }
    }

    /** So what is proved of runs holds at every moment a kill may come: this is two of them. */
    lemma RolledBackHasCopiesEver(i: nat)
      requires Valid() && Bare(past[0]) && i < |past| && Has(past[i].journal, RolledBack)
      ensures Copied(digest, FilesOf(past[i].journal), past[i].copies)
    {
      RunIsRegular(digest, past, acts, i, i);
    }

    lemma FileHadItsRecordEver(i: nat, p: string) returns (k: nat)
      requires Valid() && Bare(past[0]) && i < |past| && p in past[i].disk && forall t :: 0 <= t < i ==> !acts[t].Edit?
      ensures k < i && acts[k] == Publish(Planned(p, past[i].disk[p]))
      ensures p in FilesOf(past[k].journal) && FilesOf(past[k].journal)[p] == RecordOf(digest, past[i].disk[p])
    {
      k := FileHadItsRecord(digest, past, acts, i, p);
    }
  }
}
