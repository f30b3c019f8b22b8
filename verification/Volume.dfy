/** Enrolling one empty disk: the full scan, and the journal that lets it be formatted once and keeps an
    interrupted format quarantined, whatever commands follow and wherever they are killed. */
module Volume {
  import opened Wrappers
  import Runs

  // ----- the scan -----

  datatype ScanError = HoldsData | EndsEarly | TooLong

  datatype Scan = Passed(count: nat) | Refused(error: ScanError)

  predicate AllZero(bytes: seq<nat>) { forall i :: 0 <= i < |bytes| ==> bytes[i] == 0 }

  predicate Empty(disk: seq<nat>, size: nat) { |disk| == size && AllZero(disk) }

  function Least(a: nat, b: nat): nat { if a < b then a else b }

  /** One read of at most n bytes: fewer only at the end of the stream or when the stream chooses to, and
      none only at the end. */
  method ReadSome(stream: seq<nat>, pos: nat, n: nat) returns (chunk: seq<nat>)
    requires pos <= |stream| && n > 0
    ensures |chunk| <= n && pos + |chunk| <= |stream| && chunk == stream[pos..pos + |chunk|]
    ensures chunk == [] <==> pos == |stream|
  {
    var most := Least(n, |stream| - pos);
    var whole: bool := *;
    var k := if whole || most == 0 then most else 1;
    chunk := stream[pos..pos + k];
  }

  /** Every byte is read, whatever the chunks: the scan passes exactly on a disk of the approved size
      that holds nothing but zeros, and otherwise says which of the three is wrong. */
  method ScanStream(stream: seq<nat>, size: nat, chunkSize: nat) returns (r: Scan)
    requires chunkSize > 0
    ensures r.Passed? <==> Empty(stream, size)
    ensures r.Passed? ==> r.count == size
    ensures r == Refused(HoldsData) <==> !AllZero(stream[..Least(size, |stream|)])
    ensures r == Refused(EndsEarly) <==> |stream| < size && AllZero(stream)
    ensures r == Refused(TooLong) <==> |stream| > size && AllZero(stream[..size])
  {
    var count := 0;
    while count < size
      invariant count <= size && count <= |stream| && AllZero(stream[..count])
    {
      var chunk := ReadSome(stream, count, Least(chunkSize, size - count));
      if chunk == [] {
        assert stream[..count] == stream;
        return Refused(EndsEarly);
      }
      if !AllZero(chunk) {
        var k :| 0 <= k < |chunk| && chunk[k] != 0;
        assert stream[..Least(size, |stream|)][count + k] == chunk[k];
        return Refused(HoldsData);
      }
      assert stream[..count + |chunk|] == stream[..count] + chunk;
      count := count + |chunk|;
    }
    var more := ReadSome(stream, count, 1);
    if more != [] {
      return Refused(TooLong);
    }
    assert stream[..size] == stream;
    r := Passed(count);
  }

  // ----- the journal -----

  datatype Status =
    | Formatting
    | LuksCreated
    | FilesystemCreating
    | FilesystemReady
    | Ready
    | Closing
    | Closed
    | QuarantinedClosed

  datatype Journal = Journal(status: Status, closeFrom: Option<Status>)

  /** The statuses from which a close may end in closed. */
  predicate Good(s: Status) { s == Ready || s == FilesystemReady || s == Closed || s == Closing }

  /** What a rollback records as the state it closes from: the first one ever recorded wins. */
  function Previous(j: Journal): Status { if j.closeFrom.Some? then j.closeFrom.value else j.status }

  datatype At =
    | Scanned
    | Journalled
    | Formatted
    | Headed
    | Creating
    | Made
    | Filed
    | Restoring
    | RollingBack
    | Shutting

  /** The command that holds the lock: where it stands and the journal it has in memory. */
  datatype Command = Command(at: At, memory: Journal)

  /** The disk, its approved size, the journal, and the command in progress. */
  datatype World = World(disk: seq<nat>, size: nat, journal: Option<Journal>, command: Option<Command>)

  datatype Action =
    | Prepare
    | WriteFormatting
    | Format(bytes: seq<nat>)
    | WriteLuksCreated
    | WriteCreating
    | MakeFilesystem(bytes: seq<nat>)
    | WriteFilesystemReady
    | WriteReady
    | Restore
    | Rollback
    | WriteClosing
    | WriteClosed
    | Stop
    | Use(bytes: seq<nat>)

  predicate Stands(w: World, at: At) { w.command.Some? && w.command.value.at == at }

  /** The steps of the commands. Checks of the device, the key and the mounts may fail at any point: the
      command then stops, as one that is killed does. */
  predicate Enabled(w: World, a: Action) {
    match a
    case Prepare => w.command.None? && w.journal.None? && Empty(w.disk, w.size)
    case WriteFormatting => Stands(w, Scanned)
    case Format(_) => Stands(w, Journalled)
    case WriteLuksCreated => Stands(w, Formatted)
    case WriteCreating => Stands(w, Headed)
    case MakeFilesystem(_) => Stands(w, Creating)
    case WriteFilesystemReady => Stands(w, Made)
    case WriteReady => Stands(w, Filed) || Stands(w, Restoring)
    case Restore => w.command.None? && w.journal.Some? && Good(w.journal.value.status) && w.journal.value.status != Closing
    case Rollback => w.command.None? && w.journal.Some?
    case WriteClosing => Stands(w, RollingBack)
    case WriteClosed => Stands(w, Shutting)
    case Stop => w.command.Some?
    case Use(_) => w.command.None?
  }

  function Written(w: World, at: At, j: Journal): World { w.(journal := Some(j), command := Some(Command(at, j))) }

  function Next(w: World, a: Action): World
    requires Enabled(w, a)
  {
    match a
    case Prepare => w.(command := Some(Command(Scanned, Journal(Formatting, None))))
    case WriteFormatting => Written(w, Journalled, w.command.value.memory)
    case Format(bytes) => w.(disk := bytes, command := Some(w.command.value.(at := Formatted)))
    case WriteLuksCreated => Written(w, Headed, w.command.value.memory.(status := LuksCreated))
    case WriteCreating => Written(w, Creating, w.command.value.memory.(status := FilesystemCreating))
    case MakeFilesystem(bytes) => w.(disk := bytes, command := Some(w.command.value.(at := Made)))
    case WriteFilesystemReady => Written(w, Filed, w.command.value.memory.(status := FilesystemReady))
    case WriteReady => w.(journal := Some(w.command.value.memory.(status := Ready)), command := None)
    case Restore => w.(command := Some(Command(Restoring, w.journal.value)))
    case Rollback => w.(command := Some(Command(RollingBack, w.journal.value)))
    case WriteClosing =>
      var j := w.command.value.memory;
      Written(w, Shutting, Journal(Closing, Some(Previous(j))))
    case WriteClosed =>
      var j := w.command.value.memory;
      w.(journal := Some(j.(status := if Good(Previous(j)) then Closed else QuarantinedClosed)), command := None)
    case Stop => w.(command := None)
    case Use(bytes) => w.(disk := bytes)
  }

  predicate Step(w: World, a: Action, v: World) { Enabled(w, a) && v == Next(w, a) }

  ghost predicate Behaves(ws: seq<World>, acts: seq<Action>) { Runs.Behaves(Step, ws, acts) }

  /** A disk that was never enrolled. */
  predicate Fresh(w: World) { w.journal.None? && w.command.None? }

  // ----- what every step keeps -----

  /** How far the format of the disk came before anything was closed. */
  function Origin(j: Journal): Status {
    if (j.status == Closing || j.status == Closed || j.status == QuarantinedClosed) && j.closeFrom.Some?
    then j.closeFrom.value else j.status
  }

  predicate Unfinished(s: Status) { s == Formatting || s == LuksCreated || s == FilesystemCreating }

  predicate Finished(s: Status) { s == FilesystemReady || s == Ready }

  predicate JournalSound(j: Journal) {
    && (Unfinished(Origin(j)) || Finished(Origin(j)))
    && (j.closeFrom.Some? ==> (Unfinished(j.closeFrom.value) <==> Unfinished(Origin(j))) &&
                              (Unfinished(j.closeFrom.value) || Finished(j.closeFrom.value)))
    && (Unfinished(Origin(j)) ==> j.status != Closed && (j.closeFrom.Some? ==> !Unfinished(j.status)))
    && (Finished(Origin(j)) ==> j.status != QuarantinedClosed)
    && (j.status == Closing || j.status == Closed || j.status == QuarantinedClosed ==> j.closeFrom.Some?)
  }

  predicate CommandSound(w: World, c: Command) {
    match c.at
    case Scanned => w.journal.None? && Empty(w.disk, w.size) && c.memory == Journal(Formatting, None)
    case Journalled => w.journal == Some(c.memory) && Empty(w.disk, w.size) && c.memory == Journal(Formatting, None)
    case Formatted => w.journal == Some(c.memory) && c.memory == Journal(Formatting, None)
    case Headed => w.journal == Some(c.memory) && c.memory == Journal(LuksCreated, None)
    case Creating => w.journal == Some(c.memory) && c.memory == Journal(FilesystemCreating, None)
    case Made => w.journal == Some(c.memory) && c.memory == Journal(FilesystemCreating, None)
    case Filed => w.journal == Some(c.memory) && c.memory == Journal(FilesystemReady, None)
    case Restoring => w.journal == Some(c.memory) && Finished(Origin(c.memory))
    case RollingBack => w.journal == Some(c.memory)
    case Shutting => w.journal == Some(c.memory) && c.memory.status == Closing
  }

  predicate Sound(w: World) {
    && (w.journal.Some? ==> JournalSound(w.journal.value))
    && (w.command.Some? ==> CommandSound(w, w.command.value))
  }

  lemma StepKeepsSound(w: World, a: Action)
    requires Sound(w) && Enabled(w, a)
    ensures Sound(Next(w, a))
  {
  }

  lemma {:induction false} RunIsSound(ws: seq<World>, acts: seq<Action>, i: nat)
    requires Behaves(ws, acts) && Fresh(ws[0]) && i < |ws|
    ensures Sound(ws[i]) && ws[i].size == ws[0].size
    decreases i
  {
    if i > 0 {
      RunIsSound(ws, acts, i - 1);
      assert Step(ws[i - 1], acts[i - 1], ws[i]);
      StepKeepsSound(ws[i - 1], acts[i - 1]);
    }
  }

  // ----- formatting happens once -----

  /** The disk is enrolled and nobody is about to format it. */
  predicate PastFormat(w: World) { w.journal.Some? && !Stands(w, Scanned) && !Stands(w, Journalled) }

  lemma {:induction false} StaysPastFormat(ws: seq<World>, acts: seq<Action>, i: nat, j: nat)
    requires Behaves(ws, acts) && i <= j < |ws| && PastFormat(ws[i])
    ensures PastFormat(ws[j])
    decreases j
  {
    if i < j {
      StaysPastFormat(ws, acts, i, j - 1);
      assert Step(ws[j - 1], acts[j - 1], ws[j]);
      assert PastFormat(Next(ws[j - 1], acts[j - 1]));
    }
  }

  /** In every run of the commands, with failures and kills anywhere, the disk is formatted at most once,
      then holds exactly the approved number of bytes, all zero, and has formatting in its journal. */
  lemma FormatsOnce(ws: seq<World>, acts: seq<Action>, i: nat)
    requires Behaves(ws, acts) && Fresh(ws[0]) && i < |acts| && acts[i].Format?
    ensures Empty(ws[i].disk, ws[0].size) && ws[i].journal == Some(Journal(Formatting, None))
    ensures forall j :: 0 <= j < |acts| && acts[j].Format? ==> j == i
  {
    RunIsSound(ws, acts, i);
    assert Step(ws[i], acts[i], ws[i + 1]);
    forall j | 0 <= j < |acts| && acts[j].Format?
      ensures j == i
    {
      assert Step(ws[j], acts[j], ws[j + 1]);
      if i < j {
        StaysPastFormat(ws, acts, i + 1, j);
      } else if j < i {
        RunIsSound(ws, acts, j);
        StaysPastFormat(ws, acts, j + 1, i);
      }
    }
  }

  // ----- an interrupted format is quarantined for good -----

  /** Every command was left or killed before the filesystem was recorded as ready, and only closing is
      in progress, if anything. */
  predicate Quarantined(w: World) {
    && w.journal.Some? && Unfinished(Origin(w.journal.value))
    && (w.command.Some? ==> w.command.value.at == RollingBack || w.command.value.at == Shutting)
  }

  predicate Revives(a: Action) {
    a.Restore? || a.WriteReady? || a.Format? || a.MakeFilesystem? || a.WriteFilesystemReady?
  }

  lemma {:induction false} StaysQuarantined(ws: seq<World>, acts: seq<Action>, i: nat, j: nat)
    requires Behaves(ws, acts) && Fresh(ws[0]) && i <= j < |ws| && Quarantined(ws[i])
    ensures Quarantined(ws[j])
    decreases j
  {
    if i < j {
      StaysQuarantined(ws, acts, i, j - 1);
      RunIsSound(ws, acts, j - 1);
      assert Step(ws[j - 1], acts[j - 1], ws[j]);
      StepKeepsSound(ws[j - 1], acts[j - 1]);
      assert Quarantined(ws[j]);
    }
  }

  /** A format that stopped before filesystem_ready was journalled never becomes ready or closed again,
      and no later command restores, formats or finishes it. */
  lemma InterruptedNeverReady(ws: seq<World>, acts: seq<Action>, i: nat, j: nat)
    requires Behaves(ws, acts) && Fresh(ws[0]) && i <= j < |ws|
    requires ws[i].command.None? && ws[i].journal.Some? && Unfinished(ws[i].journal.value.status)
    ensures ws[j].journal.Some? && ws[j].journal.value.status != Ready && ws[j].journal.value.status != Closed
    ensures j < |acts| ==> !Revives(acts[j])
  {
    StaysQuarantined(ws, acts, i, j);
    RunIsSound(ws, acts, j);
    if j < |acts| {
      assert Step(ws[j], acts[j], ws[j + 1]);
    }
  }

  // ----- a finished disk keeps its data -----

  predicate Kept(w: World) {
    && w.journal.Some? && Finished(Origin(w.journal.value))
    && (w.command.Some? ==> w.command.value.at in {Filed, Restoring, RollingBack, Shutting})
  }

  lemma {:induction false} StaysKept(ws: seq<World>, acts: seq<Action>, i: nat, j: nat)
    requires Behaves(ws, acts) && Fresh(ws[0]) && i <= j < |ws| && Kept(ws[i])
    ensures Kept(ws[j])
    decreases j
  {
    if i < j {
      StaysKept(ws, acts, i, j - 1);
      RunIsSound(ws, acts, j - 1);
      assert Step(ws[j - 1], acts[j - 1], ws[j]);
      StepKeepsSound(ws[j - 1], acts[j - 1]);
      assert Kept(ws[j]);
    }
  }

  /** Once the filesystem is recorded as ready, no command changes the disk any more, it is never
      quarantined, and what a rollback closed can be restored. */
  lemma ReadyKeepsItsData(ws: seq<World>, acts: seq<Action>, i: nat, j: nat)
    requires Behaves(ws, acts) && Fresh(ws[0]) && i <= j < |acts|
    requires ws[i].journal.Some? && Finished(ws[i].journal.value.status)
    ensures ws[j].journal.Some? && ws[j].journal.value.status != QuarantinedClosed
    ensures !acts[j].Use? ==> ws[j + 1].disk == ws[j].disk
    ensures ws[j].command.None? && ws[j].journal.value.status == Closed ==> Enabled(ws[j], Restore)
  {
    RunIsSound(ws, acts, i);
    StaysKept(ws, acts, i, j);
    RunIsSound(ws, acts, j);
    assert Step(ws[j], acts[j], ws[j + 1]);
  }

  // ----- the commands as the program performs them -----

  /** How the calls of a command end: the checks of identity and topology, the start of the format and the
      opening of the new header, the mount, the look for workloads and the shutting of the mapping, the checks
      of device, key, mount and filesystem at the end; and the statuses whose write to the journal works. */
  datatype Calls = Calls(checks: bool, began: bool, opens: bool, mounted: bool, idle: bool, shuts: bool, verified: bool,
                         writes: set<Status>)

  /** Every write of a preparation works. */
  predicate AllWritten(c: Calls) { {Formatting, LuksCreated, FilesystemCreating, FilesystemReady, Ready} <= c.writes }

  class Enrollment {
    var disk: seq<nat>
    var journal: Option<Journal>
    const size: nat
    /** Every world passed and the step taken in each: a kill may come between any two. */
    ghost var past: seq<World>
    ghost var acts: seq<Action>

    constructor (disk: seq<nat>, size: nat)
      ensures Valid() && this.disk == disk && this.size == size && Fresh(Now()) && acts == []
    {
      this.disk, this.size, journal := disk, size, None;
      past, acts := [World(disk, size, None, None)], [];
    }

    ghost predicate Valid()
      reads this
    {
      Behaves(past, acts) && past[|acts|] == World(disk, size, journal, past[|acts|].command)
    }

    ghost function Now(): World
      requires Valid()
      reads this
    {
      past[|acts|]
    }

    ghost predicate Idle()
      reads this
    {
      Valid() && Now().command.None?
    }

    /** A command stands there with this journal in memory. */
    ghost predicate Busy(at: At, memory: Journal)
      reads this
    {
      Valid() && Now().command == Some(Command(at, memory))
    }

    /** The history only grows. */
    twostate predicate Grown()
      reads this
    {
      old(past) <= past && old(acts) <= acts
    }

    /** The only way the disk and the journal are written: one step of the model, and both as it leaves them. */
    method Put(disk: seq<nat>, journal: Option<Journal>, ghost a: Action)
      requires Valid() && Enabled(Now(), a) && Next(Now(), a).disk == disk && Next(Now(), a).journal == journal
      modifies this
      ensures Valid() && this.disk == disk && this.journal == journal && Now() == Next(old(Now()), a) && Grown()
    {
      ghost var v := Next(Now(), a);
      assert Step(Now(), a, v);
      Runs.Extend(Step, past, acts, a, v);
      past, acts := past + [v], acts + [a];
      this.disk, this.journal := disk, journal;
    }

    /** A step that writes nothing. */
    ghost method Note(a: Action)
      requires Valid() && Enabled(Now(), a) && Next(Now(), a).disk == disk && Next(Now(), a).journal == journal
      modifies this`past, this`acts
      ensures Valid() && Now() == Next(old(Now()), a) && Grown()
    {
      var v := Next(Now(), a);
      assert Step(Now(), a, v);
      Runs.Extend(Step, past, acts, a, v);
      past, acts := past + [v], acts + [a];
    }

    /** Ready in the journal, and every check of device, key, mount and filesystem passed. */
    method Verify(c: Calls) returns (ok: bool)
      ensures ok <==> c.verified && journal.Some? && journal.value.status == Ready
    {
      ok := c.verified && journal.Some? && journal.value.status == Ready;
    }

    /** The checks of identity, scan and emptiness before the first destructive operation. */
    method MayFormat(c: Calls) returns (ok: bool)
      requires Idle() && journal.None?
      ensures ok <==> c.checks && Empty(disk, size)
      ensures ok ==> Enabled(Now(), Prepare)
    {
      if !c.checks {
        return false;
      }
      var scan := ScanStream(disk, size, 4194304);
      ok := scan.Passed?;
    }

    /** Journals a status, or stops before it is on disk. */
    method Journalize(memory: Journal, c: Calls, ghost a: Action) returns (ok: bool)
      requires Valid() && Now().command.Some? && Enabled(Now(), a)
      requires Next(Now(), a).disk == disk && Next(Now(), a).journal == Some(memory)
      modifies this
      ensures Valid() && Grown() && disk == old(disk) && journal == (if ok then Some(memory) else old(journal))
      ensures Now() == Next(old(Now()), if ok then a else Stop) && (ok <==> memory.status in c.writes)
    {
      ok := memory.status in c.writes;
      if ok {
        Put(disk, Some(memory), a);
      } else {
        Note(Stop);
      }
    }

    /** Formats an empty disk, or verifies an enrolled one. Every world it passes is reached by the model's
        own steps; a disk that was enrolled before keeps its journal and its data. It works
        exactly if the checks at its end pass and the disk is ready already, or is empty and of the approved size
        and no call fails. */
    method PrepareDisk(header: seq<nat>, filesystem: seq<nat>, c: Calls) returns (ok: bool)
      requires Idle()
      modifies this
      ensures Idle() && Grown()
      ensures ok ==> journal.Some? && journal.value.status == Ready
      ensures old(journal).Some? ==> journal == old(journal) && disk == old(disk)
      ensures disk != old(disk) ==> Empty(old(disk), size) && journal.Some?
      ensures ok <==> c.verified && if old(journal).Some? then old(journal).value.status == Ready
                                    else c.checks && Empty(old(disk), size) && c.began && c.opens && AllWritten(c)
      ensures ok && old(journal).None? ==> disk == filesystem
    {
      if journal.Some? {
        ok := Verify(c);
        return;
      }
      ok := MayFormat(c);
      if !ok {
        return;
      }
      Note(Prepare);
      ok := Journalize(Journal(Formatting, None), c, WriteFormatting);
      if ok {
        ok := FormatDisk(header, c);
      }
      if ok {
        ok := MakeAndMount(filesystem, c);
      }
    }

    /** From the durable formatting mark to the header that the key opens. */
    method FormatDisk(header: seq<nat>, c: Calls) returns (ok: bool)
      requires Busy(Journalled, Journal(Formatting, None)) && journal == Some(Journal(Formatting, None))
      modifies this
      ensures Grown()
      ensures if ok then Busy(Headed, Journal(LuksCreated, None)) && journal == Some(Journal(LuksCreated, None))
              else Idle() && journal == Some(Journal(Formatting, None))
      ensures ok <==> c.began && c.opens && LuksCreated in c.writes
      ensures disk == if c.began then header else old(disk)
    {
      if !c.began {
        Note(Stop);
        return false;
      }
      Put(header, journal, Format(header));
      if !c.opens {
        Note(Stop);
        return false;
      }
      ok := Journalize(Journal(LuksCreated, None), c, WriteLuksCreated);
    }

    /** From the opened header to the mounted filesystem: marked before it is made, recorded after. */
    method MakeAndMount(filesystem: seq<nat>, c: Calls) returns (ok: bool)
      requires Busy(Headed, Journal(LuksCreated, None)) && journal == Some(Journal(LuksCreated, None))
      modifies this
      ensures Idle() && Grown() && journal.Some?
      ensures ok ==> journal.value.status == Ready && disk == filesystem
      ensures ok <==> {FilesystemCreating, FilesystemReady, Ready} <= c.writes && c.verified
    {
      ok := Journalize(Journal(FilesystemCreating, None), c, WriteCreating);
      if ok {
        ok := MakeFilesystemOn(filesystem, c);
      }
      if ok {
        ok := Journalize(Journal(Ready, None), c, WriteReady);
        if ok {
          ok := Verify(c);
        }
      }
    }

    method MakeFilesystemOn(filesystem: seq<nat>, c: Calls) returns (ok: bool)
      requires Busy(Creating, Journal(FilesystemCreating, None)) && journal == Some(Journal(FilesystemCreating, None))
      modifies this
      ensures Grown() && journal.Some?
      ensures if ok then Busy(Filed, Journal(FilesystemReady, None)) && journal == Some(Journal(FilesystemReady, None)) else Idle()
      ensures disk == filesystem && (ok <==> FilesystemReady in c.writes)
    {
      Put(filesystem, journal, MakeFilesystem(filesystem));
      ok := Journalize(Journal(FilesystemReady, None), c, WriteFilesystemReady);
    }

    /** Mounts a closed or interrupted but finished disk again; a journal that is not good is refused. */
    method RestoreMount(c: Calls) returns (ok: bool)
      requires Idle()
      modifies this
      ensures Idle() && Grown() && disk == old(disk)
      ensures journal == old(journal) || (journal.Some? && journal.value.status == Ready)
      ensures old(journal).None? || !Good(old(journal).value.status) || old(journal).value.status == Closing ==> !ok && journal == old(journal)
      ensures ok ==> journal.Some? && journal.value.status == Ready
      ensures ok <==> old(journal).Some? && Good(old(journal).value.status) && old(journal).value.status != Closing &&
                      c.mounted && Ready in c.writes && c.verified
    {
      if journal.None? || !Good(journal.value.status) || journal.value.status == Closing {
        return false;
      }
      Note(Restore);
      if !c.mounted {
        Note(Stop);
        return false;
      }
      ok := Journalize(journal.value.(status := Ready), c, WriteReady);
      if ok {
        ok := Verify(c);
      }
    }

    /** Closes the disk; the state it closes from is recorded once and decides between closed and quarantined. */
    method CloseDisk(c: Calls) returns (ok: bool)
      requires Idle()
      modifies this
      ensures Idle() && Grown() && disk == old(disk)
      ensures old(journal).None? ==> !ok && journal.None?
      ensures ok ==> journal == Some(Journal(if Good(Previous(old(journal).value)) then Closed else QuarantinedClosed,
                                             Some(Previous(old(journal).value))))
      ensures !ok ==> journal == old(journal) || journal == Some(Journal(Closing, Some(Previous(old(journal).value))))
      ensures ok <==> old(journal).Some? && c.idle && Closing in c.writes && c.shuts &&
                      (if Good(Previous(old(journal).value)) then Closed else QuarantinedClosed) in c.writes
    {
      if journal.None? {
        return false;
      }
      Note(Rollback);
      var previous := Previous(journal.value);
      if !c.idle {
        Note(Stop);
        return false;
      }
      ok := Journalize(Journal(Closing, Some(previous)), c, WriteClosing);
      if ok {
        ok := Shut(previous, c);
      }
    }

    method Shut(previous: Status, c: Calls) returns (ok: bool)
      requires Busy(Shutting, Journal(Closing, Some(previous))) && journal == Some(Journal(Closing, Some(previous)))
      modifies this
      ensures Idle() && Grown() && disk == old(disk)
      ensures journal == if ok then Some(Journal(if Good(previous) then Closed else QuarantinedClosed, Some(previous))) else old(journal)
      ensures ok <==> c.shuts && (if Good(previous) then Closed else QuarantinedClosed) in c.writes
    {
      if !c.shuts {
        Note(Stop);
        return false;
      }
      ok := Journalize(Journal(if Good(previous) then Closed else QuarantinedClosed, Some(previous)), c, WriteClosed);
    }

    /** So what is proved of runs holds at every moment a kill may come: these are two of them. */
    lemma FormattedOnceEver(i: nat)
      requires Valid() && Fresh(past[0]) && i < |acts| && acts[i].Format?
      ensures Empty(past[i].disk, size) && past[i].journal == Some(Journal(Formatting, None))
      ensures forall j :: 0 <= j < |acts| && acts[j].Format? ==> j == i
    {
      FormatsOnce(past, acts, i);
      RunIsSound(past, acts, |acts|);
    }

    lemma QuarantinedForGood(i: nat)
      requires Idle() && Fresh(past[0]) && i < |past|
      requires past[i].command.None? && past[i].journal.Some? && Unfinished(past[i].journal.value.status)
      ensures journal.Some? && journal.value.status != Ready && journal.value.status != Closed
    {
      InterruptedNeverReady(past, acts, i, |acts|);
    }
  }
}
