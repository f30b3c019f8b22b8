/** One uninterrupted run for one service, as the program performs it: the entry is changed in place,
    the state file is rewritten, and every state it passes is one of the protocol. */
module ArchiveRun {
  import opened Wrappers
  import Runs
  import opened Archive
  import opened ArchiveShip

  /** How the upload call ends: with an answer, without reaching the bucket, or with the answer lost. */
  datatype Reply = Answered | Refused | Lost

  /** What one run meets: the host at each call, the calls that fail, and the end of the upload. */
  datatype Outlook = Outlook(inspect: Host, clock: Host, plan: Host, read: Host, check: Host, fails: set<Phase>, reply: Reply)

  datatype Code = Failed | GapFound | Clean

  /** The window of a run over entry e. */
  function WindowIn(e: Entry, x: Outlook, settle: nat): Window { WindowFrom(e, x.inspect, x.plan.now, settle) }

  ghost function LinesIn(e: Entry, x: Outlook, settle: nat): set<Line> { LinesFrom(WindowIn(e, x, settle), x.read.file) }

  /** Every call of a run over entry e works: the write of a new window, the read of a window that is not
      empty, the look for the line shipped last, and the upload of lines. */
  ghost predicate Ships(e: Entry, x: Outlook, settle: nat) {
    && (e.pending.Some? || Planned !in x.fails)
    && Fetches(Laid(e, x, settle), x.inspect.current, x)
  }

  predicate HasMark(e: Entry) { e.lastLine.Some? && e.lastLine.value != 0 }

  /** The reads of the window laid out in entry e work. */
  predicate Reads(e: Entry, container: nat, x: Outlook)
    requires e.pending.Some?
  {
    var w := e.pending.value;
    && (w.until < w.since || (x.read.current == container && Durable !in x.fails))
    && (HasMark(e) ==> x.check.current == container && HasRead !in x.fails)
  }

  /** And so does the upload. */
  ghost predicate Fetches(e: Entry, container: nat, x: Outlook)
    requires e.pending.Some?
  {
    Reads(e, container, x) && (LinesFrom(e.pending.value, x.read.file) == {} || x.reply == Answered)
  }

  /** The bucket after an upload of the lines; an answer that is lost leaves the object. */
  ghost function After(bucket: map<int, set<Line>>, w: Window, lines: set<Line>, reply: Reply): map<int, set<Line>> {
    if lines == {} || reply == Refused || w.until in bucket then bucket else bucket[w.until := lines]
  }

  /** The entry of a run when its window is laid out. */
  function Laid(e: Entry, x: Outlook, settle: nat): Entry {
    e.(lastLine := Mark(e, x.inspect), pending := Some(WindowIn(e, x, settle)))
  }

  /** The bucket after a run over entry e. */
  ghost function Uploaded(e: Entry, x: Outlook, settle: nat, bucket: map<int, set<Line>>): map<int, set<Line>> {
    if (e.pending.Some? || Planned !in x.fails) && Reads(Laid(e, x, settle), x.inspect.current, x)
    then After(bucket, WindowIn(e, x, settle), LinesIn(e, x, settle), x.reply) else bucket
  }

  /** What the ship has seen of the container, and whether it laid out a new window. */
  datatype Sight = Sight(container: nat, running: bool, isNew: bool)

  datatype Details = Details(lost: bool, behind: bool, baseline: bool, rotated: bool)

  /** Lines are sorted by timestamp before they are shipped, so the last one is the newest. */
  method Newest(lines: set<Line>) returns (newest: Option<int>)
    ensures IsNewest(lines, newest)
  {
    newest := None;
    var rest := lines;
    ghost var done: set<Line> := {};
    while rest != {}
      invariant done + rest == lines
      invariant IsNewest(done, newest)
      decreases |rest|
    {
      var l :| l in rest;
      NewestWith(done, newest, l);
      if newest.None? || newest.value < l.stamp {
        newest := Some(l.stamp);
      }
      rest, done := rest - {l}, done + {l};
    }
    assert done == lines;
  }

  lemma NewestWith(lines: set<Line>, newest: Option<int>, l: Line)
    requires IsNewest(lines, newest)
    ensures IsNewest(lines + {l}, if newest.None? || newest.value < l.stamp then Some(l.stamp) else newest)
  {
    assert l in lines + {l};
    if newest.Some? {
      var m :| m in lines && m.stamp == newest.value;
      assert m in lines + {l};
    }
  }

  lemma NoneAgain(file: set<Line>, stamp: int, again: set<Line>)
    requires again == set l | l in file && l.stamp == stamp
    ensures again == {} <==> !exists l :: l in file && l.stamp == stamp
  {
    if l :| l in file && l.stamp == stamp {
      assert l in again;
    }
  }

  lemma NothingSpans(file: set<Line>, w: Window)
    requires w.until < w.since
    ensures (set l | l in file && InWindow(l, w)) == {}
  {
  }

  lemma SameLines(w: Window, file: set<Line>)
    ensures LinesFrom(w, file) == set l | l in file && InWindow(l, w)
  {
  }

  class Service {
    var entry: Entry
    var disk: Entry
    var bucket: map<int, set<Line>>
    const settle: nat
    /** Every world passed, with the file and the bucket in it, and the step taken in each. */
    ghost var past: seq<World>
    ghost var acts: seq<Action>

    constructor (cursor: int, container: Option<nat>, settle: nat, ghost host: Host)
      requires cursor <= host.now && (container.Some? ==> container.value == host.current)
      ensures Valid() && Idle() && Armed(Now()) && Now().host == host && this.settle == settle && acts == []
      ensures entry == Entry(cursor, container, None, None, None)
    {
      entry := Entry(cursor, container, None, None, None);
      disk := Entry(cursor, container, None, None, None);
      bucket := map[];
      this.settle := settle;
      past := [World(Entry(cursor, container, None, None, None), None, map[], [], cursor, settle, host)];
      acts := [];
    }

    ghost predicate Valid()
      reads this
    {
      Behaves(past, acts) && past[|acts|].saved == disk && past[|acts|].bucket == bucket && past[|acts|].settle == settle
    }

    ghost function Now(): World
      requires Valid()
      reads this
    {
      past[|acts|]
    }

    /** Between runs the file holds the entry. */
    ghost predicate Idle()
      requires Valid()
      reads this
    {
      Now().ship.None? && entry == disk
    }

    /** A ship stands there, with this entry in memory. */
    ghost predicate Stands(h: Host, phase: Phase, o: Sight, d: Details, lines: set<Line>)
      reads this
    {
      && Valid() && Now().host == h
      && Now().ship == Some(Ship(phase, entry, o.container, o.running, d.lost, d.behind, o.isNew, lines, d.baseline, d.rotated))
    }

    /** A ship of this entry is under way and has not settled anything. */
    ghost predicate Underway()
      reads this
    {
      Valid() && Now().ship.Some? && Now().ship.value.entry == entry && Now().ship.value.phase != Complete
    }

    /** The history only grows. */
    twostate predicate Grown()
      reads this
    {
      old(past) <= past && old(acts) <= acts
    }

    /** A step that writes nothing. */
    ghost method Note(a: Action)
      requires Valid() && Enabled(Now(), a) && Next(Now(), a).saved == disk && Next(Now(), a).bucket == bucket
      modifies this`past, this`acts
      ensures Valid() && Now() == Next(old(Now()), a) && Grown()
    {
      var v := Next(Now(), a);
      assert Step(Now(), a, v);
      Runs.Extend(Step, past, acts, a, v);
      past, acts := past + [v], acts + [a];
    }

    /** The state file is replaced as a whole. */
    method WriteState(ghost a: Action)
      requires Valid() && Enabled(Now(), a) && Next(Now(), a).saved == entry && Next(Now(), a).bucket == bucket
      modifies this`disk, this`past, this`acts
      ensures Valid() && disk == entry && Now() == Next(old(Now()), a) && Grown()
      ensures EndsWith(old(Now()), a)
    {
      ghost var v := Next(Now(), a);
      assert Step(Now(), a, v);
      Runs.Extend(Step, past, acts, a, v);
      past, acts := past + [v], acts + [a];
      disk := entry;
    }

    /** Create-only: an object that exists keeps its content. */
    method Put(name: int, lines: set<Line>, ghost a: Action)
      requires Valid() && Enabled(Now(), a) && Next(Now(), a).saved == disk && Next(Now(), a).bucket == Created(bucket, name, lines)
      modifies this`bucket, this`past, this`acts
      ensures Valid() && bucket == Created(old(bucket), name, lines) && Now() == Next(old(Now()), a) && Grown()
    {
      ghost var v := Next(Now(), a);
      assert Step(Now(), a, v);
      Runs.Extend(Step, past, acts, a, v);
      past, acts := past + [v], acts + [a];
      if name !in bucket {
        bucket := bucket[name := lines];
      }
    }

    /** Inspects the container and reads the clock. */
    method Observe(x: Outlook) returns (o: Sight, d: Details)
      requires Valid() && Idle() && Now().host == x.inspect
      modifies this`entry, this`past, this`acts
      ensures Stands(x.clock, Looked, o, d, {}) && Grown() && disk == old(disk)
      ensures o == Sight(x.inspect.current, x.inspect.running, false) && !d.baseline && !d.rotated
      ensures d.lost <==> IsOther(old(entry), x.inspect) && old(entry).drained != old(entry).container
      ensures d.behind <==> x.clock.now < old(entry).cursor
      ensures entry == old(entry).(lastLine := Mark(old(entry), x.inspect))
    {
      o := Sight(x.inspect.current, x.inspect.running, false);
      d := Details(LostOnReplace(entry, o.container), false, false, false);
      if Replaced(entry, o.container) {
        entry := entry.(lastLine := None);
      }
      Note(Begin);
      Note(Move(x.clock));
      d := d.(behind := x.clock.now < entry.cursor);
      Note(Look);
    }

    /** Takes up the window that is left, or plans one up to the clock's time, less what may still be under
        way in a running container. */
    method PlanWindow(x: Outlook, seen: Sight, d: Details) returns (o: Sight)
      requires Stands(x.clock, Looked, seen, d, {}) && !seen.isNew && entry.pending == disk.pending
      modifies this`entry, this`past, this`acts
      ensures Grown() && Stands(x.plan, Planned, o, d, {}) && o == seen.(isNew := old(entry).pending.None?)
      ensures entry == old(entry).(pending := Some(
                if old(entry).pending.Some? then old(entry).pending.value
                else Window(old(entry).cursor + 1, if seen.running then x.plan.now - settle else x.plan.now)))
    {
      o := seen;
      Note(Move(x.plan));
      if entry.pending.None? {
        o := o.(isNew := true);
        var until := x.plan.now - if o.running then settle else 0;
        entry := entry.(pending := Some(Window(entry.cursor + 1, until)));
      }
      Note(Plan);
    }

    /** Puts the window on disk before anything is uploaded. */
    method LayOut(x: Outlook, seen: Sight, d: Details) returns (ok: bool, o: Sight)
      requires Stands(x.clock, Looked, seen, d, {}) && !seen.isNew && entry.pending == disk.pending
      modifies this`entry, this`disk, this`past, this`acts
      ensures Grown() && (ok <==> old(entry).pending.Some? || Planned !in x.fails)
      ensures if ok then Stands(x.plan, Durable, o, d, {}) && disk.pending == entry.pending else Underway()
      ensures o == seen.(isNew := old(entry).pending.None?)
      ensures entry == old(entry).(pending := Some(
                if old(entry).pending.Some? then old(entry).pending.value
                else Window(old(entry).cursor + 1, if seen.running then x.plan.now - settle else x.plan.now)))
    {
      o := PlanWindow(x, seen, d);
      ok := !(o.isNew && Planned in x.fails);
      if ok {
        if o.isNew {
          WriteState(Save);
        } else {
          Note(Save);
        }
      }
    }

    /** The lines of a window, as one read returns them; an empty window is not read. */
    method ReadLines(h: Host, fails: bool, container: nat, window: Window) returns (ok: bool, lines: set<Line>)
      ensures ok <==> window.until < window.since || (h.current == container && !fails)
      ensures ok ==> lines == LinesFrom(window, h.file)
    {
      if window.until < window.since {
        NothingSpans(h.file, window);
        SameLines(window, h.file);
        return true, {};
      }
      ok := h.current == container && !fails;
      lines := set l | l in h.file && InWindow(l, window);
      SameLines(window, h.file);
    }

    /** Reads the window. */
    method ReadWindow(x: Outlook, o: Sight, d: Details) returns (ok: bool, lines: set<Line>)
      requires Stands(x.plan, Durable, o, d, {}) && entry.pending.Some?
      modifies this`past, this`acts
      ensures Grown()
      ensures if ok then Stands(x.read, HasRead, o, d, lines) else Underway()
      ensures ok <==> entry.pending.value.until < entry.pending.value.since ||
                      (x.read.current == o.container && Durable !in x.fails)
      ensures ok ==> lines == LinesFrom(entry.pending.value, x.read.file)
    {
      Note(Move(x.read));
      ok, lines := ReadLines(x.read, Durable in x.fails, o.container, entry.pending.value);
      if ok {
        SameLines(entry.pending.value, x.read.file);
        assert lines == set l | l in Now().host.file && InWindow(l, WindowOf(Now()));
        Note(Read);
      }
    }

    /** Looks the last shipped line up once more, after the window was read. */
    method LookBack(x: Outlook, o: Sight, d: Details, lines: set<Line>) returns (ok: bool, e: Details)
      requires Stands(x.read, HasRead, o, d, lines) && !d.baseline && !d.rotated
      modifies this`past, this`acts
      ensures Grown()
      ensures if ok then Stands(x.check, HasChecked, o, e, lines) else Underway()
      ensures ok <==> (HasMark(entry) ==> x.check.current == o.container && HasRead !in x.fails)
      ensures e.lost == d.lost && e.behind == d.behind
      ensures ok ==> (e.rotated <==> HasMark(entry) &&
                                     forall l :: l in x.check.file ==> l.stamp != entry.lastLine.value)
    {
      Note(Move(x.check));
      ok, e := true, d;
      if HasBaseline(entry) {
        if x.check.current != o.container || HasRead in x.fails {
          return false, e;
        }
        var again := set l | l in x.check.file && l.stamp == entry.lastLine.value;
        NoneAgain(x.check.file, entry.lastLine.value, again);
        e := e.(baseline := true, rotated := again == {});
      }
      Note(Check);
    }

    /** The last step was a, taken in world w. */
    ghost predicate EndsWith(w: World, a: Action)
      reads this
    {
      Valid() && acts != [] && acts[|acts| - 1] == a && past[|acts| - 1] == w
    }

    /** Uploads under the name that was fixed with the window. An answer that is lost leaves the object and
        the window. */
    method Send(x: Outlook, o: Sight, d: Details, lines: set<Line>) returns (ok: bool)
      requires Stands(x.check, HasChecked, o, d, lines) && entry.pending.Some?
      modifies this`bucket, this`past, this`acts
      ensures Grown()
      ensures if ok then Stands(x.check, HasUploaded, o, d, lines) else Underway()
      ensures ok <==> lines == {} || x.reply == Answered
      ensures bucket == After(old(bucket), entry.pending.value, lines, x.reply)
    {
      ok := lines == {} || x.reply == Answered;
      if lines == {} {
        Note(Upload);
      } else if x.reply == Answered {
        Put(entry.pending.value.until, lines, Upload);
      } else if x.reply == Lost {
        Put(entry.pending.value.until, lines, UploadLost);
      }
    }

    /** Moves the cursor, records the container and whether it was read to its end, and closes the window. */
    method Close(o: Sight, lines: set<Line>) returns (ghost newest: Option<int>)
      requires entry.pending.Some?
      modifies this`entry
      ensures IsNewest(lines, newest) && entry == Completed(old(entry), o.container, o.isNew, o.running, newest)
    {
      var last := Newest(lines);
      var window := entry.pending.value;
      if last.Some? {
        entry := entry.(lastLine := last);
      }
      entry := entry.(cursor := if window.until > entry.cursor then window.until else entry.cursor, container := Some(o.container));
      entry := entry.(drained := if o.isNew && !o.running then Some(o.container) else None);
      entry := entry.(pending := None);
      newest := last;
    }

    method Settle(x: Outlook, o: Sight, d: Details, lines: set<Line>)
      requires Stands(x.check, HasUploaded, o, d, lines) && entry.pending.Some?
      modifies this`entry, this`past, this`acts
      ensures Stands(x.check, Complete, o, d, lines) && Grown()
      ensures exists newest :: IsNewest(lines, newest) && entry == Completed(old(entry), o.container, o.isNew, o.running, newest)
    {
      ghost var newest := Close(o, lines);
      Note(Finish(newest));
    }

    method Conclude(x: Outlook, o: Sight, d: Details, lines: set<Line>) returns (code: Code)
      requires Stands(x.check, HasUploaded, o, d, lines) && entry.pending.Some?
      modifies this`entry, this`disk, this`past, this`acts
      ensures Valid() && Idle() && Grown() && code == if d.lost || d.behind || d.rotated then GapFound else Clean
      ensures exists w: World :: w.ship.Some? && EndsWith(w, Store)
      ensures exists newest :: IsNewest(lines, newest) && entry == Completed(old(entry), o.container, o.isNew, o.running, newest)
    {
      Settle(x, o, d, lines);
      code := if d.rotated || d.lost || d.behind then GapFound else Clean;
      WriteState(Store);
    }

    /** What a run has seen before it completes its ship. */
    ghost predicate Saw(e: Entry, x: Outlook, o: Sight, d: Details, lines: set<Line>)
      reads this
    {
      && o == Sight(x.inspect.current, x.inspect.running, e.pending.None?)
      && (d.lost || d.behind || d.rotated <==> HasGap(e, x.inspect, x.clock.now, x.check.file))
      && entry == Laid(e, x, settle) && lines == LinesIn(e, x, settle)
    }

    /** What a run has seen when its window is on disk. */
    ghost predicate SawHost(e: Entry, x: Outlook, o: Sight, d: Details)
      reads this
    {
      && o == Sight(x.inspect.current, x.inspect.running, e.pending.None?) && !d.baseline && !d.rotated
      && (d.lost <==> IsOther(e, x.inspect) && e.drained != e.container) && (d.behind <==> x.clock.now < e.cursor)
      && entry == Laid(e, x, settle)
    }

    method Prepare(x: Outlook) returns (ok: bool, o: Sight, d: Details)
      requires Valid() && Idle() && Now().host == x.inspect
      modifies this`entry, this`disk, this`past, this`acts
      ensures Grown() && (ok <==> old(entry).pending.Some? || Planned !in x.fails) && SawHost(old(entry), x, o, d)
      ensures if ok then Stands(x.plan, Durable, o, d, {}) else Underway()
    {
      o, d := Observe(x);
      ok, o := LayOut(x, o, d);
    }

    /** The reads and the upload. */
    method Fetch(x: Outlook, o: Sight, seen: Details) returns (ok: bool, d: Details, lines: set<Line>)
      requires Stands(x.plan, Durable, o, seen, {}) && entry.pending.Some? && !seen.baseline && !seen.rotated
      modifies this`bucket, this`past, this`acts
      ensures Grown() && d.lost == seen.lost && d.behind == seen.behind
      ensures if ok then Stands(x.check, HasUploaded, o, d, lines) else Underway()
      ensures ok <==> Fetches(entry, o.container, x)
      ensures bucket == if Reads(entry, o.container, x)
                        then After(old(bucket), entry.pending.value, LinesFrom(entry.pending.value, x.read.file), x.reply) else old(bucket)
      ensures ok ==> lines == LinesFrom(entry.pending.value, x.read.file)
      ensures ok ==> (d.rotated <==> HasMark(entry) && forall l :: l in x.check.file ==> l.stamp != entry.lastLine.value)
    {
      d := seen;
      ok, lines := ReadWindow(x, o, d);
      if ok {
        ok, d := LookBack(x, o, d, lines);
      }
      if ok {
        ok := Send(x, o, d, lines);
      }
    }

    method ShipWindow(x: Outlook) returns (ok: bool, o: Sight, d: Details, lines: set<Line>)
      requires Valid() && Idle() && Now().host == x.inspect
      modifies this
      ensures Grown() && (ok <==> Ships(old(entry), x, settle))
      ensures bucket == Uploaded(old(entry), x, settle, old(bucket))
      ensures if ok then Stands(x.check, HasUploaded, o, d, lines) && Saw(old(entry), x, o, d, lines) else Underway()
    {
      lines := {};
      ok, o, d := Prepare(x);
      if ok {
        ok, d, lines := Fetch(x, o, d);
      }
    }

    /** One run. Every world it passes, with the file and the bucket as they are then, is reached by the
        protocol's own steps. It fails exactly if a call fails, and then stores no completed ship; otherwise
        it stores one, and reports a gap exactly if it saw one. */
    method Run(x: Outlook) returns (code: Code)
      requires Valid() && Idle() && Now().host == x.inspect
      modifies this
      ensures Valid() && Idle() && Grown()
      ensures code == if !Ships(old(entry), x, settle) then Failed
                      else if HasGap(old(entry), x.inspect, x.clock.now, x.check.file) then GapFound else Clean
      ensures exists w: World, a :: EndsWith(w, a) && (code != Failed <==> a == Store)
      ensures bucket == Uploaded(old(entry), x, settle, old(bucket))
      ensures code != Failed ==>
                Leaves(entry, old(entry), x.inspect, WindowIn(old(entry), x, settle), LinesIn(old(entry), x, settle))
    {
      var ok, o, d, lines := ShipWindow(x);
      if ok {
        code := Conclude(x, o, d, lines);
      } else {
        code := Failed;
        WriteState(Abort);
      }
    }

    /** So what is proved of runs holds at every moment a kill may come: this is one of them. */
    lemma NoLineTwiceEver(i: nat, l: Line, u: int, v: int)
      requires Valid() && Armed(past[0]) && i < |past|
      requires u in past[i].bucket && l in past[i].bucket[u] && v in past[i].bucket && l in past[i].bucket[v]
      ensures u == v
    {
      var ws, bs := past[..i + 1], acts[..i];
      forall k | 0 <= k < i
        ensures Step(ws[k], bs[k], ws[k + 1])
      {
        assert Step(past[k], acts[k], past[k + 1]);
      }
      NoLineTwice(ws, bs, l, u, v);
    }
  }
}
