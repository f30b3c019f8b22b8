/** What is passed over in silence, and what is not, on a host whose clock does not go back, whose lines
    reach the log file within the settle time, and whose rotation deletes the oldest lines first. Containers
    may be stopped, started and replaced at any moment. */
module ArchiveLoss {
  import opened Wrappers
  import Runs
  import opened Archive

  // ----- the host -----

  ghost predicate Known(h: Host, l: Line) { l in h.written || l in h.inflight }

  ghost predicate Gone(h: Host, d: Line) { d in h.written && d.container == h.current && d !in h.file }

  ghost predicate Orderly(h: Host, settle: nat) {
    && (forall l :: l in h.file ==> l in h.written && l.container == h.current)
    && (forall l :: l in h.inflight ==> l !in h.written && l.container <= h.current && h.now - settle < l.stamp <= h.now)
    && (forall l :: l in h.written ==> l.stamp <= h.now && l.container <= h.current)
    && (forall d, l :: Gone(h, d) && l in h.file ==> d.stamp <= l.stamp)
  }

  /** How the host may move: time goes on, lines are stamped with it, what is written stays written, and a
      line that has left the file does not come back. */
  ghost predicate FairMove(g: Host, h: Host, settle: nat) {
    && Orderly(h, settle) && g.now <= h.now && g.current <= h.current
    && (forall l :: l in g.written ==> l in h.written)
    && (forall l :: l in g.inflight ==> Known(h, l))
    && (forall l :: l in h.file && l in g.written ==> l in g.file)
    && (forall l :: Known(h, l) && !Known(g, l) ==> g.now < l.stamp)
  }

  ghost predicate FairStep(w: World, a: Action) { Enabled(w, a) && (a.Move? ==> FairMove(w.host, a.host, w.settle)) }

  ghost predicate FairRun(ws: seq<World>, acts: seq<Action>) {
    && Behaves(ws, acts) && Armed(ws[0]) && Orderly(ws[0].host, ws[0].settle)
    && forall i :: 0 <= i < |acts| ==> FairStep(ws[i], acts[i])
  }

  // ----- what every step keeps of the entry -----

  predicate EntrySound(e: Entry, h: Host, start: int) {
    && start <= e.cursor <= h.now
    && (e.container.Some? ==> e.container.value <= h.current)
    && (e.lastLine.Some? ==> e.lastLine.value <= e.cursor)
    && (e.drained.Some? ==> e.drained == e.container)
    && (e.pending.Some? ==> e.pending.value.until <= h.now)
  }

  predicate ShipSound(w: World, s: Ship) {
    && EntrySound(s.entry, w.host, w.start)
    && s.container <= w.host.current
    && s.lost == LostOnReplace(w.saved, s.container)
    && forall l :: l in s.lines ==> l.container == s.container
  }

  ghost predicate Sound(w: World) {
    && Protocol(w) && Orderly(w.host, w.settle) && EntrySound(w.saved, w.host, w.start)
    && (w.ship.Some? ==> ShipSound(w, w.ship.value))
  }

  lemma FirstStepsSound(w: World, a: Action)
    requires Sound(w) && Enabled(w, a) && (a.Begin? || a.Look? || a.Plan? || a.Save?) && Protocol(Next(w, a))
    ensures Sound(Next(w, a))
  {
  }

  lemma ReadStepsSound(w: World, a: Action)
    requires Sound(w) && Enabled(w, a) && (a.Read? || a.Check? || a.Upload? || a.UploadLost?) && Protocol(Next(w, a))
    ensures Sound(Next(w, a))
  {
  }

  lemma LastStepsSound(w: World, a: Action)
    requires Sound(w) && Enabled(w, a) && (a.Finish? || a.Store? || a.Abort? || a.Kill?) && Protocol(Next(w, a))
    ensures Sound(Next(w, a))
  {
  }

  lemma StepKeepsSound(w: World, a: Action)
    requires Sound(w) && FairStep(w, a)
    ensures Sound(Next(w, a))
  {
    StepKeepsProtocol(w, a);
    if a.Begin? || a.Look? || a.Plan? || a.Save? {
      FirstStepsSound(w, a);
    } else if a.Read? || a.Check? || a.Upload? || a.UploadLost? {
      ReadStepsSound(w, a);
    } else if !a.Move? {
      LastStepsSound(w, a);
    }
  }

  // ----- what every step keeps of one line -----

  /** The line is under way and can still come into no window that has been laid out. */
  predicate EntryTracks(e: Entry, h: Host, start: int, l: Line) {
    l in h.inflight ==>
      (l.stamp <= start || e.cursor < l.stamp) && (e.pending.Some? ==> e.pending.value.until < l.stamp)
  }

  /** If the window has its object and the line is one of these, the object has it. */
  predicate IsStored(bucket: map<int, set<Line>>, p: Window, lines: set<Line>, l: Line) {
    p.until in bucket && l in lines && InWindow(l, p) ==> l in bucket[p.until]
  }

  /** What a ship has learnt about the line once it has read window p. */
  ghost predicate ReadTracks(w: World, s: Ship, p: Window, l: Line) {
    && (l in w.host.file && InWindow(l, p) ==> l in s.lines)
    && (Known(w.host, l) && InWindow(l, p) ==> l.container <= s.container)
    && IsStored(w.bucket, p, s.lines, l)
    && (s.phase != HasRead && s.baseline && !s.rotated ==>
          (l in w.host.written && InWindow(l, p) && l.container == s.container ==> l in s.lines))
    && (s.phase == HasUploaded || s.phase == Complete ==> s.lines == {} || p.until in w.bucket)
  }

  predicate HasLines(p: Phase) { p == HasRead || p == HasChecked || p == HasUploaded || p == Complete }

  ghost predicate ShipTracks(w: World, s: Ship, l: Line) {
    && EntryTracks(s.entry, w.host, w.start, l)
    && (HasLines(s.phase) ==> w.saved.pending.Some? && ReadTracks(w, s, w.saved.pending.value, l))
  }

  ghost predicate Tracked(w: World, l: Line) {
    && EntryTracks(w.saved, w.host, w.start, l)
    && (w.saved.pending.Some? ==> IsStored(w.bucket, w.saved.pending.value, w.host.file, l))
    && (w.ship.Some? ==> ShipTracks(w, w.ship.value, l))
  }

  /** The one step after which a line may be lost sight of: a ship that saw its container stopped lays out a
      window up to this very moment, and the line is stamped but not written yet. */
  predicate Misses(w: World, a: Action, l: Line) {
    a == Plan && w.ship.Some? && !w.ship.value.running && w.ship.value.entry.pending.None? && l in w.host.inflight
  }

  /** A window laid out now has a name no object bears yet. */
  lemma NewName(w: World, p: Window)
    requires Protocol(w) && w.saved.pending.None? && p.since == w.saved.cursor + 1 && p.since <= p.until
    ensures p.until !in w.bucket
  {
    if p.until in w.bucket {
      var i :| 0 <= i < |w.completed| && Belongs(w.bucket, p.until, w.completed[i]);
      TilesBelow(w.completed, w.start, w.saved.cursor, i);
    }
  }

  /** Writing the entry of a ship that laid out its window: nothing bears that name. */
  lemma EntryWritten(w: World, a: Action, l: Line)
    requires Sound(w) && Tracked(w, l) && Enabled(w, a) && (a.Save? || a.Abort?)
    ensures Tracked(Next(w, a), l)
  {
    var s := w.ship.value;
    if s.phase == Planned && s.isNew && InWindow(l, s.entry.pending.value) {
      NewName(w, s.entry.pending.value);
    }
  }

  /** Rotation deletes the oldest lines first: what is newer than a line still there is still there. */
  lemma StillThere(h: Host, settle: nat, mark: Line, l: Line)
    requires Orderly(h, settle) && mark in h.file
    requires l in h.written && l.container == h.current && mark.stamp < l.stamp
    ensures l in h.file
  {
    assert !Gone(h, l);
  }

  lemma CheckTracks(w: World, l: Line)
    requires Sound(w) && Tracked(w, l) && Enabled(w, Check)
    ensures Tracked(Next(w, Check), l)
  {
    var s, p := Next(w, Check).ship.value, w.saved.pending.value;
    if s.baseline && !s.rotated && l in w.host.written && InWindow(l, p) && l.container == s.container {
      var mark :| mark in w.host.file && mark.stamp == s.entry.lastLine.value;
      StillThere(w.host, w.settle, mark, l);
    }
  }

  lemma MoveTracks(w: World, h: Host, l: Line)
    requires Sound(w) && Tracked(w, l) && FairMove(w.host, h, w.settle)
    ensures Tracked(Next(w, Move(h)), l)
  {
    assert l in h.file ==> Known(h, l);
  }

  lemma StepTracks(w: World, a: Action, l: Line)
    requires Sound(w) && Tracked(w, l) && FairStep(w, a) && !Misses(w, a, l)
    ensures Tracked(Next(w, a), l)
  {
    if a.Save? || a.Abort? {
      EntryWritten(w, a, l);
    } else if a.Check? {
      CheckTracks(w, l);
    } else if a.Move? {
      MoveTracks(w, a.host, l);
    }
  }

  // ----- no silent loss -----

  ghost predicate Stored(bucket: map<int, set<Line>>, l: Line) { exists u :: u in bucket && l in bucket[u] }

  /** The ship that is about to be stored moves the cursor past line l. */
  ghost predicate Passes(w: World, l: Line) {
    In(w, Complete) && w.saved.cursor < l.stamp <= w.ship.value.entry.cursor
  }

  /** A line that left the file before the first window of its container was read, or one of a container
      that came and went between two completed ships. */
  ghost predicate Excused(w: World, l: Line)
    requires w.ship.Some?
  {
    var s := w.ship.value;
    if l.container == s.container then !s.baseline && l !in s.lines && l !in w.host.file
    else l.container < s.container && w.saved.container != Some(l.container)
  }

  /** A line of the container that the ship drops because it is recorded as read to its end. */
  predicate DroppedAsDrained(w: World, l: Line)
    requires w.ship.Some?
  {
    w.saved.container == w.saved.drained == Some(l.container) && l.container != w.ship.value.container
  }

  /** A completing ship that does not report a gap has every other line it passes in an object. */
  lemma PassesNothingSilently(w: World, l: Line)
    requires Sound(w) && Tracked(w, l) && Passes(w, l) && l in w.host.written && !Gap(w.ship.value)
    ensures Excused(w, l) || DroppedAsDrained(w, l) || Stored(w.bucket, l)
  {
    var s, p := w.ship.value, w.saved.pending.value;
    assert InWindow(l, p);
    assert Known(w.host, l);
    if l in s.lines {
      assert l in w.bucket[p.until];
    }
  }

  lemma ArmedIsSound(w: World, l: Line)
    requires Armed(w) && Orderly(w.host, w.settle)
    ensures Sound(w) && Tracked(w, l)
  {
  }

  lemma {:induction false} RunIsSound(ws: seq<World>, acts: seq<Action>, i: nat, l: Line)
    requires FairRun(ws, acts) && i < |ws|
    ensures Sound(ws[i]) && (Tracked(ws[i], l) || exists k :: 0 <= k < i && Misses(ws[k], acts[k], l))
    decreases i
  {
    if i == 0 {
      ArmedIsSound(ws[0], l);
    } else {
      RunIsSound(ws, acts, i - 1, l);
      var w, a := ws[i - 1], acts[i - 1];
      assert Step(w, a, ws[i]) && FairStep(w, a);
      StepKeepsSound(w, a);
      if Tracked(w, l) && !Misses(w, a, l) {
        StepTracks(w, a, l);
      }
    }
  }

  /** A step brings no line at or below the cursor, and an object stays. */
  lemma StepBack(w: World, a: Action, l: Line)
    requires Sound(w) && Tracked(w, l) && FairStep(w, a)
    requires l in Next(w, a).host.written && w.start < l.stamp <= w.saved.cursor
    ensures l in w.host.written && (Stored(w.bucket, l) ==> Stored(Next(w, a).bucket, l))
  {
    StepKeepsProtocol(w, a);
    if a.Move? {
      assert Known(a.host, l) && Known(w.host, l);
    }
  }

  ghost predicate PassedWithCause(w: World, a: Action, l: Line) {
    a == Store && Passes(w, l) && (Gap(w.ship.value) || Excused(w, l) || DroppedAsDrained(w, l))
  }

  ghost predicate HasCause(ws: seq<World>, acts: seq<Action>, n: nat, l: Line)
    requires n <= |acts| < |ws|
  {
    exists k :: 0 <= k < n && (Misses(ws[k], acts[k], l) || PassedWithCause(ws[k], acts[k], l))
  }

  /** Only storing a completed ship moves the cursor past a line. */
  lemma PassingIsStoring(w: World, a: Action, l: Line)
    requires Sound(w) && Tracked(w, l) && FairStep(w, a)
    requires l in Next(w, a).host.written && w.saved.cursor < l.stamp <= Next(w, a).saved.cursor
    ensures PassedWithCause(w, a, l) || Stored(Next(w, a).bucket, l)
  {
    assert a == Store;
    if !Gap(w.ship.value) {
      PassesNothingSilently(w, l);
    }
  }

  /** Over every run, whatever is stopped, started or replaced when: a line written after the armed start and
      at or below the cursor is in an object, or a stored ship passed it that reported a gap, had an excuse
      for this line, or dropped its container as read to its end; or a ship laid out its window while this
      line was under way in a container it had seen stopped. */
  lemma {:induction false} NoSilentLoss(ws: seq<World>, acts: seq<Action>, n: nat, l: Line)
    requires FairRun(ws, acts) && n < |ws|
    requires l in ws[n].host.written && ws[0].start < l.stamp <= ws[n].saved.cursor
    ensures Stored(ws[n].bucket, l) || HasCause(ws, acts, n, l)
    decreases n
  {
    if n > 0 {
      RunIsSound(ws, acts, n - 1, l);
      RunKeepsProtocol(ws, acts, 0, n - 1);
      if Tracked(ws[n - 1], l) {
        LastStep(ws, acts, n, l);
        if l.stamp <= ws[n - 1].saved.cursor {
          NoSilentLoss(ws, acts, n - 1, l);
        }
      }
    }
  }

  lemma LastStep(ws: seq<World>, acts: seq<Action>, n: nat, l: Line)
    requires FairRun(ws, acts) && 0 < n < |ws| && Sound(ws[n - 1]) && Tracked(ws[n - 1], l) && ws[n - 1].start < l.stamp
    requires l in ws[n].host.written && l.stamp <= ws[n].saved.cursor
    ensures if l.stamp <= ws[n - 1].saved.cursor
            then l in ws[n - 1].host.written && (Stored(ws[n - 1].bucket, l) ==> Stored(ws[n].bucket, l))
            else PassedWithCause(ws[n - 1], acts[n - 1], l) || Stored(ws[n].bucket, l)
  {
    var w, a := ws[n - 1], acts[n - 1];
    assert Step(w, a, ws[n]) && FairStep(w, a);
    if l.stamp <= w.saved.cursor {
      StepBack(w, a, l);
    } else {
      PassingIsStoring(w, a, l);
    }
  }

  // ----- what a drained mark is worth -----

  /** A ship that had seen container c stopped laid out its window up to time t, the clock's. */
  predicate ReadOut(w: World, a: Action, c: nat, t: int) {
    && a == Plan && w.ship.Some? && w.ship.value.container == c && !w.ship.value.running
    && w.ship.value.entry.pending.None? && w.host.now == t
  }

  ghost predicate WasReadOut(ws: seq<World>, acts: seq<Action>, i: nat, c: nat, t: int)
    requires i <= |acts| < |ws|
  {
    exists k :: 0 <= k < i && ReadOut(ws[k], acts[k], c, t)
  }

  /** How far the window of the ship goes. */
  function Reach(e: Entry): int { if e.pending.Some? then e.pending.value.until else e.cursor }

  /** What a ship holds that laid out its window itself: the window does not end before the cursor, and the
      container is recorded as drained only if it was seen stopped. */
  predicate LaidOutSound(s: Ship) {
    && (s.isNew ==> s.entry.cursor <= Reach(s.entry) || s.running)
    && (s.phase == Complete && s.entry.drained.Some? ==> s.isNew && !s.running && s.entry.drained == Some(s.container))
  }

  lemma DrainMark(w: World, a: Action)
    requires Sound(w) && FairStep(w, a) && (w.ship.Some? ==> LaidOutSound(w.ship.value))
    ensures var v := Next(w, a);
            && (v.ship.Some? ==> LaidOutSound(v.ship.value))
            && (v.saved.drained.Some? && (v.saved.drained != w.saved.drained || v.saved.cursor != w.saved.cursor) ==>
                  w.ship.Some? && w.ship.value.isNew && !w.ship.value.running &&
                  v.saved.drained == Some(w.ship.value.container) && v.saved.cursor == Reach(w.ship.value.entry))
            && (v.ship.Some? && v.ship.value.isNew && !v.ship.value.running ==>
                  ReadOut(w, a, v.ship.value.container, Reach(v.ship.value.entry)) ||
                  (w.ship.Some? && w.ship.value.isNew && !w.ship.value.running &&
                   w.ship.value.container == v.ship.value.container && Reach(w.ship.value.entry) == Reach(v.ship.value.entry)))
  {
  }

  ghost predicate MarksSound(ws: seq<World>, acts: seq<Action>, i: nat)
    requires i <= |acts| < |ws|
  {
    && (ws[i].saved.drained.Some? ==> WasReadOut(ws, acts, i, ws[i].saved.drained.value, ws[i].saved.cursor))
    && (ws[i].ship.Some? ==> LaidOutSound(ws[i].ship.value))
    && (ws[i].ship.Some? && ws[i].ship.value.isNew && !ws[i].ship.value.running ==>
          WasReadOut(ws, acts, i, ws[i].ship.value.container, Reach(ws[i].ship.value.entry)))
  }

  lemma Later(ws: seq<World>, acts: seq<Action>, i: nat, c: nat, t: int)
    requires i < |acts| < |ws| && (WasReadOut(ws, acts, i, c, t) || ReadOut(ws[i], acts[i], c, t))
    ensures WasReadOut(ws, acts, i + 1, c, t)
  {
  }

  lemma {:induction false} MarksAreSound(ws: seq<World>, acts: seq<Action>, i: nat)
    requires FairRun(ws, acts) && i < |ws|
    ensures MarksSound(ws, acts, i)
    decreases i
  {
    if i > 0 {
      MarksAreSound(ws, acts, i - 1);
      SoundEver(ws, acts, i - 1);
      MarksStep(ws, acts, i - 1);
    }
  }

  lemma MarksStep(ws: seq<World>, acts: seq<Action>, i: nat)
    requires FairRun(ws, acts) && i < |acts| && Sound(ws[i]) && MarksSound(ws, acts, i)
    ensures MarksSound(ws, acts, i + 1)
  {
    var w, a, v := ws[i], acts[i], ws[i + 1];
    assert Step(w, a, v) && FairStep(w, a);
    DrainMark(w, a);
    if v.saved.drained.Some? {
      Later(ws, acts, i, v.saved.drained.value, v.saved.cursor);
    }
    if v.ship.Some? && v.ship.value.isNew && !v.ship.value.running {
      Later(ws, acts, i, v.ship.value.container, Reach(v.ship.value.entry));
    }
  }

  lemma SoundEver(ws: seq<World>, acts: seq<Action>, i: nat)
    requires FairRun(ws, acts) && i < |ws|
    ensures Sound(ws[i])
  {
    RunIsSound(ws, acts, i, Line(0, 0, 0));
  }

  /** A container is recorded as read to its end exactly up to the clock reading of a ship that had seen it
      stopped before. */
  lemma DrainedWasReadOut(ws: seq<World>, acts: seq<Action>, i: nat) returns (k: nat)
    requires FairRun(ws, acts) && i < |ws| && ws[i].saved.drained.Some?
    ensures k < i && ReadOut(ws[k], acts[k], ws[i].saved.drained.value, ws[i].saved.cursor)
  {
    MarksAreSound(ws, acts, i);
    k :| 0 <= k < i && ReadOut(ws[k], acts[k], ws[i].saved.drained.value, ws[i].saved.cursor);
  }

  /** So a ship without the code gap drops a container only after a ship that had seen it stopped, and what
      that wrote above the cursor is stamped after that ship's clock reading: the container ran again. */
  lemma DropsNothingSilently(ws: seq<World>, acts: seq<Action>, i: nat, l: Line) returns (k: nat)
    requires FairRun(ws, acts) && i < |ws| && In(ws[i], Complete) && !Gap(ws[i].ship.value)
    requires ws[i].saved.container == Some(l.container) && l.container != ws[i].ship.value.container
    ensures k < i && ReadOut(ws[k], acts[k], l.container, ws[i].saved.cursor)
    ensures ws[i].saved.cursor < l.stamp ==> ws[k].host.now < l.stamp && DroppedAsDrained(ws[i], l)
  {
    SoundEver(ws, acts, i);
    k := DrainedWasReadOut(ws, acts, i);
  }

  // ----- passing decides -----

  /** For a window that the ship laid out itself, the object has exactly the lines it read. */
  ghost predicate NameIsNew(w: World, s: Ship) {
    var p := if s.phase == Complete then w.saved.pending else s.entry.pending;
    s.isNew && p.Some? && p.value.since <= p.value.until && p.value.until in w.bucket ==>
      (s.phase == Unanswered || s.phase == HasUploaded || s.phase == Complete) && w.bucket[p.value.until] == s.lines
  }

  ghost predicate NamesNew(w: World) {
    w.ship.Some? ==> NameIsNew(w, w.ship.value) &&
                     ((w.ship.value.phase == HasUploaded || w.ship.value.phase == Complete) && w.ship.value.lines != {} ==>
                        w.saved.pending.Some? && w.saved.pending.value.until in w.bucket)
  }

  lemma StepKeepsNames(w: World, a: Action)
    requires Protocol(w) && NamesNew(w) && Enabled(w, a)
    ensures NamesNew(Next(w, a))
  {
    var v := Next(w, a);
    if a.Plan? && v.ship.value.isNew && v.ship.value.entry.pending.value.since <= v.ship.value.entry.pending.value.until {
      NewName(w, v.ship.value.entry.pending.value);
    }
  }

  lemma {:induction false} NamesAreNew(ws: seq<World>, acts: seq<Action>, i: nat)
    requires Behaves(ws, acts) && Armed(ws[0]) && i < |ws|
    ensures Protocol(ws[i]) && NamesNew(ws[i])
    decreases i
  {
    RunKeepsProtocol(ws, acts, 0, i);
    if i > 0 {
      NamesAreNew(ws, acts, i - 1);
      assert Step(ws[i - 1], acts[i - 1], ws[i]);
      StepKeepsNames(ws[i - 1], acts[i - 1]);
    }
  }

  lemma PassedHere(w: World, l: Line)
    requires Protocol(w) && NamesNew(w) && Passes(w, l) && w.ship.value.isNew
    ensures Stored(w.bucket, l) <==> l in w.ship.value.lines
  {
    var s, p := w.ship.value, w.saved.pending.value;
    assert InWindow(l, p);
    if l in s.lines {
      assert l in w.bucket[p.until];
    }
    if u :| u in w.bucket && l in w.bucket[u] {
      var q := OwnerOf(w, u, l);
      OneWindow(w, p, q, l.stamp);
    }
  }

  /** A line at or below the cursor comes into no object any more, and out of none. */
  lemma StepDecided(w: World, a: Action, l: Line)
    requires Protocol(w) && Enabled(w, a) && l.stamp <= w.saved.cursor
    ensures Stored(Next(w, a).bucket, l) <==> Stored(w.bucket, l)
  {
    StepKeepsProtocol(w, a);
    forall u | u in Next(w, a).bucket && u !in w.bucket
      ensures l !in Next(w, a).bucket[u]
    {
    }
  }

  lemma {:induction false} Decided(ws: seq<World>, acts: seq<Action>, i: nat, n: nat, l: Line)
    requires Behaves(ws, acts) && Armed(ws[0]) && i <= n < |ws| && l.stamp <= ws[i].saved.cursor
    ensures Stored(ws[n].bucket, l) <==> Stored(ws[i].bucket, l)
    decreases n
  {
    if i < n {
      Decided(ws, acts, i, n - 1, l);
      RunKeepsProtocol(ws, acts, i, n - 1);
      assert Step(ws[n - 1], acts[n - 1], ws[n]);
      StepDecided(ws[n - 1], acts[n - 1], l);
    }
  }

  /** Whatever the host does: once a ship that laid out its window is stored, the lines it passed are in an
      object for good if it read them, and in none for good if it did not. */
  lemma PassedIsKeptExactly(ws: seq<World>, acts: seq<Action>, k: nat, n: nat, l: Line)
    requires Behaves(ws, acts) && Armed(ws[0]) && k < n < |ws|
    requires acts[k] == Store && Passes(ws[k], l) && ws[k].ship.value.isNew
    ensures Stored(ws[n].bucket, l) <==> l in ws[k].ship.value.lines
  {
    NamesAreNew(ws, acts, k);
    PassedHere(ws[k], l);
    assert Step(ws[k], acts[k], ws[k + 1]);
    Decided(ws, acts, k + 1, n, l);
  }

  /** So where nothing was missed before, the two silent causes are exact: of the lines that such a ship
      passes without the code gap, it loses for good those that have an excuse or whose container it drops,
      and no others. */
  lemma SilentLossIsExact(ws: seq<World>, acts: seq<Action>, k: nat, n: nat, l: Line)
    requires FairRun(ws, acts) && k < n < |ws| && acts[k] == Store && Passes(ws[k], l) && l in ws[k].host.written
    requires ws[k].ship.value.isNew && !Gap(ws[k].ship.value)
    requires forall m :: 0 <= m < k ==> !Misses(ws[m], acts[m], l)
    ensures Stored(ws[n].bucket, l) <==> !Excused(ws[k], l) && !DroppedAsDrained(ws[k], l)
  {
    RunIsSound(ws, acts, k, l);
    PassedIsKeptExactly(ws, acts, k, n, l);
    NamesAreNew(ws, acts, k);
    PassedHere(ws[k], l);
    PassesNothingSilently(ws[k], l);
  }

  // ----- every cause is real -----

  lemma Extend(ws: seq<World>, acts: seq<Action>, a: Action) returns (vs: seq<World>, bs: seq<Action>)
    requires FairRun(ws, acts) && FairStep(ws[|acts|], a)
    ensures FairRun(vs, bs) && bs == acts + [a] && vs == ws + [Next(ws[|acts|], a)]
  {
    vs, bs := ws + [Next(ws[|acts|], a)], acts + [a];
    assert Step(ws[|acts|], a, vs[|bs|]);
    Runs.Extend(Step, ws, acts, a, vs[|bs|]);
  }

  /** A stopped container, and nothing left over from an earlier ship. */
  predicate Quiet(w: World) { w.ship.None? && w.saved.pending.None? && w.saved.lastLine.None? && !w.host.running }

  /** The host when the clock is read: the same container, and nothing in its file. */
  predicate NothingToRead(w: World, h: Host) { h.current == w.host.current && h.file == {} && w.saved.cursor < h.now }

  /** The ship that saw a quiet host stopped and read the clock of host h. */
  function QuietShip(w: World, h: Host, phase: Phase): Ship {
    Ship(phase, LaidOut(w.saved, h.now), w.host.current, false, LostOnReplace(w.saved, w.host.current), false, true, {}, false, false)
  }

  function Shipped(w: World, t: int): Entry { Entry(t, Some(w.host.current), None, Some(w.host.current), None) }

  lemma ShipUntilLooked(ws: seq<World>, acts: seq<Action>, h: Host) returns (vs: seq<World>, bs: seq<Action>)
    requires FairRun(ws, acts) && Quiet(ws[|acts|]) && NothingToRead(ws[|acts|], h)
    requires FairMove(ws[|acts|].host, h, ws[|acts|].settle)
    ensures FairRun(vs, bs)
    ensures var w := ws[|acts|];
            vs[|bs|] == w.(host := h, ship := Some(QuietShip(w, h, Looked).(entry := w.saved, isNew := false)))
  {
    var w := ws[|acts|];
    vs, bs := Extend(ws, acts, Begin);
    assert Begun(w.saved, w.host.current) == w.saved;
    vs, bs := Extend(vs, bs, Move(h));
    vs, bs := Extend(vs, bs, Look);
  }

  lemma ShipUntilSaved(ws: seq<World>, acts: seq<Action>, h: Host) returns (vs: seq<World>, bs: seq<Action>)
    requires FairRun(ws, acts) && Quiet(ws[|acts|]) && NothingToRead(ws[|acts|], h)
    requires FairMove(ws[|acts|].host, h, ws[|acts|].settle)
    ensures FairRun(vs, bs) && |bs| > 1
    ensures var w := ws[|acts|];
            vs[|bs|] == w.(host := h, saved := LaidOut(w.saved, h.now), ship := Some(QuietShip(w, h, Durable)))
    ensures forall l :: l in h.inflight ==> Misses(vs[|bs| - 2], bs[|bs| - 2], l)
  {
    var w := ws[|acts|];
    vs, bs := ShipUntilLooked(ws, acts, h);
    vs, bs := Extend(vs, bs, Plan);
    assert vs[|bs|] == w.(host := h, ship := Some(QuietShip(w, h, Planned)));
    vs, bs := Extend(vs, bs, Save);
  }

  lemma ShipUntilUploaded(ws: seq<World>, acts: seq<Action>, w: World, h: Host) returns (vs: seq<World>, bs: seq<Action>)
    requires FairRun(ws, acts) && NothingToRead(w, h) && w.saved.lastLine.None?
    requires ws[|acts|] == w.(host := h, saved := LaidOut(w.saved, h.now), ship := Some(QuietShip(w, h, Durable)))
    ensures FairRun(vs, bs) && ws <= vs && acts <= bs
    ensures vs[|bs|] == w.(host := h, saved := LaidOut(w.saved, h.now), ship := Some(QuietShip(w, h, HasUploaded)))
  {
    vs, bs := Extend(ws, acts, Read);
    assert vs[|bs|].ship.value.lines == {};
    vs, bs := Extend(vs, bs, Check);
    vs, bs := Extend(vs, bs, Upload);
  }

  lemma ShipUntilStored(ws: seq<World>, acts: seq<Action>, w: World, h: Host, g: Host) returns (vs: seq<World>, bs: seq<Action>)
    requires FairRun(ws, acts) && NothingToRead(w, h) && w.ship.None? && w.saved.lastLine.None? && FairMove(h, g, w.settle)
    requires ws[|acts|] == w.(host := h, saved := LaidOut(w.saved, h.now), ship := Some(QuietShip(w, h, HasUploaded)))
    ensures FairRun(vs, bs) && ws <= vs && acts <= bs && |acts| < |bs| && bs[|bs| - 1] == Store
    ensures vs[|bs| - 1] == w.(host := g, saved := LaidOut(w.saved, h.now),
                               ship := Some(QuietShip(w, h, Complete).(entry := Shipped(w, h.now))))
    ensures vs[|bs|] == w.(host := g, saved := Shipped(w, h.now), completed := w.completed + [Window(w.saved.cursor + 1, h.now)])
  {
    vs, bs := Extend(ws, acts, Finish(None));
    assert vs[|bs|].ship == Some(QuietShip(w, h, Complete).(entry := Shipped(w, h.now)));
    vs, bs := Extend(vs, bs, Move(g));
    vs, bs := Extend(vs, bs, Store);
    assert vs[|bs|].completed == w.completed + [Window(w.saved.cursor + 1, h.now)];
  }

  /** One ship of a quiet service, from its first step to its last: the host is h when the clock is read, and
      g when the ship is stored. */
  lemma ShipNothing(ws: seq<World>, acts: seq<Action>, h: Host, g: Host) returns (vs: seq<World>, bs: seq<Action>, m: nat)
    requires FairRun(ws, acts) && Quiet(ws[|acts|]) && NothingToRead(ws[|acts|], h)
    requires FairMove(ws[|acts|].host, h, ws[|acts|].settle) && FairMove(h, g, ws[|acts|].settle)
    ensures FairRun(vs, bs) && m < |bs| && bs[|bs| - 1] == Store && forall l :: l in h.inflight ==> Misses(vs[m], bs[m], l)
    ensures var w := ws[|acts|];
            && vs[|bs| - 1] == w.(host := g, saved := LaidOut(w.saved, h.now),
                                  ship := Some(QuietShip(w, h, Complete).(entry := Shipped(w, h.now))))
            && vs[|bs|] == w.(host := g, saved := Shipped(w, h.now), completed := w.completed + [Window(w.saved.cursor + 1, h.now)])
  {
    var w := ws[|acts|];
    vs, bs := ShipUntilSaved(ws, acts, h);
    m := |bs| - 2;
    vs, bs := ShipUntilUploaded(vs, bs, w, h);
    vs, bs := ShipUntilStored(vs, bs, w, h, g);
  }

  /** A line is passed by the last step without the code gap, and is in no object. */
  ghost predicate LostAtLast(ws: seq<World>, acts: seq<Action>, l: Line) {
    && FairRun(ws, acts) && |acts| > 0 && acts[|acts| - 1] == Store
    && Passes(ws[|acts| - 1], l) && l in ws[|acts| - 1].host.written && !Gap(ws[|acts| - 1].ship.value)
    && !Stored(ws[|acts|].bucket, l)
  }

  const STOPPED := Host(10, 0, false, {}, {}, {})

  lemma Start() returns (ws: seq<World>, acts: seq<Action>)
    ensures FairRun(ws, acts) && Quiet(ws[|acts|])
    ensures ws[|acts|] == World(Entry(0, Some(0), None, None, None), None, map[], [], 0, 5, STOPPED)
  {
    ws, acts := [World(Entry(0, Some(0), None, None, None), None, map[], [], 0, 5, STOPPED)], [];
  }

  lemma FirstShip(g: Host) returns (ws: seq<World>, acts: seq<Action>)
    requires FairMove(STOPPED, g, 5)
    ensures FairRun(ws, acts)
    ensures ws[|acts|] == World(Entry(10, Some(0), None, Some(0), None), None, map[], [Window(1, 10)], 0, 5, g)
  {
    ws, acts := Start();
    var m;
    ws, acts, m := ShipNothing(ws, acts, STOPPED, g);
  }

  /** Then the host moves on and a second ship finds nothing. */
  lemma SecondShip(g: Host, h: Host) returns (ws: seq<World>, acts: seq<Action>)
    requires FairMove(STOPPED, g, 5) && FairMove(g, h, 5) && !h.running && h.file == {} && 10 < h.now
    ensures FairRun(ws, acts) && |acts| > 0 && acts[|acts| - 1] == Store && ws[|acts|].bucket == map[]
    ensures var w := ws[|acts| - 1]; var e := Entry(10, Some(0), None, Some(0), None);
            w == World(LaidOut(e, h.now), w.ship, map[], [Window(1, 10)], 0, 5, h) &&
            w.ship == Some(Ship(Complete, Entry(h.now, Some(h.current), None, Some(h.current), None), h.current, false,
                                false, false, true, {}, false, false))
  {
    ws, acts := FirstShip(g);
    ws, acts := Extend(ws, acts, Move(h));
    var m;
    ws, acts, m := ShipNothing(ws, acts, h, h);
  }

  /** The first excuse is real: the line was written and rotated away before the first window was read. */
  lemma RotatedLineIsLost() returns (ws: seq<World>, acts: seq<Action>, l: Line)
    ensures LostAtLast(ws, acts, l) && Excused(ws[|acts| - 1], l) && l.container == ws[|acts| - 1].ship.value.container
  {
    l := Line(0, 15, 0);
    var h := Host(20, 0, false, {l}, {}, {});
    ws, acts := Start();
    ws, acts := Extend(ws, acts, Move(h));
    var m;
    ws, acts, m := ShipNothing(ws, acts, h, h);
  }

  /** The second excuse is real: container 0 is read to its end, container 1 writes the line and is replaced
      by container 2 before the next run. */
  lemma UnseenContainerIsLost() returns (ws: seq<World>, acts: seq<Action>, l: Line)
    ensures LostAtLast(ws, acts, l) && Excused(ws[|acts| - 1], l) && l.container != ws[|acts| - 1].ship.value.container
  {
    l := Line(1, 15, 0);
    ws, acts := SecondShip(STOPPED, Host(20, 2, false, {l}, {}, {}));
  }

  /** A drained container that is dropped may have run again: container 0 is seen stopped, starts again and
      writes before the ship is stored, which records it as drained, and is replaced before the next run. */
  lemma RestartedContainerIsLost() returns (ws: seq<World>, acts: seq<Action>, l: Line)
    ensures LostAtLast(ws, acts, l) && DroppedAsDrained(ws[|acts| - 1], l) && !Excused(ws[|acts| - 1], l)
  {
    l := Line(0, 15, 0);
    ws, acts := SecondShip(Host(15, 0, true, {l}, {l}, {}), Host(30, 1, false, {l}, {}, {}));
  }

  /** And a line may be missed between the look at the container and the clock: container 0 is seen stopped,
      starts again, and has the line under way when the clock is read. In the end it is still in its file. */
  lemma ClockAfterInspectLoses() returns (ws: seq<World>, acts: seq<Action>, l: Line, m: nat)
    ensures LostAtLast(ws, acts, l) && m < |acts| - 1 && Misses(ws[m], acts[m], l)
    ensures !Excused(ws[|acts| - 1], l) && !DroppedAsDrained(ws[|acts| - 1], l) && l in ws[|acts| - 1].host.file
  {
    l := Line(0, 15, 0);
    ws, acts := Start();
    ws, acts, m := ShipNothing(ws, acts, Host(16, 0, true, {}, {}, {l}), Host(17, 0, true, {l}, {l}, {}));
  }
}
