/** What one completed ship reports and leaves behind, from what the host was like at each of its steps. */
module ArchiveShip {
  import opened Wrappers
  import Runs
  import opened Archive

  /** Where in a run the steps of a ship were taken. */
  datatype Trail = Trail(begin: nat, look: nat, plan: nat, read: nat, check: nat, upload: nat)

  function Rank(p: Phase): nat {
    match p
    case Observed => 0
    case Looked => 1
    case Planned => 2
    case Durable => 3
    case HasRead => 4
    case HasChecked => 5
    case Unanswered => 6
    case HasUploaded => 6
    case Complete => 7
  }

  // ----- what a run finds, from the entry it reads and the host it inspects -----

  /** Another container than the one that was shipped last. */
  predicate IsOther(e: Entry, h: Host) { e.container.Some? && e.container.value != h.current }

  /** The line shipped last, if it belongs to the container that is there now. */
  function Mark(e: Entry, h: Host): Option<int> { if IsOther(e, h) then None else e.lastLine }

  /** The window: the one left over, or all from behind the cursor to the clock, less the settle time of a
      running container. */
  function WindowFrom(e: Entry, h: Host, now: int, settle: nat): Window {
    if e.pending.Some? then e.pending.value
    else Window(e.cursor + 1, if h.running then now - settle else now)
  }

  ghost function LinesFrom(w: Window, file: set<Line>): set<Line> { set l | l in file && w.since <= l.stamp <= w.until }

  predicate MarkIsGone(e: Entry, h: Host, file: set<Line>) {
    Mark(e, h).Some? && Mark(e, h).value != 0 && forall l :: l in file ==> l.stamp != Mark(e, h).value
  }

  /** What is reported as a gap: another container without the last one read to its end, a clock below the
      cursor, or the line shipped last gone from the file. */
  predicate HasGap(e: Entry, h: Host, now: int, file: set<Line>) {
    || (IsOther(e, h) && e.drained != e.container)
    || now < e.cursor
    || MarkIsGone(e, h, file)
  }

  /** The entry that a completed ship leaves. */
  ghost predicate Leaves(f: Entry, e: Entry, h: Host, w: Window, lines: set<Line>) {
    && f.cursor == (if w.until > e.cursor then w.until else e.cursor)
    && f.container == Some(h.current) && f.pending.None?
    && f.drained == (if e.pending.None? && !h.running then Some(h.current) else None)
    && if lines == {} then f.lastLine == Mark(e, h) else IsNewest(lines, f.lastLine)
  }

  // ----- what a ship knows after each of its steps -----

  predicate KnowsHost(s: Ship, e: Entry, h: Host) {
    && s.container == h.current && s.running == h.running
    && (s.lost <==> IsOther(e, h) && e.drained != e.container)
    && (s.phase != Complete ==> s.entry.cursor == e.cursor && s.entry.lastLine == Mark(e, h))
    && (Rank(s.phase) < 2 ==> !s.isNew && s.entry.pending == e.pending)
  }

  predicate KnowsClock(s: Ship, e: Entry, now: int) { Rank(s.phase) >= 1 ==> (s.behind <==> now < e.cursor) }

  predicate KnowsWindow(s: Ship, e: Entry, w: Window) {
    && (Rank(s.phase) >= 2 ==> (s.isNew <==> e.pending.None?))
    && (2 <= Rank(s.phase) < 7 ==> s.entry.pending == Some(w))
  }

  ghost predicate KnowsLines(s: Ship, w: Window, file: set<Line>) { Rank(s.phase) >= 4 ==> s.lines == LinesFrom(w, file) }

  predicate KnowsMark(s: Ship, e: Entry, h: Host, file: set<Line>) {
    Rank(s.phase) >= 5 ==> (s.rotated <==> MarkIsGone(e, h, file))
  }

  /** The worlds in which a ship took its steps; of a step still to come, any world. */
  datatype Sights = Sights(begin: World, look: World, plan: World, read: World, check: World)

  function WindowSeen(x: Sights): Window { WindowFrom(x.begin.saved, x.begin.host, x.plan.host.now, x.begin.settle) }

  ghost predicate Knows(s: Ship, x: Sights) {
    var e, h := x.begin.saved, x.begin.host;
    && KnowsHost(s, e, h) && KnowsClock(s, e, x.look.host.now) && KnowsWindow(s, e, WindowSeen(x))
    && KnowsLines(s, WindowSeen(x), x.read.host.file) && KnowsMark(s, e, h, x.check.host.file)
    && (s.phase == Complete ==> Leaves(s.entry, e, h, WindowSeen(x), s.lines))
  }

  function SeenAt(x: Sights, a: Action, w: World): Sights {
    match a
    case Begin => Sights(w, w, w, w, w)
    case Look => x.(look := w)
    case Plan => x.(plan := w)
    case Read => x.(read := w)
    case Check => x.(check := w)
    case _ => x
  }

  predicate Sees(a: Action) { a.Look? || a.Plan? || a.Read? || a.Check? }

  lemma LookKnows(w: World, x: Sights)
    requires Enabled(w, Look) && Knows(w.ship.value, x)
    ensures Next(w, Look).ship.Some? && Knows(Next(w, Look).ship.value, x.(look := w))
  {
  }

  lemma PlanKnows(w: World, x: Sights)
    requires Enabled(w, Plan) && Knows(w.ship.value, x) && w.settle == x.begin.settle
    ensures Next(w, Plan).ship.Some? && Knows(Next(w, Plan).ship.value, x.(plan := w))
  {
  }

  lemma ReadKnows(w: World, x: Sights)
    requires Enabled(w, Read) && Knows(w.ship.value, x)
    ensures Next(w, Read).ship.Some? && Knows(Next(w, Read).ship.value, x.(read := w))
  {
  }

  lemma CheckKnows(w: World, x: Sights)
    requires Enabled(w, Check) && Knows(w.ship.value, x)
    ensures Next(w, Check).ship.Some? && Knows(Next(w, Check).ship.value, x.(check := w))
  {
  }

  lemma SeeingKnows(w: World, a: Action, x: Sights)
    requires Enabled(w, a) && Sees(a) && Knows(w.ship.value, x) && w.settle == x.begin.settle
    ensures Next(w, a).ship.Some? && Knows(Next(w, a).ship.value, SeenAt(x, a, w))
  {
    match a
    case Look => LookKnows(w, x);
    case Plan => PlanKnows(w, x);
    case Read => ReadKnows(w, x);
    case Check => CheckKnows(w, x);
  }

  /** The steps that look at nothing, and the host, change nothing of that. */
  lemma OthersKnow(w: World, a: Action, x: Sights)
    requires Enabled(w, a) && w.ship.Some? && Knows(w.ship.value, x)
    requires a.Save? || a.Upload? || a.UploadLost? || a.Finish? || a.Move?
    ensures Next(w, a).ship.Some? && Knows(Next(w, a).ship.value, x)
  {
    if a.Finish? && w.ship.value.lines == {} {
      assert IsNewest(w.ship.value.lines, a.newest) ==> a.newest.None?;
    }
  }

  lemma StepKnows(w: World, a: Action, x: Sights)
    requires Enabled(w, a) && Next(w, a).ship.Some?
    requires w.ship.Some? ==> Knows(w.ship.value, x) && w.settle == x.begin.settle
    ensures Knows(Next(w, a).ship.value, SeenAt(x, a, w)) && Next(w, a).settle == SeenAt(x, a, w).begin.settle
  {
    if Sees(a) {
      SeeingKnows(w, a, x);
    } else if !a.Begin? {
      OthersKnow(w, a, x);
    }
  }

  // ----- whole runs -----

  predicate Settles(a: Action) { a.Begin? || a.Store? || a.Abort? || a.Kill? }

  function Onward(t: Trail, a: Action, i: nat): Trail {
    match a
    case Begin => Trail(i, i, i, i, i, i)
    case Look => t.(look := i)
    case Plan => t.(plan := i)
    case Read => t.(read := i)
    case Check => t.(check := i)
    case Upload => t.(upload := i)
    case _ => t
  }

  predicate Within(t: Trail, i: nat) { t.begin < i && t.look < i && t.plan < i && t.read < i && t.check < i && t.upload < i }

  ghost predicate Alone(acts: seq<Action>, i: nat, t: Trail)
    requires i <= |acts|
  {
    t.begin < i && acts[t.begin] == Begin && forall m :: t.begin < m < i ==> !Settles(acts[m])
  }

  /** A ship of that phase has taken these steps. */
  ghost predicate Taken(p: Phase, acts: seq<Action>, i: nat, t: Trail)
    requires i <= |acts|
  {
    && Within(t, i)
    && (Rank(p) >= 1 ==> t.begin < t.look && acts[t.look] == Look)
    && (Rank(p) >= 2 ==> t.look < t.plan && acts[t.plan] == Plan)
    && (Rank(p) >= 4 ==> t.plan < t.read && acts[t.read] == Read)
    && (Rank(p) >= 5 ==> t.read < t.check && acts[t.check] == Check)
    && (p == HasUploaded || p == Complete ==> t.check < t.upload && acts[t.upload] == Upload)
  }

  function SightsOf(ws: seq<World>, t: Trail): Sights
    requires Within(t, |ws|)
  {
    Sights(ws[t.begin], ws[t.look], ws[t.plan], ws[t.read], ws[t.check])
  }

  /** The step takes a ship from phase p to phase q. */
  predicate Turns(p: Phase, a: Action, q: Phase) {
    match a
    case Look => p == Observed && q == Looked
    case Plan => p == Looked && q == Planned
    case Save => p == Planned && q == Durable
    case Read => p == Durable && q == HasRead
    case Check => p == HasRead && q == HasChecked
    case Upload => p == HasChecked && q == HasUploaded
    case UploadLost => p == HasChecked && q == Unanswered
    case Finish(_) => p == HasUploaded && q == Complete
    case Move(_) => p == q
    case _ => false
  }

  lemma PhaseAfter(w: World, a: Action)
    requires Enabled(w, a) && Next(w, a).ship.Some?
    ensures if a.Begin? then Next(w, a).ship.value.phase == Observed
            else w.ship.Some? && Turns(w.ship.value.phase, a, Next(w, a).ship.value.phase)
  {
  }

  lemma StepAlone(acts: seq<Action>, i: nat, t: Trail)
    requires i < |acts| && !Settles(acts[i]) && Alone(acts, i, t)
    ensures Alone(acts, i + 1, Onward(t, acts[i], i))
  {
  }

  lemma OnwardTaken(p: Phase, q: Phase, acts: seq<Action>, i: nat, t: Trail)
    requires i < |acts| && Turns(p, acts[i], q) && Taken(p, acts, i, t)
    ensures Taken(q, acts, i + 1, Onward(t, acts[i], i))
  {
  }

  lemma StepTaken(w: World, acts: seq<Action>, i: nat, t: Trail)
    requires i < |acts| && Enabled(w, acts[i]) && Next(w, acts[i]).ship.Some?
    requires w.ship.Some? ==> Taken(w.ship.value.phase, acts, i, t) && Alone(acts, i, t)
    ensures Taken(Next(w, acts[i]).ship.value.phase, acts, i + 1, Onward(t, acts[i], i))
    ensures Alone(acts, i + 1, Onward(t, acts[i], i))
  {
    PhaseAfter(w, acts[i]);
    if !acts[i].Begin? {
      StepAlone(acts, i, t);
      OnwardTaken(w.ship.value.phase, Next(w, acts[i]).ship.value.phase, acts, i, t);
    }
  }

  /** The trail fits the ship at i. */
  ghost predicate Follows(ws: seq<World>, acts: seq<Action>, i: nat, t: Trail) {
    && i < |ws| && i <= |acts| && ws[i].ship.Some?
    && Taken(ws[i].ship.value.phase, acts, i, t) && Alone(acts, i, t)
    && Knows(ws[i].ship.value, SightsOf(ws, t)) && ws[i].settle == ws[t.begin].settle
  }

  lemma SightsOnward(ws: seq<World>, t: Trail, a: Action, i: nat)
    requires i < |ws| && Within(t, |ws|)
    ensures Within(Onward(t, a, i), |ws|) && SightsOf(ws, Onward(t, a, i)) == SeenAt(SightsOf(ws, t), a, ws[i])
  {
  }

  lemma StepFollows(ws: seq<World>, acts: seq<Action>, i: nat, t: Trail)
    requires i < |acts| && i + 1 < |ws| && Step(ws[i], acts[i], ws[i + 1]) && ws[i + 1].ship.Some? && Within(t, |ws|)
    requires ws[i].ship.Some? ==> Follows(ws, acts, i, t)
    ensures Follows(ws, acts, i + 1, Onward(t, acts[i], i))
  {
    StepTaken(ws[i], acts, i, t);
    StepKnows(ws[i], acts[i], SightsOf(ws, t));
    SightsOnward(ws, t, acts[i], i);
  }

  lemma {:induction false} TrailOf(ws: seq<World>, acts: seq<Action>, i: nat) returns (t: Trail)
    requires Behaves(ws, acts) && ws[0].ship.None? && i < |ws| && ws[i].ship.Some?
    ensures Follows(ws, acts, i, t)
    decreases i
  {
    assert Step(ws[i - 1], acts[i - 1], ws[i]);
    t := Trail(0, 0, 0, 0, 0, 0);
    if ws[i - 1].ship.Some? {
      t := TrailOf(ws, acts, i - 1);
    }
    StepFollows(ws, acts, i - 1, t);
    t := Onward(t, acts[i - 1], i - 1);
  }

  /** The steps of a ship that is stored at n, in their order, and nothing of another ship between them. */
  ghost predicate Took(acts: seq<Action>, n: nat, t: Trail) {
    && t.begin < t.look < t.plan < t.read < t.check < t.upload < n < |acts|
    && acts[t.begin] == Begin && acts[t.look] == Look && acts[t.plan] == Plan && acts[t.read] == Read && acts[t.check] == Check
    && acts[t.upload] == Upload
    && acts[n] == Store && forall m :: t.begin < m < n ==> !Settles(acts[m])
  }

  /** In every run, a stored ship reports a gap exactly if the container it began with is another than the
      entry's, which was not read to its end; or the clock it read then was below the cursor; or the line
      shipped last was gone from the file when it looked again, after the read. */
  lemma GapExactly(ws: seq<World>, acts: seq<Action>, n: nat) returns (t: Trail)
    requires Behaves(ws, acts) && ws[0].ship.None? && n < |acts| && acts[n] == Store
    ensures Took(acts, n, t) && ws[n].ship.Some?
    ensures Gap(ws[n].ship.value) <==>
            HasGap(ws[t.begin].saved, ws[t.begin].host, ws[t.look].host.now, ws[t.check].host.file)
  {
    assert Step(ws[n], acts[n], ws[n + 1]);
    t := TrailOf(ws, acts, n);
  }

  /** And it leaves the cursor at the end of its window, the container it began with, the mark that this was
      read to its end, and the newest line of those its read found in the window. */
  lemma EntryLeft(ws: seq<World>, acts: seq<Action>, n: nat) returns (t: Trail)
    requires Behaves(ws, acts) && ws[0].ship.None? && n < |acts| && acts[n] == Store
    ensures Took(acts, n, t)
    ensures var b := ws[t.begin];
            var w := WindowFrom(b.saved, b.host, ws[t.plan].host.now, b.settle);
            Leaves(ws[n + 1].saved, b.saved, b.host, w, LinesFrom(w, ws[t.read].host.file))
  {
    assert Step(ws[n], acts[n], ws[n + 1]);
    t := TrailOf(ws, acts, n);
  }
}
