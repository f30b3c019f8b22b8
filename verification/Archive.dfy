/** Shipping one service's log windows: the entry kept in the state file, one ship as a sequence of
    steps between which the process may be killed, and the host that writes, rotates and replaces
    logs meanwhile. */
module Archive {
  import opened Wrappers
  import Runs

  datatype Window = Window(since: int, until: int)

  datatype Entry = Entry(
    cursor: int,
    container: Option<nat>,
    pending: Option<Window>,
    drained: Option<nat>,
    lastLine: Option<int>)

  /** One log line: the container that wrote it, its timestamp and what it says. */
  datatype Line = Line(container: nat, stamp: int, text: nat)

  predicate Spans(w: Window, t: int) { w.since <= t <= w.until }

  predicate InWindow(l: Line, w: Window) { Spans(w, l.stamp) }

  // ----- the entry -----

  predicate Replaced(e: Entry, c: nat) { e.container.Some? && e.container.value != c }

  /** A container that was not read to its end before it was replaced. */
  predicate LostOnReplace(e: Entry, c: nat) { Replaced(e, c) && e.drained != e.container }

  function Begun(e: Entry, c: nat): Entry {
    if Replaced(e, c) then e.(lastLine := None) else e
  }

  function LaidOut(e: Entry, until: int): Entry {
    e.(pending := Some(Window(e.cursor + 1, until)))
  }

  function Completed(e: Entry, c: nat, isNew: bool, running: bool, newest: Option<int>): Entry
    requires e.pending.Some?
  {
    var until := e.pending.value.until;
    Entry(if until > e.cursor then until else e.cursor,
          Some(c),
          None,
          if isNew && !running then Some(c) else None,
          if newest.Some? then newest else e.lastLine)
  }

  // ----- the world -----

  /** The machine whose logs are read: its clock, the service's one container and whether it runs,
      every line ever written to a log file, the lines still in the current container's file, and
      the lines stamped but not written yet. */
  datatype Host = Host(
    now: int,
    current: nat,
    running: bool,
    written: set<Line>,
    file: set<Line>,
    inflight: set<Line>)

  datatype Phase = Observed | Looked | Planned | Durable | HasRead | HasChecked | Unanswered | HasUploaded | Complete

  /** A ship in progress: the entry in memory and what it saw so far. */
  datatype Ship = Ship(
    phase: Phase,
    entry: Entry,
    container: nat,
    running: bool,
    lost: bool,
    behind: bool,
    isNew: bool,
    lines: set<Line>,
    baseline: bool,
    rotated: bool)

  datatype World = World(
    saved: Entry,
    ship: Option<Ship>,
    bucket: map<int, set<Line>>,
    completed: seq<Window>,
    start: int,
    settle: nat,
    host: Host)

  datatype Action =
    | Begin
    | Look
    | Plan
    | Save
    | Read
    | Check
    | Upload
    | UploadLost
    | Finish(newest: Option<int>)
    | Store
    | Abort
    | Kill
    | Move(host: Host)

  predicate In(w: World, p: Phase) { w.ship.Some? && w.ship.value.phase == p }

  predicate HasWindow(w: World) { w.ship.Some? && w.ship.value.entry.pending.Some? }

  function WindowOf(w: World): Window
    requires HasWindow(w)
  {
    w.ship.value.entry.pending.value
  }

  /** The last shipped line is looked up again only when there is one; a timestamp of zero counts as none. */
  predicate HasBaseline(e: Entry) { e.lastLine.Some? && e.lastLine.value != 0 }

  /** The newest timestamp of a set of lines, or none of an empty set. */
  ghost predicate IsNewest(lines: set<Line>, newest: Option<int>) {
    match newest
    case None => lines == {}
    case Some(t) => (exists l :: l in lines && l.stamp == t) && forall l :: l in lines ==> l.stamp <= t
  }

  /** What the ship returns: whether its code is gap. */
  predicate Gap(s: Ship) { s.rotated || s.lost || s.behind }

  /** The steps of a ship, in the order of the code. A read fails when the observed container is gone,
      and then only Abort or Kill is left. */
  ghost predicate Enabled(w: World, a: Action) {
    match a
    case Begin => w.ship.None?
    case Look => In(w, Observed)
    case Plan => In(w, Looked)
    case Save => In(w, Planned) && HasWindow(w)
    case Read => In(w, Durable) && HasWindow(w) &&
                 (WindowOf(w).since <= WindowOf(w).until ==> w.host.current == w.ship.value.container)
    case Check => In(w, HasRead) && (HasBaseline(w.ship.value.entry) ==> w.host.current == w.ship.value.container)
    case Upload => In(w, HasChecked) && HasWindow(w)
    case UploadLost => In(w, HasChecked) && HasWindow(w) && w.ship.value.lines != {}
    case Finish(newest) => In(w, HasUploaded) && HasWindow(w) && IsNewest(w.ship.value.lines, newest)
    case Store => In(w, Complete)
    case Abort => w.ship.Some? && w.ship.value.phase != Complete
    case Kill => w.ship.Some?
    case Move(_) => true
  }

  /** Create-only: an object that exists keeps its content. */
  function Created(bucket: map<int, set<Line>>, name: int, lines: set<Line>): map<int, set<Line>> {
    if name in bucket then bucket else bucket[name := lines]
  }

  function Next(w: World, a: Action): World
    requires Enabled(w, a)
  {
    match a
    case Begin =>
      w.(ship := Some(Ship(Observed, Begun(w.saved, w.host.current), w.host.current, w.host.running,
                           LostOnReplace(w.saved, w.host.current), false, false, {}, false, false)))
    case Look =>
      var s := w.ship.value;
      w.(ship := Some(s.(phase := Looked, behind := w.host.now < s.entry.cursor)))
    case Plan =>
      var s := w.ship.value;
      if s.entry.pending.None? then
        var until := w.host.now - if s.running then w.settle else 0;
        w.(ship := Some(s.(phase := Planned, isNew := true, entry := LaidOut(s.entry, until))))
      else
        w.(ship := Some(s.(phase := Planned)))
    case Save =>
      var s := w.ship.value;
      w.(ship := Some(s.(phase := Durable)), saved := if s.isNew then s.entry else w.saved)
    case Read =>
      var s := w.ship.value;
      w.(ship := Some(s.(phase := HasRead, lines := set l | l in w.host.file && InWindow(l, WindowOf(w)))))
    case Check =>
      var s := w.ship.value;
      var baseline := HasBaseline(s.entry);
      w.(ship := Some(s.(phase := HasChecked, baseline := baseline,
                         rotated := baseline && !exists l :: l in w.host.file && l.stamp == s.entry.lastLine.value)))
    case Upload =>
      var s := w.ship.value;
      w.(ship := Some(s.(phase := HasUploaded)),
         bucket := if s.lines == {} then w.bucket else Created(w.bucket, WindowOf(w).until, s.lines))
    case UploadLost =>
      var s := w.ship.value;
      w.(ship := Some(s.(phase := Unanswered)), bucket := Created(w.bucket, WindowOf(w).until, s.lines))
    case Finish(newest) =>
      var s := w.ship.value;
      w.(ship := Some(s.(phase := Complete, entry := Completed(s.entry, s.container, s.isNew, s.running, newest))))
    case Store =>
      var p := w.saved.pending;
      w.(ship := None, saved := w.ship.value.entry,
         completed := if p.Some? && p.value.since <= p.value.until then w.completed + [p.value] else w.completed)
    case Abort => w.(ship := None, saved := w.ship.value.entry)
    case Kill => w.(ship := None)
    case Move(host) => w.(host := host)
  }

  // ----- what holds whatever the host and its clock do -----

  /** Completed windows follow each other without gap or overlap. */
  predicate Tiles(ws: seq<Window>, start: int, end: int) {
    if ws == [] then start == end
    else
      var last := ws[|ws| - 1];
      last.since <= last.until && last.until == end && Tiles(ws[..|ws| - 1], start, last.since - 1)
  }

  predicate SameButLast(e: Entry, f: Entry) { e.(lastLine := f.lastLine) == f }

  predicate PendingFollows(e: Entry) { e.pending.Some? ==> e.pending.value.since == e.cursor + 1 }

  /** What a ship in progress holds, by phase. */
  predicate ShipFollows(w: World, s: Ship) {
    && (s.phase == Observed || s.phase == Looked ==> !s.isNew && SameButLast(s.entry, w.saved))
    && (s.phase == Planned ==>
          s.entry.pending.Some? && PendingFollows(s.entry) &&
          (if s.isNew then w.saved.pending.None? && SameButLast(s.entry.(pending := None), w.saved)
           else SameButLast(s.entry, w.saved)))
    && (s.phase == Durable || s.phase == HasRead || s.phase == HasChecked || s.phase == Unanswered || s.phase == HasUploaded ==>
          s.entry.pending.Some? && SameButLast(s.entry, w.saved))
    && (s.phase == Complete ==>
          w.saved.pending.Some? && s.entry.pending.None? &&
          var until := w.saved.pending.value.until;
          s.entry.cursor == if until > w.saved.cursor then until else w.saved.cursor)
    && (s.phase == HasRead || s.phase == HasChecked || s.phase == HasUploaded ==>
          forall l :: l in s.lines ==> InWindow(l, s.entry.pending.value))
  }

  /** The object called u belongs to window p: it is named after its end and holds lines of it only. */
  predicate Belongs(bucket: map<int, set<Line>>, u: int, p: Window)
    requires u in bucket
  {
    p.since <= p.until == u && forall l :: l in bucket[u] ==> InWindow(l, p)
  }

  /** Every object belongs to a completed window or to the window on disk. */
  predicate NamesKnown(w: World) {
    forall u :: u in w.bucket ==> Owned(w.bucket, u, w.completed, w.saved.pending)
  }

  predicate Owned(bucket: map<int, set<Line>>, u: int, completed: seq<Window>, pending: Option<Window>)
    requires u in bucket
  {
    || (exists i :: 0 <= i < |completed| && Belongs(bucket, u, completed[i]))
    || (pending.Some? && Belongs(bucket, u, pending.value))
  }

  predicate Protocol(w: World) {
    && Tiles(w.completed, w.start, w.saved.cursor)
    && PendingFollows(w.saved)
    && (w.ship.Some? ==> ShipFollows(w, w.ship.value))
    && NamesKnown(w)
  }

  lemma {:induction false} TilesBelow(ws: seq<Window>, start: int, end: int, i: nat)
    requires Tiles(ws, start, end) && i < |ws|
    ensures start < ws[i].until <= end && start < ws[i].since <= ws[i].until
    decreases |ws|
  {
    var last := ws[|ws| - 1];
    TilesAscend(ws[..|ws| - 1], start, last.since - 1);
    if i < |ws| - 1 {
      TilesBelow(ws[..|ws| - 1], start, last.since - 1, i);
    }
  }

  lemma {:induction false} TilesAscend(ws: seq<Window>, start: int, end: int)
    requires Tiles(ws, start, end)
    ensures start <= end
    decreases |ws|
  {
    if ws != [] {
      TilesAscend(ws[..|ws| - 1], start, ws[|ws| - 1].since - 1);
    }
  }

  /** Two completed windows share no instant. */
  lemma {:induction false} TilesDisjoint(ws: seq<Window>, start: int, end: int, i: nat, j: nat)
    requires Tiles(ws, start, end) && i < j < |ws|
    ensures ws[i].until < ws[j].since
    decreases |ws|
  {
    var front, last := ws[..|ws| - 1], ws[|ws| - 1];
    if j == |ws| - 1 {
      TilesBelow(front, start, last.since - 1, i);
    } else {
      TilesDisjoint(front, start, last.since - 1, i, j);
    }
  }

  /** Every instant of (start, end] lies in a completed window. */
  lemma {:induction false} TilesCover(ws: seq<Window>, start: int, end: int, t: int) returns (i: nat)
    requires Tiles(ws, start, end) && start < t <= end
    ensures i < |ws| && ws[i].since <= t <= ws[i].until
    decreases |ws|
  {
    var last := ws[|ws| - 1];
    if last.since <= t {
      i := |ws| - 1;
    } else {
      i := TilesCover(ws[..|ws| - 1], start, last.since - 1, t);
    }
  }

  lemma StoreTiles(w: World)
    requires Protocol(w) && Enabled(w, Store)
    ensures Tiles(Next(w, Store).completed, w.start, Next(w, Store).saved.cursor)
    ensures forall i :: 0 <= i < |w.completed| ==> i < |Next(w, Store).completed| && Next(w, Store).completed[i] == w.completed[i]
  {
    var p := w.saved.pending.value;
    if p.since <= p.until {
      assert (w.completed + [p])[..|w.completed|] == w.completed;
    }
  }

  lemma UploadNames(w: World, a: Action)
    requires Protocol(w) && Enabled(w, a) && (a.Upload? || a.UploadLost?)
    ensures NamesKnown(Next(w, a))
  {
    var s, v := w.ship.value, Next(w, a);
    if s.lines != {} {
      var l :| l in s.lines;
      assert InWindow(l, s.entry.pending.value);
    }
    forall u | u in v.bucket
      ensures Owned(v.bucket, u, v.completed, v.saved.pending)
    {
      if u in w.bucket {
        OwnedStill(w.bucket, v.bucket, u, w.completed, w.saved.pending);
      }
    }
  }

  lemma OwnedStill(older: map<int, set<Line>>, newer: map<int, set<Line>>, u: int, completed: seq<Window>, p: Option<Window>)
    requires u in older && u in newer && older[u] == newer[u] && Owned(older, u, completed, p)
    ensures Owned(newer, u, completed, p)
  {
    if !(p.Some? && Belongs(older, u, p.value)) {
      var i :| 0 <= i < |completed| && Belongs(older, u, completed[i]);
      assert Belongs(newer, u, completed[i]);
    }
  }

  lemma OwnedByCompleted(bucket: map<int, set<Line>>, u: int, completed: seq<Window>, p: Window)
    requires u in bucket && Owned(bucket, u, completed, Some(p))
    ensures Owned(bucket, u, if p.since <= p.until then completed + [p] else completed, None)
  {
    if Belongs(bucket, u, p) {
      assert (completed + [p])[|completed|] == p;
    } else {
      var i :| 0 <= i < |completed| && Belongs(bucket, u, completed[i]);
      assert (completed + [p])[i] == completed[i];
    }
  }

  lemma StoreNames(w: World)
    requires Protocol(w) && Enabled(w, Store)
    ensures NamesKnown(Next(w, Store))
  {
    forall u | u in w.bucket
      ensures Owned(w.bucket, u, Next(w, Store).completed, None)
    {
      OwnedByCompleted(w.bucket, u, w.completed, w.saved.pending.value);
    }
  }

  /** Every step keeps the protocol, and the cursor never goes back. */
  lemma StepKeepsProtocol(w: World, a: Action)
    requires Protocol(w) && Enabled(w, a)
    ensures Protocol(Next(w, a)) && w.saved.cursor <= Next(w, a).saved.cursor
    ensures forall u :: u in w.bucket ==> u in Next(w, a).bucket && Next(w, a).bucket[u] == w.bucket[u]
  {
    if a.Store? {
      StoreTiles(w);
      StoreNames(w);
    } else if a.Upload? || a.UploadLost? {
      UploadNames(w, a);
    }
  }

  // ----- whole runs -----

  /** A service as arming leaves it, or as a run finds one that was added to the configuration later. */
  predicate Armed(w: World) {
    && w.saved.pending.None? && w.saved.drained.None? && w.saved.lastLine.None?
    && w.ship.None? && w.bucket == map[] && w.completed == []
    && w.start == w.saved.cursor <= w.host.now
    && (w.saved.container.Some? ==> w.saved.container.value == w.host.current)
  }

  ghost predicate Step(w: World, a: Action, v: World) { Enabled(w, a) && v == Next(w, a) }

  ghost predicate Behaves(ws: seq<World>, acts: seq<Action>) { Runs.Behaves(Step, ws, acts) }

  /** A kill may come at any moment of a ship: the entry on disk and the objects stay, and the next run begins
      from them. */
  lemma KilledAnywhere(ws: seq<World>, acts: seq<Action>) returns (vs: seq<World>)
    requires Behaves(ws, acts) && ws[|acts|].ship.Some?
    ensures Behaves(vs, acts + [Kill] + [Begin]) && ws <= vs
    ensures var w, v := ws[|acts|], vs[|acts| + 2];
            v.ship.Some? && v.saved == w.saved && v.bucket == w.bucket && v.completed == w.completed && v.host == w.host
  {
    var w := ws[|acts|];
    var u := Next(w, Kill);
    assert Step(w, Kill, u) && Step(u, Begin, Next(u, Begin));
    Runs.Extend(Step, ws, acts, Kill, u);
    Runs.Extend(Step, ws + [u], acts + [Kill], Begin, Next(u, Begin));
    vs := ws + [u] + [Next(u, Begin)];
  }

  predicate Contained(older: map<int, set<Line>>, newer: map<int, set<Line>>) {
    forall u :: u in older ==> u in newer && newer[u] == older[u]
  }

  /** In every run from arming, with kills, failed calls, lost responses, clock steps and container
      replacements anywhere, the protocol holds, the cursor never goes back and an object is never
      changed. */
  lemma {:induction false} RunKeepsProtocol(ws: seq<World>, acts: seq<Action>, i: nat, j: nat)
    requires Behaves(ws, acts) && Armed(ws[0]) && i <= j < |ws|
    ensures Protocol(ws[j]) && ws[j].start == ws[0].start
    ensures ws[i].saved.cursor <= ws[j].saved.cursor && Contained(ws[i].bucket, ws[j].bucket)
    decreases j
  {
    if j > 0 {
      var k := if i < j then i else j - 1;
      RunKeepsProtocol(ws, acts, k, j - 1);
      assert Step(ws[j - 1], acts[j - 1], ws[j]);
      StepKeepsProtocol(ws[j - 1], acts[j - 1]);
    }
  }

  /** The completed windows of a run tile (start, cursor]: each instant of it lies in exactly one of them. */
  lemma RunTiles(ws: seq<World>, acts: seq<Action>, t: int) returns (i: nat)
    requires Behaves(ws, acts) && Armed(ws[0])
    requires ws[0].start < t <= ws[|acts|].saved.cursor
    ensures i < |ws[|acts|].completed| && Spans(ws[|acts|].completed[i], t)
    ensures forall j :: 0 <= j < |ws[|acts|].completed| && Spans(ws[|acts|].completed[j], t) ==> j == i
  {
    var w := ws[|acts|];
    RunKeepsProtocol(ws, acts, 0, |acts|);
    i := TilesCover(w.completed, w.start, w.saved.cursor, t);
    forall j | 0 <= j < |w.completed| && Spans(w.completed[j], t)
      ensures j == i
    {
      if j < i {
        TilesDisjoint(w.completed, w.start, w.saved.cursor, j, i);
      } else if i < j {
        TilesDisjoint(w.completed, w.start, w.saved.cursor, i, j);
      }
    }
  }

  /** Of two windows that share an instant, both are the same one. */
  lemma OneWindow(w: World, p: Window, q: Window, t: int)
    requires Protocol(w) && Spans(p, t) && Spans(q, t)
    requires p in w.completed || w.saved.pending == Some(p)
    requires q in w.completed || w.saved.pending == Some(q)
    ensures p == q
  {
    if p in w.completed {
      var i :| 0 <= i < |w.completed| && w.completed[i] == p;
      TilesBelow(w.completed, w.start, w.saved.cursor, i);
      if q in w.completed {
        var j :| 0 <= j < |w.completed| && w.completed[j] == q;
        if i < j {
          TilesDisjoint(w.completed, w.start, w.saved.cursor, i, j);
        } else if j < i {
          TilesDisjoint(w.completed, w.start, w.saved.cursor, j, i);
        }
      }
    } else if q in w.completed {
      var j :| 0 <= j < |w.completed| && w.completed[j] == q;
      TilesBelow(w.completed, w.start, w.saved.cursor, j);
    }
  }

  lemma OwnerOf(w: World, u: int, l: Line) returns (p: Window)
    requires Protocol(w) && u in w.bucket && l in w.bucket[u]
    ensures (p in w.completed || w.saved.pending == Some(p)) && p.until == u && Spans(p, l.stamp)
  {
    if i :| 0 <= i < |w.completed| && Belongs(w.bucket, u, w.completed[i]) {
      p := w.completed[i];
    } else {
      p := w.saved.pending.value;
    }
    assert InWindow(l, p);
  }

  /** At most once: no line is ever in two objects. */
  lemma NoLineTwice(ws: seq<World>, acts: seq<Action>, l: Line, u: int, v: int)
    requires Behaves(ws, acts) && Armed(ws[0])
    requires u in ws[|acts|].bucket && l in ws[|acts|].bucket[u]
    requires v in ws[|acts|].bucket && l in ws[|acts|].bucket[v]
    ensures u == v
  {
    var w := ws[|acts|];
    RunKeepsProtocol(ws, acts, 0, |acts|);
    var p := OwnerOf(w, u, l);
    var q := OwnerOf(w, v, l);
    OneWindow(w, p, q, l.stamp);
  }
}
