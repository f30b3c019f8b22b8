/** The public door of the production host: the serving controller's commands, each a sequence of steps
    under one lock, and the serving watchdog, with failures and kills anywhere. */
module ServingDoor {
  import opened Wrappers
  import Runs

  datatype Status = Unset | PrivateReady | PublicReady | PublicStopped | PublicStopFailed | ServingFailed

  datatype Door = NotSaid | Hold | Open | Unknown

  /** The durable receipt; an absent file reads as one that says nothing. */
  datatype Receipt = Receipt(status: Status, door: Door, resume: bool, binding: Option<nat>, manifest: Option<nat>)

  const NOTHING := Receipt(Unset, NotSaid, false, None, None)

  datatype Command = StartPrivate | Publish | Resume | StopPublic(keep: bool)

  datatype At =
    | Stopping
    | Stopped
    | StopFailed
    | Checked
    | Closed
    | Private
    | Opened
    | Failing
    | FailedClosed

  /** The command that holds the lock, the receipt it read, what it serves, and whether it will publish. */
  datatype Run = Run(command: Command, at: At, previous: Receipt, publish: bool, binding: nat, manifest: Option<nat>, known: bool)

  datatype World = World(receipt: Receipt, edge: bool, run: Option<Run>)

  datatype Action =
    | Begin(command: Command, binding: nat, manifest: Option<nat>)
    | RefuseInside(command: Command, seen: Option<nat>)
    | StopAll(ok: bool, edge: bool)
    | WriteStopped
    | WriteStopFailed
    | CloseEdge
    | WritePrivate
    | OpenEdge
    | WriteOpen
    | Fail(edge: bool)
    | WriteFailed
    | Leave
    | Tick
    | EdgeDies

  /** Both the controller and the watchdog act on a receipt only under the lock, and this is all the
      watchdog asks of it. */
  predicate Published(r: Receipt) { r.status == PublicReady && r.door == Open && r.resume }

  predicate Stands(w: World, at: At) { w.run.Some? && w.run.value.at == at }

  /** The receipt a resume accepts. */
  predicate Resumable(r: Receipt, binding: nat) {
    r.binding == Some(binding) && (r.status == PrivateReady || r.status == PublicReady || r.status == PublicStopped)
  }

  predicate WillPublish(c: Command, r: Receipt) { c == Publish || (c == Resume && r.resume) }

  /** The guards a command passes before it changes anything. */
  predicate Passes(c: Command, r: Receipt, binding: nat, manifest: Option<nat>) {
    && (c == StartPrivate ==> r.door != Open)
    && (c == Resume ==> Resumable(r, binding))
    && (c == Publish ==> r.binding == Some(binding) && r.status == PrivateReady)
    && (WillPublish(c, r) ==> manifest.Some?)
    && (c == Resume && r.resume ==> r.manifest == manifest)
  }

  predicate Enabled(w: World, a: Action) {
    match a
    case Begin(c, binding, manifest) => w.run.None? && (c.StopPublic? || Passes(c, w.receipt, binding, manifest))
    case RefuseInside(c, _) => w.run.None? && !c.StopPublic? && !(c == StartPrivate && w.receipt.door == Open)
    case StopAll(_, _) => Stands(w, Stopping) || Stands(w, Failing)
    case WriteStopped => Stands(w, Stopped)
    case WriteStopFailed => Stands(w, StopFailed)
    case CloseEdge => Stands(w, Checked)
    case WritePrivate => Stands(w, Closed)
    case OpenEdge => Stands(w, Private) && w.run.value.publish
    case WriteOpen => Stands(w, Opened)
    case Fail(_) => Stands(w, Checked) || Stands(w, Closed) || Stands(w, Private) || Stands(w, Opened)
    case WriteFailed => Stands(w, FailedClosed)
    case Leave => w.run.Some?
    case Tick => w.run.None? && Published(w.receipt)
    case EdgeDies => true
  }

  function Moved(w: World, at: At): World
    requires w.run.Some?
  {
    w.(run := Some(w.run.value.(at := at)))
  }

  /** A failing call may have changed the edge, but only opening it can have started it. */
  function Next(w: World, a: Action): World
    requires Enabled(w, a)
  {
    match a
    case Begin(c, binding, manifest) =>
      w.(run := Some(Run(c, if c.StopPublic? then Stopping else Checked, w.receipt, WillPublish(c, w.receipt), binding, manifest, true)))
    case RefuseInside(c, seen) =>
      w.(run := Some(Run(c, Failing, w.receipt, false, if seen.Some? then seen.value else 0, None, seen.Some?)))
    case StopAll(ok, edge) =>
      if ok then Moved(w, if Stands(w, Stopping) then Stopped else FailedClosed).(edge := false)
      else Moved(w, StopFailed).(edge := w.edge && edge)
    case WriteStopped =>
      var p := w.run.value.previous;
      w.(run := None, receipt := p.(door := Hold, resume := w.run.value.command == StopPublic(true) && p.resume, status := PublicStopped))
    case WriteStopFailed => w.(run := None, receipt := Receipt(PublicStopFailed, Unknown, false, None, None))
    case CloseEdge => Moved(w, Closed).(edge := false)
    case WritePrivate => Moved(w, Private).(receipt := Receipt(PrivateReady, Hold, false, Some(w.run.value.binding), None))
    case OpenEdge => Moved(w, Opened).(edge := true)
    case WriteOpen =>
      w.(run := None, receipt := Receipt(PublicReady, Open, true, Some(w.run.value.binding), w.run.value.manifest))
    case Fail(edge) => Moved(w, Failing).(edge := edge && (w.edge || (Stands(w, Private) && w.run.value.publish)))
    case WriteFailed =>
      var binding := if w.run.value.known then Some(w.run.value.binding) else w.run.value.previous.binding;
      w.(run := None, receipt := Receipt(ServingFailed, Hold, false, binding, None))
    case Leave => w.(run := None)
    case Tick => w.(edge := true)
    case EdgeDies => w.(edge := false)
  }

  predicate Step(w: World, a: Action, v: World) { Enabled(w, a) && v == Next(w, a) }

  ghost predicate Behaves(ws: seq<World>, acts: seq<Action>) { Runs.Behaves(Step, ws, acts) }

  predicate Initial(w: World) { w == World(NOTHING, false, None) }

  // ----- what a run in progress knows -----

  predicate RunSound(w: World, r: Run) {
    && (r.publish ==> WillPublish(r.command, r.previous) && Passes(r.command, r.previous, r.binding, r.manifest))
    && (r.at == Stopping || r.at == Stopped ==> r.command.StopPublic? && r.previous == w.receipt)
    && (r.at == Stopped || r.at == FailedClosed || r.at == Closed ==> !w.edge)
    && (r.at == Opened ==> r.publish)
  }

  predicate Sound(w: World) {
    w.run.Some? ==> RunSound(w, w.run.value)
  }

  lemma StepKeepsSound(w: World, a: Action)
    requires Sound(w) && Enabled(w, a)
    ensures Sound(Next(w, a))
  {
  }

  lemma {:induction false} RunIsSound(ws: seq<World>, acts: seq<Action>, i: nat)
    requires Behaves(ws, acts) && Initial(ws[0]) && i < |ws|
    ensures Sound(ws[i])
    decreases i
  {
    if i > 0 {
      RunIsSound(ws, acts, i - 1);
      assert Step(ws[i - 1], acts[i - 1], ws[i]);
      StepKeepsSound(ws[i - 1], acts[i - 1]);
    }
  }

  // ----- a closed door stays closed -----

  /** The edge is down, nothing recorded asks for it, and nobody at work is about to open it. */
  predicate Shut(w: World) { !w.edge && !w.receipt.resume && (w.run.Some? ==> !w.run.value.publish && !w.run.value.previous.resume) }

  predicate Publishes(a: Action) { a.Begin? && a.command == Publish }

  lemma {:induction false} StaysShut(ws: seq<World>, acts: seq<Action>, i: nat, j: nat)
    requires Behaves(ws, acts) && Initial(ws[0]) && i <= j < |ws| && Shut(ws[i])
    requires forall k :: i <= k < j ==> !Publishes(acts[k])
    ensures Shut(ws[j])
    decreases j
  {
    if i < j {
      StaysShut(ws, acts, i, j - 1);
      RunIsSound(ws, acts, j - 1);
      assert Step(ws[j - 1], acts[j - 1], ws[j]);
      assert Shut(Next(ws[j - 1], acts[j - 1]));
    }
  }

  /** A step that leaves the edge running although it did not before. */
  predicate Starts(w: World, a: Action)
    requires Enabled(w, a)
  {
    !w.edge && Next(w, a).edge
  }

  /** After a stop that worked and did not keep the intent to resume, whatever is resumed, started, stopped,
      failed, killed or supervised, the edge does not run until a publish begins. */
  lemma ClosedDoorStaysClosed(ws: seq<World>, acts: seq<Action>, i: nat, j: nat)
    requires Behaves(ws, acts) && Initial(ws[0]) && i < j < |ws|
    requires acts[i] == WriteStopped && ws[i].run.Some? && ws[i].run.value.command == StopPublic(false)
    requires forall k :: i < k < j ==> !Publishes(acts[k])
    ensures !ws[j].edge
  {
    RunIsSound(ws, acts, i);
    assert Step(ws[i], acts[i], ws[i + 1]);
    StaysShut(ws, acts, i + 1, j);
  }

  /** The edge may die at any moment, and then a tick over an open receipt starts it again. */
  lemma EdgeDiesAnywhere(ws: seq<World>, acts: seq<Action>)
    requires Behaves(ws, acts)
    ensures Behaves(ws + [ws[|acts|].(edge := false)], acts + [EdgeDies])
    ensures ws[|acts|].run.None? && LastWroteOpen(acts, |acts|) && Initial(ws[0]) ==>
              Behaves(ws + [ws[|acts|].(edge := false)] + [ws[|acts|].(edge := true)], acts + [EdgeDies] + [Tick])
  {
    var w := ws[|acts|];
    assert Step(w, EdgeDies, w.(edge := false));
    Runs.Extend(Step, ws, acts, EdgeDies, w.(edge := false));
    if w.run.None? && LastWroteOpen(acts, |acts|) && Initial(ws[0]) {
      PublishedMeansOpened(ws, acts, |acts|);
      assert Step(w.(edge := false), Tick, w.(edge := true));
      Runs.Extend(Step, ws + [w.(edge := false)], acts + [EdgeDies], Tick, w.(edge := true));
    }
  }

  // ----- nor does the watchdog open it -----

  /** The edge is down, the receipt does not say open, and nobody at work is about to open the edge. */
  predicate Unasked(w: World) { !w.edge && w.receipt.door != Open && (w.run.Some? ==> !w.run.value.publish) }

  predicate Asks(a: Action) { a.Begin? && (a.command == Publish || a.command == Resume) }

  lemma {:induction false} StaysUnasked(ws: seq<World>, acts: seq<Action>, i: nat, j: nat)
    requires Behaves(ws, acts) && Initial(ws[0]) && i <= j < |ws| && Unasked(ws[i])
    requires forall k :: i <= k < j ==> !Asks(acts[k])
    ensures Unasked(ws[j])
    decreases j
  {
    if i < j {
      StaysUnasked(ws, acts, i, j - 1);
      RunIsSound(ws, acts, j - 1);
      assert Step(ws[j - 1], acts[j - 1], ws[j]);
      assert Unasked(Next(ws[j - 1], acts[j - 1]));
    }
  }

  /** After a stop that worked, with or without the intent to resume, the edge does not run until a publish
      or a resume begins: no tick of the watchdog opens it. */
  lemma StoppedDoorWaits(ws: seq<World>, acts: seq<Action>, i: nat, j: nat)
    requires Behaves(ws, acts) && Initial(ws[0]) && i < j < |ws| && acts[i] == WriteStopped
    requires forall k :: i < k < j ==> !Asks(acts[k])
    ensures !ws[j].edge
  {
    RunIsSound(ws, acts, i);
    assert Step(ws[i], acts[i], ws[i + 1]);
    StaysUnasked(ws, acts, i + 1, j);
  }

  predicate Writes(a: Action) {
    a == WriteStopped || a == WriteStopFailed || a == WritePrivate || a == WriteOpen || a == WriteFailed
  }

  /** Of the steps before i that wrote the receipt, the last one wrote that the door is open. */
  ghost predicate LastWroteOpen(acts: seq<Action>, i: nat)
    requires i <= |acts|
  {
    exists k :: 0 <= k < i && acts[k] == WriteOpen && forall m :: k < m < i ==> !Writes(acts[m])
  }

  lemma LastWroteOpenStep(acts: seq<Action>, i: nat)
    requires i < |acts|
    ensures LastWroteOpen(acts, i + 1) <==> acts[i] == WriteOpen || (LastWroteOpen(acts, i) && !Writes(acts[i]))
  {
    if acts[i] != WriteOpen && LastWroteOpen(acts, i + 1) {
      var k :| 0 <= k < i + 1 && acts[k] == WriteOpen && forall m :: k < m < i + 1 ==> !Writes(acts[m]);
      assert k < i && !Writes(acts[i]);
    }
  }

  /** The watchdog takes a receipt as open exactly if the last step that wrote it opened the door. */
  lemma {:induction false} PublishedMeansOpened(ws: seq<World>, acts: seq<Action>, i: nat)
    requires Behaves(ws, acts) && Initial(ws[0]) && i < |ws|
    ensures Published(ws[i].receipt) <==> LastWroteOpen(acts, i)
    decreases i
  {
    if i > 0 {
      PublishedMeansOpened(ws, acts, i - 1);
      RunIsSound(ws, acts, i - 1);
      LastWroteOpenStep(acts, i - 1);
      assert Step(ws[i - 1], acts[i - 1], ws[i]);
    }
  }

  /** And a publish opens it only over a receipt of the same binding that says the private stack is ready;
      a resume only over one that still carries the intent, the binding and the published files; and the
      watchdog only while no command holds the lock and the last receipt written is that of an opening. */
  lemma OpeningIsAuthorized(ws: seq<World>, acts: seq<Action>, i: nat)
    requires Behaves(ws, acts) && Initial(ws[0]) && i < |acts| && Enabled(ws[i], acts[i]) && Starts(ws[i], acts[i])
    ensures acts[i].Tick? ==> LastWroteOpen(acts, i) && ws[i].run.None?
    ensures !acts[i].Tick? ==> ws[i].run.Some? && var r := ws[i].run.value;
              r.previous.binding == Some(r.binding) && r.manifest.Some? &&
              ((r.command == Publish && r.previous.status == PrivateReady) ||
               (r.command == Resume && r.previous.resume && r.previous.manifest == r.manifest))
  {
    RunIsSound(ws, acts, i);
    PublishedMeansOpened(ws, acts, i);
  }

  // ----- the intent to resume is never invented -----

  /** The receipt was opened with this binding and these files at step k, and no stop dropped the intent since. */
  ghost predicate OpenedAt(ws: seq<World>, acts: seq<Action>, k: nat, i: nat, r: Receipt)
    requires Behaves(ws, acts) && i < |ws|
  {
    && k < i && acts[k] == WriteOpen
    && ws[k + 1].receipt.binding == r.binding && ws[k + 1].receipt.manifest == r.manifest
    && forall m :: k < m < i && acts[m] == WriteStopped ==> ws[m].run.Some? && ws[m].run.value.command == StopPublic(true)
  }

  lemma {:induction false} IntentHasAnOpening(ws: seq<World>, acts: seq<Action>, i: nat) returns (k: nat)
    requires Behaves(ws, acts) && Initial(ws[0]) && i < |ws| && ws[i].receipt.resume
    ensures OpenedAt(ws, acts, k, i, ws[i].receipt)
    decreases i
  {
    RunIsSound(ws, acts, i - 1);
    assert Step(ws[i - 1], acts[i - 1], ws[i]);
    if acts[i - 1] == WriteOpen {
      k := i - 1;
    } else {
      k := IntentHasAnOpening(ws, acts, i - 1);
    }
  }

  // ----- the controller as the program performs it -----

  /** How the calls of one command end: the stop of the edge and the start of the private stack, the start of
      the edge, whether a failed start left it running, and its answer; the stop of the public services,
      whether a failed stop took the edge down; and whether the process lives to write what it ends with. */
  datatype Calls = Calls(closed: bool, privately: bool, up: bool, started: bool, answers: bool,
                         stopped: bool, down: bool, written: bool)

  /** How a command ends: with its status, refused before anything was asked for, failed with the door
      closed behind it, failed without that being certain, or killed. */
  datatype Outcome = Done(status: Status) | Refused | Failed | Uncertain | Killed

  /** How a command ends that failed once it had asked for its inputs. */
  function Closing(c: Calls): Outcome {
    if !c.written then Killed else if c.stopped then Failed else Uncertain
  }

  /** What a command asks of the receipt and of its inputs. */
  ghost predicate May(c: Command, r: Receipt, inputs: Option<(nat, Option<nat>)>) {
    inputs.Some? && var (binding, manifest) := inputs.value;
    match c
    case StartPrivate => r.door != Open
    case Publish => r.status == PrivateReady && r.binding == Some(binding) && manifest.Some?
    case Resume =>
      && r.binding == Some(binding) && r.status in {PrivateReady, PublicReady, PublicStopped}
      && (r.resume ==> manifest.Some? && r.manifest == manifest)
    case StopPublic(_) => true
  }

  /** The command ends with an open door if all goes well. */
  ghost predicate Publishing(c: Command, r: Receipt) {
    match c
    case Publish => true
    case Resume => r.resume
    case _ => false
  }

  /** How a command ends that passed its guards, and whether the edge runs then. */
  ghost function CarriedTo(publish: bool, c: Calls): Outcome {
    if !c.closed || !c.privately then Closing(c)
    else if !publish then Done(PrivateReady)
    else if c.up && c.answers then Done(PublicReady)
    else Closing(c)
  }

  ghost predicate EdgeAfter(publish: bool, c: Calls, edge: bool) {
    if CarriedTo(publish, c).Done? then publish
    else (if c.closed && c.privately then c.up || c.started else edge && !c.closed) && !c.stopped && !c.down
  }

  class Controller {
    var receipt: Receipt
    var edge: bool
    /** Every world passed and the step taken in each: a kill may come between any two. */
    ghost var past: seq<World>
    ghost var acts: seq<Action>

    constructor ()
      ensures Idle() && Initial(Now()) && acts == []
    {
      receipt, edge := NOTHING, false;
      past, acts := [World(NOTHING, false, None)], [];
    }

    ghost predicate Valid()
      reads this
    {
      Behaves(past, acts) && past[|acts|] == World(receipt, edge, past[|acts|].run)
    }

    ghost function Now(): World
      requires Valid()
      reads this
    {
      past[|acts|]
    }

    ghost predicate Idle()
      reads this
    {
      Valid() && Now().run.None?
    }

    /** The history only grows. */
    twostate predicate Grown()
      reads this
    {
      old(past) <= past && old(acts) <= acts
    }

    ghost predicate Busy(r: Run)
      reads this
    {
      Valid() && Now().run == Some(r)
    }

    /** The only way the receipt and the edge are changed: one step of the model, and both as it leaves them. */
    method Put(receipt: Receipt, edge: bool, ghost a: Action)
      requires Valid() && Enabled(Now(), a) && Next(Now(), a).receipt == receipt && Next(Now(), a).edge == edge
      modifies this
      ensures Valid() && this.receipt == receipt && this.edge == edge && Now() == Next(old(Now()), a) && Grown()
      ensures |past| == |old(past)| + 1
    {
      ghost var v := Next(Now(), a);
      assert Step(Now(), a, v);
      Runs.Extend(Step, past, acts, a, v);
      past, acts := past + [v], acts + [a];
      this.receipt, this.edge := receipt, edge;
    }

    /** A step that changes neither. */
    ghost method Note(a: Action)
      requires Valid() && Enabled(Now(), a) && Next(Now(), a).receipt == receipt && Next(Now(), a).edge == edge
      modifies this`past, this`acts
      ensures Valid() && Now() == Next(old(Now()), a) && Grown() && |past| == |old(past)| + 1
    {
      var v := Next(Now(), a);
      assert Step(Now(), a, v);
      Runs.Extend(Step, past, acts, a, v);
      past, acts := past + [v], acts + [a];
    }

    /** Stops the public services; a failure may leave the edge as it was. */
    method Stop(r: Run, c: Calls)
      requires Busy(r) && (r.at == Stopping || r.at == Failing)
      modifies this
      ensures Busy(r.(at := if !c.stopped then StopFailed else if r.at == Stopping then Stopped else FailedClosed))
      ensures Grown() && receipt == old(receipt) && edge == (old(edge) && !c.stopped && !c.down)
    {
      Put(receipt, edge && !c.stopped && !c.down, StopAll(c.stopped, !c.down));
    }

    /** Writes a receipt and ends the command, or is killed before it. */
    method Conclude(receipt: Receipt, c: Calls, ghost a: Action)
      requires Valid() && Now().run.Some? && Enabled(Now(), a) && Next(Now(), a) == World(receipt, edge, None)
      modifies this
      ensures Idle() && Grown() && edge == old(edge) && this.receipt == if c.written then receipt else old(this.receipt)
      ensures Now() == Next(old(Now()), if c.written then a else Leave) && |past| == |old(past)| + 1
    {
      if c.written {
        Put(receipt, edge, a);
      } else {
        Note(Leave);
      }
    }

    /** stop-public: the door is closed before the receipt is written. */
    method StopPublicDoor(keep: bool, c: Calls) returns (o: Outcome)
      requires Idle()
      modifies this
      ensures Idle() && Grown() && edge == (old(edge) && !c.stopped && !c.down)
      ensures o == if !c.written then Killed else if c.stopped then Done(PublicStopped) else Uncertain
      ensures o.Done? ==> receipt == old(receipt).(door := Hold, status := PublicStopped, resume := keep && old(receipt).resume)
      ensures o.Done? ==> |past| > 1 && !past[|past| - 2].edge && past[|past| - 2].receipt == old(receipt)
      ensures o == Uncertain ==> receipt == Receipt(PublicStopFailed, Unknown, false, None, None)
      ensures o == Killed ==> receipt == old(receipt)
    {
      var r := Run(StopPublic(keep), Stopping, receipt, false, 0, None, true);
      Note(Begin(StopPublic(keep), 0, None));
      Stop(r, c);
      if c.stopped {
        Conclude(receipt.(door := Hold, status := PublicStopped, resume := keep && receipt.resume), c, WriteStopped);
        o := if c.written then Done(PublicStopped) else Killed;
      } else {
        Conclude(Receipt(PublicStopFailed, Unknown, false, None, None), c, WriteStopFailed);
        o := if c.written then Uncertain else Killed;
      }
    }

    /** What every failure of a command after its inputs were asked for does. */
    method CloseBehind(r: Run, c: Calls) returns (o: Outcome)
      requires r.at == Failing && Busy(r) && !r.command.StopPublic?
      modifies this
      ensures Idle() && Grown() && edge == (old(edge) && !c.stopped && !c.down) && o == Closing(c)
      ensures o == Failed ==> receipt == Receipt(ServingFailed, Hold, false, if r.known then Some(r.binding) else r.previous.binding, None)
      ensures o == Uncertain ==> receipt == Receipt(PublicStopFailed, Unknown, false, None, None)
      ensures o == Killed ==> receipt == old(receipt)
    {
      Stop(r, c);
      if c.stopped {
        var binding := if r.known then Some(r.binding) else r.previous.binding;
        Conclude(Receipt(ServingFailed, Hold, false, binding, None), c, WriteFailed);
        o := if c.written then Failed else Killed;
      } else {
        Conclude(Receipt(PublicStopFailed, Unknown, false, None, None), c, WriteStopFailed);
        o := if c.written then Uncertain else Killed;
      }
    }

    /** Brings the private stack up behind a closed edge and records that. */
    method ServePrivately(r: Run, c: Calls) returns (o: Outcome)
      requires r.at == Checked && Busy(r) && !r.command.StopPublic?
      modifies this
      ensures Grown() && o == (if c.closed && c.privately then Done(PrivateReady) else Closing(c))
      ensures if o == Done(PrivateReady)
              then !edge && receipt == Receipt(PrivateReady, Hold, false, Some(r.binding), None) && Busy(r.(at := Private))
              else Idle() && edge == (old(edge) && !c.closed && !c.stopped && !c.down)
    {
      if c.closed {
        Put(receipt, false, CloseEdge);
        if c.privately {
          Put(Receipt(PrivateReady, Hold, false, Some(r.binding), None), false, WritePrivate);
          return Done(PrivateReady);
        }
      }
      Note(Fail(edge));
      o := CloseBehind(r.(at := Failing), c);
    }

    /** Opens the edge; the open receipt is written only after it answered. */
    method OpenDoor(r: Run, c: Calls) returns (o: Outcome)
      requires r.at == Private && r.publish && Busy(r) && !r.command.StopPublic? && !edge
      modifies this
      ensures Idle() && Grown() && o == (if c.up && c.answers then Done(PublicReady) else Closing(c))
      ensures edge == (if c.up && c.answers then true else (c.up || c.started) && !c.stopped && !c.down)
      ensures o.Done? ==> receipt == Receipt(PublicReady, Open, true, Some(r.binding), r.manifest)
      ensures o.Done? ==> |past| > 1 && past[|past| - 2].edge && past[|past| - 2].receipt == old(receipt)
    {
      if c.up {
        Put(receipt, true, OpenEdge);
        if c.answers {
          Put(Receipt(PublicReady, Open, true, Some(r.binding), r.manifest), true, WriteOpen);
          return Done(PublicReady);
        }
        Note(Fail(true));
      } else {
        Put(receipt, c.started, Fail(c.started));
      }
      o := CloseBehind(r.(at := Failing), c);
    }

    /** A command that passed its guards. */
    method Carry(r: Run, c: Calls) returns (o: Outcome)
      requires r.at == Checked && Busy(r) && !r.command.StopPublic?
      modifies this
      ensures Idle() && Grown() && o == CarriedTo(r.publish, c) && edge == EdgeAfter(r.publish, c, old(edge))
      ensures o.Done? ==> receipt.status == o.status && receipt.binding == Some(r.binding)
    {
      o := ServePrivately(r, c);
      if o.Done? && r.publish {
        o := OpenDoor(r.(at := Private), c);
      } else if o.Done? {
        Note(Leave);
      }
    }

    /** A command whose inputs fail or that does not pass its guards. */
    method Reject(command: Command, seen: Option<nat>, c: Calls) returns (o: Outcome)
      requires Idle() && !command.StopPublic? && !(command == StartPrivate && receipt.door == Open)
      modifies this
      ensures Idle() && Grown() && o == Closing(c) && edge == (old(edge) && !c.stopped && !c.down)
    {
      var r := Run(command, Failing, receipt, false, if seen.Some? then seen.value else 0, None, seen.Some?);
      Note(RefuseInside(command, seen));
      o := CloseBehind(r, c);
    }

    method Start(command: Command, binding: nat, manifest: Option<nat>, c: Calls) returns (o: Outcome)
      requires Idle() && !command.StopPublic? && Passes(command, receipt, binding, manifest)
      modifies this
      ensures Idle() && Grown() && o == CarriedTo(WillPublish(command, old(receipt)), c)
      ensures edge == EdgeAfter(WillPublish(command, old(receipt)), c, old(edge))
      ensures o.Done? ==> receipt.status == o.status && receipt.binding == Some(binding)
    {
      var r := Run(command, Checked, receipt, WillPublish(command, receipt), binding, manifest, true);
      Note(Begin(command, binding, manifest));
      o := Carry(r, c);
    }

    /** start-private, publish and resume, from how their calls end. Every world passed is reached by the
        model's own steps. A private start of an open door is refused, any other command that does not pass
        its guards closes the door, and one that does ends exactly as its calls say. */
    method Serve(command: Command, inputs: Option<(nat, Option<nat>)>, c: Calls) returns (o: Outcome)
      requires Idle() && !command.StopPublic?
      modifies this
      ensures Idle() && Grown() && (o.Done? ==> receipt.status == o.status)
      ensures command == StartPrivate && old(receipt).door == Open <==> o == Refused
      ensures o == Refused ==> receipt == old(receipt) && edge == old(edge)
      ensures o != Refused && May(command, old(receipt), inputs) ==>
                o == CarriedTo(Publishing(command, old(receipt)), c) && edge == EdgeAfter(Publishing(command, old(receipt)), c, old(edge))
      ensures o != Refused && !May(command, old(receipt), inputs) ==>
                o == Closing(c) && edge == (old(edge) && !c.stopped && !c.down)
    {
      if command == StartPrivate && receipt.door == Open {
        return Refused;
      }
      if inputs.None? || !Passes(command, receipt, inputs.value.0, inputs.value.1) {
        o := Reject(command, if inputs.Some? then Some(inputs.value.0) else None, c);
      } else {
        o := Start(command, inputs.value.0, inputs.value.1, c);
      }
    }

    /** One tick of the serving watchdog: the edge runs afterwards exactly if it ran before, or the lock was
        free, the call worked and the last receipt written was that of an opening. */
    method TickOnce(lockFree: bool, starts: bool)
      requires Idle() && Initial(past[0])
      modifies this
      ensures Idle() && Grown() && receipt == old(receipt)
      ensures edge <==> old(edge) || (lockFree && starts && LastWroteOpen(old(acts), |old(acts)|))
    {
      PublishedMeansOpened(past, acts, |acts|);
      if Published(receipt) && !edge && lockFree && starts {
        Put(receipt, true, Tick);
      }
    }

    /** A door that was stopped in any way is not opened by the watchdog either. */
    lemma StoppedDoorEver(i: nat, j: nat)
      requires Valid() && Initial(past[0]) && i < j < |past| && acts[i] == WriteStopped
      requires forall k :: i < k < j ==> !Asks(acts[k])
      ensures !past[j].edge
    {
      StoppedDoorWaits(past, acts, i, j);
    }

    /** So what is proved of runs holds at every moment a kill may come: this is one of them. */
    lemma ClosedDoorEver(i: nat, j: nat)
      requires Valid() && Initial(past[0]) && i < j < |past|
      requires acts[i] == WriteStopped && past[i].run.Some? && past[i].run.value.command == StopPublic(false)
      requires forall k :: i < k < j ==> !Publishes(acts[k])
      ensures !past[j].edge
    {
      ClosedDoorStaysClosed(past, acts, i, j);
    }
  }
}
