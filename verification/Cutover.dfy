/** The durable latch and ready receipt of a deployment: one receiver at a time changes them step by
    step under the deployment lock, and may be killed between any two writes. */
module Cutover {
  import opened Wrappers
  import Runs

  datatype Phase =
    | Complete
    | RolledBack
    | StartingPrivate
    | Rollover
    | PrivateReady
    | OpeningIngress
    | RolloverFailedServing
    | RollbackFailedQuarantined
    | Quarantined
    | QuarantineFailed

  predicate Terminal(p: Phase) { p == Complete || p == RolledBack }

  predicate Serving(p: Phase) { p == Rollover || p == RolloverFailedServing }

  /** A latch or a receipt: the run it speaks of and how far that run came. */
  datatype Mark = Mark(run: nat, sha: nat, phase: Phase)

  datatype Service = Edge | Proxy | User | Yolo

  /** A container and the image it runs. */
  datatype Identity = Identity(id: nat, image: nat)

  /** A ready receipt: what it speaks of, the approved images, and the identity of each public service. */
  datatype Receipt = Receipt(mark: Mark, approved: nat, public: map<Service, Identity>)

  datatype At =
    | Loaded
    | Serves
    | ReadyPrivate
    | Opening
    | ReceiptComplete
    | LatchComplete
    | Raised
    | RollingBack
    | ReceiptBack
    | LatchBack
    | RollbackFailed

  datatype Receiver = Receiver(at: At, run: nat, sha: nat, rollover: bool, rollbackAllowed: bool)

  /** Late: a receiver that may roll back failed after its latch had become complete on disk, and has not
      settled that yet. */
  datatype State = State(latch: Option<Mark>, receipt: Option<Receipt>, receiver: Option<Receiver>, late: bool)

  datatype Action =
    | Receive(run: nat, sha: nat, rollover: bool, compatible: bool)
    | WriteLatch
    | WritePrivateReady
    | WriteOpening
    | WriteReceipt(approved: nat, public: map<Service, Identity>)
    | WriteComplete
    | Return
    | Raise
    | EnterRollback
    | WriteReceiptBack(approved: nat, public: map<Service, Identity>)
    | WriteBack
    | FailRollback
    | KeepServing
    | Quarantine(stopped: bool)
    | Kill
    | Enroll(approved: nat, public: map<Service, Identity>)

  predicate Interrupted(latch: Option<Mark>) { latch.Some? && !Terminal(latch.value.phase) }

  predicate Stands(s: State, at: At) { s.receiver.Some? && s.receiver.value.at == at }

  /** What a receiver or the enrolment may do next, branch by branch. A receiver that fails before its
      first latch write leaves everything as it was, as one that is killed there. */
  predicate Enabled(s: State, a: Action) {
    match a
    case Receive(_, _, _, _) => s.receiver.None?
    case WriteLatch => Stands(s, Loaded)
    case WritePrivateReady => Stands(s, Serves)
    case WriteOpening => Stands(s, ReadyPrivate)
    case WriteReceipt(_, _) => Stands(s, Opening)
    case WriteComplete => Stands(s, ReceiptComplete)
    case Return => Stands(s, LatchComplete) || Stands(s, LatchBack)
    case Raise => Stands(s, Serves) || Stands(s, ReadyPrivate) || Stands(s, Opening) || Stands(s, ReceiptComplete) ||
                  Stands(s, LatchComplete)
    case EnterRollback => Stands(s, Raised) && s.receiver.value.rollbackAllowed
    case WriteReceiptBack(_, _) => Stands(s, RollingBack)
    case WriteBack => Stands(s, ReceiptBack)
    case FailRollback => Stands(s, RollingBack) || Stands(s, ReceiptBack) || Stands(s, LatchBack)
    case KeepServing => Stands(s, Raised) && !s.receiver.value.rollbackAllowed && s.receiver.value.rollover
    case Quarantine(_) => Stands(s, RollbackFailed) || (Stands(s, Raised) && !s.receiver.value.rollbackAllowed)
    case Kill => s.receiver.Some?
    case Enroll(_, _) => s.receiver.None? && s.latch.Some? && Terminal(s.latch.value.phase)
  }

  function Moved(s: State, at: At): State
    requires s.receiver.Some?
  {
    s.(receiver := Some(s.receiver.value.(at := at)))
  }

  function Its(r: Receiver, p: Phase): Option<Mark> { Some(Mark(r.run, r.sha, p)) }

  function Ready(r: Receiver, p: Phase, approved: nat, public: map<Service, Identity>): Option<Receipt> {
    Some(Receipt(Mark(r.run, r.sha, p), approved, public))
  }

  function Ended(s: State): State { s.(receiver := None) }

  function Next(s: State, a: Action): State
    requires Enabled(s, a)
  {
    match a
    case Receive(run, sha, rollover, compatible) =>
      s.(receiver := Some(Receiver(Loaded, run, sha, rollover, !Interrupted(s.latch) && compatible)))
    case WriteLatch =>
      Moved(s, Serves).(latch := Its(s.receiver.value, if s.receiver.value.rollover then Rollover else StartingPrivate), late := false)
    case WritePrivateReady => Moved(s, ReadyPrivate).(latch := Its(s.receiver.value, PrivateReady))
    case WriteOpening => Moved(s, Opening).(latch := Its(s.receiver.value, OpeningIngress))
    case WriteReceipt(approved, public) =>
      Moved(s, ReceiptComplete).(receipt := Ready(s.receiver.value, Complete, approved, public))
    case WriteComplete => Moved(s, LatchComplete).(latch := Its(s.receiver.value, Complete))
    case Return => Ended(s)
    case Raise => Moved(s, Raised).(late := Stands(s, LatchComplete) && s.receiver.value.rollbackAllowed)
    case EnterRollback => Moved(s, RollingBack)
    case WriteReceiptBack(approved, public) =>
      Moved(s, ReceiptBack).(receipt := Ready(s.receiver.value, RolledBack, approved, public))
    case WriteBack => Moved(s, LatchBack).(latch := Its(s.receiver.value, RolledBack), late := false)
    case FailRollback => Moved(s, RollbackFailed)
    case KeepServing => Ended(s).(latch := Its(s.receiver.value, RolloverFailedServing), late := false)
    case Quarantine(stopped) =>
      Ended(s).(latch := Its(s.receiver.value, if !stopped then QuarantineFailed
                                   else if Stands(s, RollbackFailed) then RollbackFailedQuarantined else Quarantined),
               late := false)
    case Kill => s.(receiver := None)
    case Enroll(approved, public) => s.(receipt := Some(Receipt(s.latch.value, approved, public)), late := false)
  }

  // ----- what every step keeps -----

  predicate Says(s: State, m: Option<Mark>) { s.receipt.Some? && Some(s.receipt.value.mark) == m }

  /** The receipt speaks of the latched run and of the same outcome. */
  predicate Matches(s: State) { s.latch.Some? && Says(s, s.latch) }

  /** The one way they may differ: the run was complete, failed late, and its rollback has written the
      receipt but not the latch. */
  predicate Differs(s: State) {
    && s.late && s.latch.Some? && s.latch.value.phase == Complete
    && Says(s, Some(s.latch.value.(phase := RolledBack)))
  }

  predicate Covered(s: State) { Interrupted(s.latch) || s.latch.None? || Matches(s) || Differs(s) }

  predicate Own(s: State, r: Receiver) { s.latch.Some? && s.latch == Its(r, s.latch.value.phase) }

  /** The latch is this run's: not terminal, or complete with a receipt of the same. */
  predicate Unsettled(s: State, r: Receiver) {
    Own(s, r) && (Interrupted(s.latch) || (s.late == r.rollbackAllowed && s.latch == Its(r, Complete) && Says(s, s.latch)))
  }

  /** Where the receiver stands fixes what its own latch says. */
  predicate Placed(s: State, r: Receiver) {
    match r.at
    case Loaded => true
    case Serves => s.latch == Its(r, if r.rollover then Rollover else StartingPrivate) && !s.late
    case ReadyPrivate => s.latch == Its(r, PrivateReady) && !s.late
    case Opening => s.latch == Its(r, OpeningIngress) && !s.late
    case ReceiptComplete => s.latch == Its(r, OpeningIngress) && Says(s, Its(r, Complete)) && !s.late
    case LatchComplete => s.latch == Its(r, Complete) && Says(s, s.latch) && !s.late
    case Raised => Unsettled(s, r)
    case RollingBack => r.rollbackAllowed && Unsettled(s, r)
    case ReceiptBack => r.rollbackAllowed && Says(s, Its(r, RolledBack)) && (Interrupted(s.latch) || s.latch == Its(r, Complete)) && Own(s, r)
    case LatchBack => r.rollbackAllowed && s.latch == Its(r, RolledBack) && Says(s, s.latch) && !s.late
    case RollbackFailed => r.rollbackAllowed && Own(s, r)
  }

  predicate Sound(s: State) {
    Covered(s) && (s.receiver.Some? ==> Placed(s, s.receiver.value))
  }

  lemma StepKeepsSound(s: State, a: Action)
    requires Sound(s) && Enabled(s, a)
    ensures Sound(Next(s, a))
  {
  }

  // ----- whole runs -----

  predicate Step(s: State, a: Action, t: State) { Enabled(s, a) && t == Next(s, a) }

  ghost predicate Behaves(ss: seq<State>, acts: seq<Action>) { Runs.Behaves(Step, ss, acts) }

  /** The host after enrolment. */
  predicate Enrolled(s: State) {
    s.receiver.None? && !s.late && Matches(s) && Terminal(s.latch.value.phase)
  }

  /** A receiver that may roll back fails, or is interrupted, after it has put its complete latch on disk. */
  predicate FailsLate(s: State, a: Action) {
    a == Raise && Stands(s, LatchComplete) && s.receiver.value.rollbackAllowed
  }

  lemma {:induction false} RunIsSound(ss: seq<State>, acts: seq<Action>, i: nat)
    requires Behaves(ss, acts) && Enrolled(ss[0]) && i < |ss|
    ensures Sound(ss[i])
    ensures ss[i].late ==> exists k :: 0 <= k < i && FailsLate(ss[k], acts[k])
    decreases i
  {
    if i > 0 {
      RunIsSound(ss, acts, i - 1);
      assert Step(ss[i - 1], acts[i - 1], ss[i]);
      StepKeepsSound(ss[i - 1], acts[i - 1]);
    }
  }

  /** In every run of deployments, enrolments and kills, a terminal latch has a ready receipt of the same
      run and sources; and of the same outcome, unless a receiver that may roll back failed late. */
  lemma TerminalLatchHasItsReceipt(ss: seq<State>, acts: seq<Action>, i: nat)
    requires Behaves(ss, acts) && Enrolled(ss[0]) && i < |ss|
    requires ss[i].latch.Some? && (ss[i].latch.value.phase == Complete || ss[i].latch.value.phase == RolledBack)
    ensures ss[i].receipt.Some? && ss[i].receipt.value.mark.(phase := ss[i].latch.value.phase) == ss[i].latch.value
    ensures (forall k :: 0 <= k < i ==> !FailsLate(ss[k], acts[k])) ==> Matches(ss[i])
    ensures Matches(ss[i]) || (ss[i].latch.value.phase == Complete && ss[i].receipt.value.mark.phase == RolledBack)
  {
    RunIsSound(ss, acts, i);
  }

  /** The run goes on with these actions. */
  ghost predicate GoesOn(ss: seq<State>, acts: seq<Action>, vs: seq<State>, bs: seq<Action>) {
    Behaves(vs, bs) && ss <= vs && acts <= bs
  }

  lemma Extend(ss: seq<State>, acts: seq<Action>, a: Action) returns (vs: seq<State>, bs: seq<Action>)
    requires Behaves(ss, acts) && Enabled(ss[|acts|], a)
    ensures GoesOn(ss, acts, vs, bs) && bs == acts + [a] && vs[|bs|] == Next(ss[|acts|], a)
  {
    vs, bs := ss + [Next(ss[|acts|], a)], acts + [a];
    assert Step(ss[|acts|], a, vs[|bs|]);
    Runs.Extend(Step, ss, acts, a, vs[|bs|]);
  }

  /** And that condition is the exact one: wherever a run comes to such a failure, a kill between the two
      writes of the rollback parts latch and receipt. */
  lemma LateFailureParts(ss: seq<State>, acts: seq<Action>, approved: nat, public: map<Service, Identity>)
      returns (vs: seq<State>, bs: seq<Action>)
    requires Behaves(ss, acts) && Enrolled(ss[0]) && FailsLate(ss[|acts|], Raise)
    ensures GoesOn(ss, acts, vs, bs) && bs == acts + [Raise, EnterRollback, WriteReceiptBack(approved, public), Kill]
    ensures vs[|bs|].receiver.None? && Differs(vs[|bs|]) && !Matches(vs[|bs|])
  {
    RunIsSound(ss, acts, |acts|);
    vs, bs := Extend(ss, acts, Raise);
    vs, bs := Extend(vs, bs, EnterRollback);
    vs, bs := Extend(vs, bs, WriteReceiptBack(approved, public));
    vs, bs := Extend(vs, bs, Kill);
  }

  /** There is such a run, from any enrolled host: a deployment over an approved prior release that reaches
      its complete latch. */
  lemma LateFailureIsReached(s: State, run: nat, sha: nat, rollover: bool, approved: nat, public: map<Service, Identity>)
      returns (ss: seq<State>, acts: seq<Action>)
    requires Enrolled(s)
    ensures Behaves(ss, acts) && ss[0] == s && FailsLate(ss[|acts|], Raise)
  {
    ss, acts := [s], [];
    ss, acts := Extend(ss, acts, Action.Receive(run, sha, rollover, true));
    ss, acts := Extend(ss, acts, WriteLatch);
    ss, acts := Extend(ss, acts, WritePrivateReady);
    ss, acts := Extend(ss, acts, WriteOpening);
    ss, acts := Extend(ss, acts, WriteReceipt(approved, public));
    ss, acts := Extend(ss, acts, WriteComplete);
  }

  // ----- who wrote the receipt -----

  predicate Records(a: Action) { a.WriteReceipt? || a.WriteReceiptBack? || a.Enroll? }

  /** The receipt on disk at i is the one that step k wrote, and nobody wrote one since. */
  ghost predicate RecordedAt(ss: seq<State>, acts: seq<Action>, k: nat, i: nat)
    requires Behaves(ss, acts) && i < |ss|
  {
    && k < i && Records(acts[k]) && ss[i].receipt.Some? && ss[i].receipt == ss[k + 1].receipt
    && ss[i].receipt.value.public == acts[k].public
    && forall m :: k < m < i ==> !Records(acts[m])
  }

  /** Every receipt is the first one, never rewritten, or was written by the last step that writes one. */
  lemma {:induction false} ReceiptHasAWriter(ss: seq<State>, acts: seq<Action>, i: nat) returns (k: nat)
    requires Behaves(ss, acts) && i < |ss| && ss[i].receipt.Some?
    ensures RecordedAt(ss, acts, k, i) ||
            (ss[i].receipt == ss[0].receipt && forall m :: 0 <= m < i ==> !Records(acts[m]))
    decreases i
  {
    k := 0;
    if i > 0 {
      assert Step(ss[i - 1], acts[i - 1], ss[i]);
      if Records(acts[i - 1]) {
        k := i - 1;
      } else {
        k := ReceiptHasAWriter(ss, acts, i - 1);
      }
    }
  }

  /** And it never speaks of an attempt that did not end. */
  lemma {:induction false} ReceiptIsSettled(ss: seq<State>, acts: seq<Action>, i: nat)
    requires Behaves(ss, acts) && Enrolled(ss[0]) && i < |ss|
    ensures ss[i].receipt.Some? && (ss[i].receipt.value.mark.phase == Complete || ss[i].receipt.value.mark.phase == RolledBack)
    decreases i
  {
    if i > 0 {
      ReceiptIsSettled(ss, acts, i - 1);
      assert Step(ss[i - 1], acts[i - 1], ss[i]);
    }
  }

  /** An attempt was left unfinished, and whoever deploys now may not roll back. */
  predicate Barred(s: State) {
    Interrupted(s.latch) && (s.receiver.Some? ==> !s.receiver.value.rollbackAllowed && !Rolling(s.receiver.value.at))
  }

  predicate Rolling(at: At) { at == RollingBack || at == ReceiptBack || at == LatchBack || at == RollbackFailed || at == LatchComplete }

  lemma {:induction false} StaysBarred(ss: seq<State>, acts: seq<Action>, i: nat, j: nat)
    requires Behaves(ss, acts) && i <= j < |ss| && Barred(ss[i])
    requires forall k :: i <= k < j ==> acts[k] != WriteComplete
    ensures Barred(ss[j])
    decreases j
  {
    if i < j {
      StaysBarred(ss, acts, i, j - 1);
      var s, a := ss[j - 1], acts[j - 1];
      assert Step(s, a, ss[j]);
      assert Barred(Next(s, a));
    }
  }

  /** Once an attempt is left in a phase that is not terminal, however it ended, no later attempt rolls
      back until some attempt has become complete. */
  lemma NoRollbackAfterUnfinished(ss: seq<State>, acts: seq<Action>, i: nat, j: nat)
    requires Behaves(ss, acts) && i <= j < |acts|
    requires ss[i].receiver.None? && ss[i].latch.Some? && ss[i].latch.value.phase != Complete && ss[i].latch.value.phase != RolledBack
    requires acts[j] == EnterRollback
    ensures exists k :: i <= k < j && acts[k] == WriteComplete
  {
    assert Step(ss[j], acts[j], ss[j + 1]);
    if forall k :: i <= k < j ==> acts[k] != WriteComplete {
      StaysBarred(ss, acts, i, j);
      assert false;
    }
  }

  // ----- the receiver as the program performs it -----

  /** How the calls of one deployment end. Each is a stretch of work between two writes: up to the first latch
      write, the change to what serves, the private smoke test, the opening of the ingress, what follows the
      receipt and the complete latch; the same for a rollback; the stop of the public services; and the return
      of the traffic to the containers that served, the removal of temporary ones and their smoke test. */
  datatype Calls = Calls(
    ready: bool, changed: bool, smoked: bool, ingress: bool, recorded: bool, settled: bool,
    back: bool, backRecorded: bool, backSettled: bool,
    stopped: bool, returned: bool, removed: bool, answers: bool)

  predicate Completes(c: Calls) { c.changed && c.smoked && c.ingress && c.recorded && c.settled }

  predicate ComesBack(c: Calls) { c.back && c.backRecorded && c.backSettled }

  /** A failed replacement whose containers have the traffic again, alone, and answer. */
  predicate StillServes(c: Calls) { c.returned && c.removed && c.answers }

  /** The latch is that of an attempt that ended complete or rolled back, or there is none. */
  ghost predicate Settled(latch: Option<Mark>) {
    latch.None? || latch.value.phase == Complete || latch.value.phase == RolledBack
  }

  /** The phase in which a failed deployment leaves its latch. */
  ghost predicate LeftIn(p: Phase, rollover: bool, allowed: bool, c: Calls) {
    && (p == RolloverFailedServing <==> !allowed && rollover && StillServes(c))
    && (p == RollbackFailedQuarantined <==> allowed && c.stopped)
    && (p == Quarantined <==> !allowed && !(rollover && StillServes(c)) && c.stopped)
    && (p == QuarantineFailed <==> !c.stopped && !(!allowed && rollover && StillServes(c)))
  }

  /** How a deployment ends: nothing changed, complete, rolled back, or left as its latch says. */
  datatype Outcome = Restored | Deployed | BackAgain | Left

  class Deployment {
    var latch: Option<Mark>
    var receipt: Option<Receipt>
    /** Every state the host has been in, and the step taken in each: a kill may come between any two. */
    ghost var past: seq<State>
    ghost var acts: seq<Action>

    constructor (latch: Option<Mark>, receipt: Option<Receipt>)
      ensures Valid() && Now() == State(latch, receipt, None, false) && acts == []
    {
      this.latch, this.receipt := latch, receipt;
      past, acts := [State(latch, receipt, None, false)], [];
    }

    ghost predicate Valid()
      reads this
    {
      Behaves(past, acts) && past[|acts|].latch == latch && past[|acts|].receipt == receipt
    }

    ghost function Now(): State
      requires Valid()
      reads this
    {
      past[|acts|]
    }

    ghost predicate Busy(r: Receiver)
      reads this
    {
      Valid() && Now().receiver == Some(r)
    }

    /** The only way anything is written: one step of the model, and both files as it leaves them. */
    method Write(latch: Option<Mark>, receipt: Option<Receipt>, ghost a: Action)
      requires Valid() && Enabled(Now(), a) && Next(Now(), a).latch == latch && Next(Now(), a).receipt == receipt
      modifies this
      ensures Valid() && this.latch == latch && this.receipt == receipt
      ensures Now() == Next(old(Now()), a) && GoesOn(old(past), old(acts), past, acts)
    {
      ghost var v := Next(Now(), a);
      assert Step(Now(), a, v);
      Runs.Extend(Step, past, acts, a, v);
      past, acts := past + [v], acts + [a];
      this.latch, this.receipt := latch, receipt;
    }

    /** A step that writes nothing. */
    ghost method Note(a: Action)
      requires Valid() && Enabled(Now(), a) && Next(Now(), a).latch == latch && Next(Now(), a).receipt == receipt
      modifies this`past, this`acts
      ensures Valid() && Now() == Next(old(Now()), a) && GoesOn(old(past), old(acts), past, acts)
    {
      var v := Next(Now(), a);
      assert Step(Now(), a, v);
      Runs.Extend(Step, past, acts, a, v);
      past, acts := past + [v], acts + [a];
    }

    /** The first change to what serves, which needs this run's latch on disk. */
    method ChangeServing(r: Receiver, c: Calls) returns (ok: bool)
      requires Busy(r.(at := Serves)) && latch == Its(r, if r.rollover then Rollover else StartingPrivate)
      ensures ok == c.changed
    {
      ok := c.changed;
    }

    /** From the latch that precedes the first serving mutation to the one that opens the ingress; false
        means the failure branch is next. */
    method BeginServing(r: Receiver, c: Calls) returns (ok: bool)
      requires r.at == Loaded && Busy(r)
      modifies this
      ensures Busy(r.(at := if ok then Opening else Raised)) && GoesOn(old(past), old(acts), past, acts)
      ensures ok == (c.changed && c.smoked) && receipt == old(receipt)
      ensures latch == Its(r, if ok then OpeningIngress else if c.changed then PrivateReady
                              else if r.rollover then Rollover else StartingPrivate)
    {
      Write(Its(r, if r.rollover then Rollover else StartingPrivate), receipt, WriteLatch);
      ok := ChangeServing(r, c);
      if !ok {
        Note(Raise);
        return;
      }
      Write(Its(r, PrivateReady), receipt, WritePrivateReady);
      ok := c.smoked;
      if !ok {
        Note(Raise);
        return;
      }
      Write(Its(r, OpeningIngress), receipt, WriteOpening);
    }

    /** The receipt of the open release, and only then its complete latch. */
    method CompleteServing(r: Receiver, c: Calls, approved: nat, public: map<Service, Identity>) returns (ok: bool)
      requires r.at == Opening && Busy(r) && latch == Its(r, OpeningIngress)
      modifies this
      ensures Busy(r.(at := if ok then LatchComplete else Raised)) && GoesOn(old(past), old(acts), past, acts)
      ensures ok == (c.ingress && c.recorded && c.settled)
      ensures receipt == if c.ingress then Ready(r, Complete, approved, public) else old(receipt)
      ensures latch == Its(r, if c.ingress && c.recorded then Complete else OpeningIngress)
    {
      ok := c.ingress;
      if ok {
        Write(latch, Ready(r, Complete, approved, public), WriteReceipt(approved, public));
        ok := c.recorded;
      }
      if ok {
        Write(Its(r, Complete), receipt, WriteComplete);
        ok := c.settled;
      }
      if !ok {
        Note(Raise);
      }
    }

    method Serve(r: Receiver, c: Calls, approved: nat, public: map<Service, Identity>) returns (ok: bool)
      requires r.at == Loaded && Busy(r)
      modifies this
      ensures Busy(r.(at := if ok then LatchComplete else Raised)) && GoesOn(old(past), old(acts), past, acts)
      ensures ok == Completes(c)
      ensures ok ==> latch == Its(r, Complete) && receipt == Ready(r, Complete, approved, public)
    {
      ok := BeginServing(r, c);
      if ok {
        ok := CompleteServing(r.(at := Opening), c, approved, public);
      }
    }

    /** Back to the approved prior release; a rollback that fails ends in quarantine. */
    method RollBack(r: Receiver, c: Calls, approved: nat, public: map<Service, Identity>) returns (o: Outcome)
      requires r.at == Raised && r.rollbackAllowed && Busy(r)
      modifies this
      ensures Valid() && Now().receiver.None? && GoesOn(old(past), old(acts), past, acts)
      ensures o == if ComesBack(c) then BackAgain else Left
      ensures o == BackAgain ==> latch == Its(r, RolledBack) && receipt == Ready(r, RolledBack, approved, public)
      ensures o == Left ==> Own(Now(), r) && LeftIn(latch.value.phase, r.rollover, true, c)
    {
      Note(EnterRollback);
      var ok := c.back;
      if ok {
        ok := WriteBackMarks(r.(at := RollingBack), c, approved, public);
        if ok {
          Note(Return);
          return BackAgain;
        }
      }
      GiveUpRollback(r, c);
      o := Left;
    }

    method GiveUpRollback(r: Receiver, c: Calls)
      requires r.rollbackAllowed && exists at :: (at == RollingBack || at == ReceiptBack || at == LatchBack) && Busy(r.(at := at))
      modifies this
      ensures Valid() && Now().receiver.None? && GoesOn(old(past), old(acts), past, acts)
      ensures Own(Now(), r) && LeftIn(latch.value.phase, r.rollover, true, c)
    {
      Note(FailRollback);
      Write(Its(r, if c.stopped then RollbackFailedQuarantined else QuarantineFailed), receipt, Quarantine(c.stopped));
    }

    /** The receipt of the rollback, and only then its latch. */
    method WriteBackMarks(r: Receiver, c: Calls, approved: nat, public: map<Service, Identity>) returns (ok: bool)
      requires r.at == RollingBack && Busy(r)
      modifies this
      ensures Busy(r.(at := if c.backRecorded then LatchBack else ReceiptBack)) && GoesOn(old(past), old(acts), past, acts)
      ensures ok == (c.backRecorded && c.backSettled) && receipt == Ready(r, RolledBack, approved, public)
      ensures latch == if c.backRecorded then Its(r, RolledBack) else old(latch)
    {
      Write(latch, Ready(r, RolledBack, approved, public), WriteReceiptBack(approved, public));
      ok := c.backRecorded;
      if ok {
        Write(Its(r, RolledBack), receipt, WriteBack);
        ok := c.backSettled;
      }
    }

    /** Gives the traffic back to the containers that were serving, and asks them. */
    method ReturnTraffic(c: Calls) returns (serving: bool)
      ensures serving == StillServes(c)
    {
      serving := c.returned;
      if !c.removed {
        serving := false;
      }
      if serving {
        serving := c.answers;
      }
    }

    /** Without an approved prior release: a replacement that still serves goes on serving, everything else
        is closed. */
    method CloseOrKeep(r: Receiver, c: Calls) returns (o: Outcome)
      requires r.at == Raised && !r.rollbackAllowed && Busy(r)
      modifies this
      ensures Valid() && Now().receiver.None? && GoesOn(old(past), old(acts), past, acts) && o == Left && receipt == old(receipt)
      ensures Own(Now(), r) && LeftIn(latch.value.phase, r.rollover, false, c)
    {
      o := Left;
      if r.rollover {
        var serving := ReturnTraffic(c);
        if serving {
          Write(Its(r, RolloverFailedServing), receipt, KeepServing);
          return;
        }
      }
      Write(Its(r, if c.stopped then Quarantined else QuarantineFailed), receipt, Quarantine(c.stopped));
    }

    /** The failure branch. */
    method Recover(r: Receiver, c: Calls, approved: nat, public: map<Service, Identity>) returns (o: Outcome)
      requires r.at == Raised && Busy(r)
      modifies this
      ensures Valid() && Now().receiver.None? && GoesOn(old(past), old(acts), past, acts)
      ensures o == if r.rollbackAllowed && ComesBack(c) then BackAgain else Left
      ensures o == BackAgain ==> latch == Its(r, RolledBack) && receipt == Ready(r, RolledBack, approved, public)
      ensures o == Left ==> Own(Now(), r) && LeftIn(latch.value.phase, r.rollover, r.rollbackAllowed, c)
    {
      if r.rollbackAllowed {
        o := RollBack(r, c, approved, public);
      } else {
        o := CloseOrKeep(r, c);
      }
    }

    method Attempt(r: Receiver, c: Calls, approved: nat, public: map<Service, Identity>) returns (o: Outcome)
      requires r.at == Loaded && Busy(r)
      modifies this
      ensures Valid() && Now().receiver.None? && GoesOn(old(past), old(acts), past, acts)
      ensures o == if Completes(c) then Deployed else if r.rollbackAllowed && ComesBack(c) then BackAgain else Left
      ensures o == Deployed ==> latch == Its(r, Complete) && receipt == Ready(r, Complete, approved, public)
      ensures o == BackAgain ==> latch == Its(r, RolledBack) && receipt == Ready(r, RolledBack, approved, public)
      ensures o == Left ==> Own(Now(), r) && LeftIn(latch.value.phase, r.rollover, r.rollbackAllowed, c)
    {
      var ok := Serve(r, c, approved, public);
      if ok {
        Note(Return);
        o := Deployed;
      } else {
        o := Recover(r.(at := Raised), c, approved, public);
      }
    }

    /** One deployment under the lock, from how its calls end. Every state it passes is a state of the model,
        reached by the model's own steps. It changes nothing exactly if it is not ready, and ends complete
        exactly if every call up to the end works, with latch and receipt of this run; it ends rolled back
        exactly if a finished and approved prior release comes back whole; and otherwise it leaves its own
        latch in the phase that says which calls failed. */
    method Receive(run: nat, sha: nat, rollover: bool, compatible: bool, c: Calls, approved: nat, public: map<Service, Identity>)
        returns (o: Outcome)
      requires Valid() && Now().receiver.None?
      modifies this
      ensures Valid() && Now().receiver.None? && GoesOn(old(past), old(acts), past, acts)
      ensures (o == Restored <==> !c.ready) && (o == Deployed <==> c.ready && Completes(c))
      ensures o == BackAgain <==> c.ready && !Completes(c) && Settled(old(latch)) && compatible && ComesBack(c)
      ensures o == Restored ==> latch == old(latch) && receipt == old(receipt)
      ensures o == Deployed ==> latch == Some(Mark(run, sha, Complete)) && receipt == Some(Receipt(latch.value, approved, public))
      ensures o == BackAgain ==> latch == Some(Mark(run, sha, RolledBack)) && receipt == Some(Receipt(latch.value, approved, public))
      ensures o == Left ==> latch.Some? && latch.value.run == run && latch.value.sha == sha &&
                            LeftIn(latch.value.phase, rollover, Settled(old(latch)) && compatible, c)
    {
      var interrupted := latch.Some? && !Terminal(latch.value.phase);
      var r := Receiver(Loaded, run, sha, rollover, !interrupted && compatible);
      Note(Action.Receive(run, sha, rollover, compatible));
      if !c.ready {
        Note(Kill);
        return Restored;
      }
      o := Attempt(r, c, approved, public);
    }

    /** So what is proved of runs holds here, at every moment a kill may come: this is one of them. */
    lemma TerminalLatchAlways(i: nat)
      requires Valid() && Enrolled(past[0]) && i < |past|
      requires past[i].latch.Some? && Settled(past[i].latch)
      ensures Matches(past[i]) || exists k :: 0 <= k < i && FailsLate(past[k], acts[k])
    {
      TerminalLatchHasItsReceipt(past, acts, i);
    }
  }
}
