/** Replacing one service's container behind the proxy without an interruption: every call may end in any
    way, and the machine's state after each step is kept, so that what holds at the end can be told from what
    held throughout. */
module Rollover {
  datatype Target = Canonical | Temporary

  /** How the temporary copy stands. */
  datatype Copy = Absent | Created | Running

  /** What the service looks like from outside: which container the proxy has loaded, which of the two
      runs, what the override file says, and whether the canonical container is still the first one. */
  datatype Picture = Picture(loaded: Target, file: Target, copy: Copy, canonicalUp: bool, original: bool)

  /** The container the proxy sends requests to is running. */
  predicate Serving(p: Picture) { if p.loaded == Temporary then p.copy == Running else p.canonicalUp }

  /** How a reload ended: not even the file changed, the proxy refused the new configuration and the file
      was taken away, the file changed but the proxy kept what it had loaded, it took effect but the call
      failed all the same, or it took effect. Only the last one is a success to the program. */
  datatype Reload = NotWritten | Rejected | NotReloaded | Unanswered | Done

  /** How far a replacement came. */
  datatype Stage = Preparing | Switched | Recreating | Answered | Finished

  /** The end of a replacement: how far it came, how the switch to the copy ended, whether taking traffic
      off the copy again is reported as failed, and whether removing the copy is reported as done. */
  datatype Report = Report(stage: Stage, switch: Reload, stuck: bool, removed: bool)

  /** How every call of a replacement ends: creating, naming, starting and asking the copy; the switch; the
      public probes; stopping, replacing and starting the canonical container and the call for it; asking it;
      the return; the probes again; taking traffic off the copy after a failure; and stopping and removing the
      copy, what happens and what the call says. */
  datatype Calls = Calls(
    created: bool, known: bool, started: bool, answers: bool,
    switch: Reload,
    probed: bool,
    stopped: bool, replaced: bool, up: bool, recreated: bool,
    canonicalAnswers: bool,
    back: Reload,
    probedAgain: bool,
    retreat: Reload,
    stops: bool, stopSays: bool, goes: bool, removeSays: bool)

  predicate Starts(c: Calls) { c.created && c.known && c.started && c.answers }

  predicate Switches(c: Calls) { Starts(c) && c.switch == Done }

  predicate Renewed(c: Calls) { c.recreated && c.canonicalAnswers && c.stopped && c.replaced && c.up }

  /** How far these calls let the replacement come. */
  function Reached(c: Calls): Stage {
    if !Switches(c) then Preparing
    else if !c.probed then Switched
    else if !Renewed(c) then Recreating
    else if c.back != Done || !c.probedAgain then Answered
    else Finished
  }

  /** The program holds traffic to be on the copy when it gives up. */
  predicate Retreats(c: Calls) { Switches(c) && (!c.probed || !Renewed(c) || c.back != Done) }

  predicate TakesEffect(r: Reload) { r == Done || r == Unanswered }

  /** The proxy ends on the copy: the switch took effect and its call failed, or neither the return nor the
      attempt after the failure took effect. */
  predicate EndsOnCopy(c: Calls) {
    || (Starts(c) && c.switch == Unanswered)
    || (Retreats(c) && !TakesEffect(c.retreat) && !(c.probed && Renewed(c) && c.back == Unanswered))
  }

  /** The override for the copy stays behind: the switch failed after it was written, or it was never
      touched again. */
  predicate LeavesOverride(c: Calls) {
    || (Starts(c) && (c.switch == NotReloaded || c.switch == Unanswered))
    || (Retreats(c) && c.retreat == NotWritten && (!c.probed || !Renewed(c) || c.back == NotWritten))
  }

  /** There are such calls: a switch that takes effect without saying so, an override that stays behind while
      nothing was loaded, and traffic that cannot be taken off the copy. */
  lemma FailuresAreReached() returns (lost: Calls, left: Calls, stuck: Calls)
    ensures Starts(lost) && lost.switch == Unanswered && EndsOnCopy(lost)
    ensures LeavesOverride(left) && !EndsOnCopy(left)
    ensures Retreats(stuck) && EndsOnCopy(stuck)
  {
    lost := Calls(true, true, true, true, Unanswered, false, false, false, false, false, false, Done, false, Done, true, true, true, true);
    left := lost.(switch := NotReloaded);
    stuck := lost.(switch := Done, retreat := NotReloaded);
  }

  /** The canonical container is down at some moment. */
  ghost predicate Interrupted(ps: seq<Picture>) { exists p :: p in ps && !p.canonicalUp }

  lemma InterruptedParts(a: seq<Picture>, b: seq<Picture>)
    ensures Interrupted(a + b) <==> Interrupted(a) || Interrupted(b)
  {
    forall p | p in a || p in b
      ensures p in a + b
    {
    }
  }

  /** How the copy stands after its calls, and after its removal. */
  function CopyMade(c: Calls): Copy {
    if !c.created then Absent else if c.known && c.started then Running else Created
  }

  /** A call that says it stopped or removed the copy has done so; one that does not may have. */
  function CopyLeft(copy: Copy, c: Calls): Copy {
    if copy == Running && !c.stopSays then (if c.stops then Created else Running)
    else if c.goes || c.removeSays then Absent
    else if copy == Running then Created
    else copy
  }

  class Machine {
    var now: Picture
    ghost var past: seq<Picture>
    /** Whether the public probes passed since the proxy was last reloaded. */
    ghost var proven: bool

    /** The past ends with the present. */
    ghost predicate Valid()
      reads this
    {
      past != [] && past[|past| - 1] == now
    }

    constructor ()
      ensures Valid() && past == [now] && now == Picture(Canonical, Canonical, Absent, true, true)
    {
      now := Picture(Canonical, Canonical, Absent, true, true);
      past := [Picture(Canonical, Canonical, Absent, true, true)];
      proven := false;
    }

    method Set(p: Picture)
      requires Valid()
      modifies this`now, this`past
      ensures Valid() && now == p && past == old(past) + [p]
    {
      now := p;
      past := past + [p];
    }

    /** Points the service's name at a container. The file is written or removed first, and a configuration
        the proxy rejects is removed again; only a reload that takes effect changes what the proxy has
        loaded, and one that fails may have taken effect. */
    method ReloadProxy(target: Target, r: Reload)
      requires Valid()
      modifies this`now, this`past, this`proven
      ensures Valid() && old(past) <= past && !proven
      ensures now == match r
                     case NotWritten => old(now)
                     case Rejected => old(now).(file := Canonical)
                     case NotReloaded => old(now).(file := target)
                     case Unanswered => old(now).(file := target, loaded := target)
                     case Done => old(now).(file := target, loaded := target)
      ensures forall p :: p in past[|old(past)|..] ==>
                p.(loaded := old(now).loaded, file := old(now).file) == old(now) && (p.loaded == old(now).loaded || p == now)
    {
      proven := false;
      if r == NotWritten {
        return;
      }
      Set(now.(file := target));
      if r == Rejected {
        Set(now.(file := Canonical));
      } else if TakesEffect(r) {
        Set(now.(loaded := target));
      }
    }

    /** Creates the copy, starts it and waits until it is healthy and answers. Without the answer of the
        create the copy is not known, and stays if there is one. */
    method StartCopy(c: Calls) returns (ok: bool)
      requires Valid() && now.copy == Absent
      modifies this`now, this`past
      ensures Valid() && old(past) <= past && now == old(now).(copy := now.copy)
      ensures ok == Starts(c) && now.copy == CopyMade(c)
      ensures forall p :: p in past[|old(past)|..] ==> p.(copy := Absent) == old(now)
    {
      if c.created {
        Set(now.(copy := Created));
      }
      if !c.created || !c.known {
        return false;
      }
      if c.started {
        Set(now.(copy := Running));
      }
      ok := c.started && c.answers;
    }

    /** The public probes, all of them. */
    method PublicOk(ok: bool)
      modifies this`proven
      ensures proven == ok
    {
      proven := ok;
    }

    /** Replaces the canonical container, which is done only while the copy serves and the public probes
        have passed on it; a call that fails may have stopped, replaced or kept it. */
    method Recreate(c: Calls) returns (ok: bool)
      requires Valid() && proven && now.loaded == Temporary && now.copy == Running && now.canonicalUp && now.original
      modifies this`now, this`past
      ensures Valid() && old(past) <= past && ok == c.recreated
      ensures now == old(now).(canonicalUp := !c.stopped || c.up, original := !(c.stopped && c.replaced))
      ensures Interrupted(past[|old(past)|..]) <==> c.stopped
      ensures forall p :: p in past[|old(past)|..] ==> p.(canonicalUp := old(now).canonicalUp, original := old(now).original) == old(now)
    {
      ghost var before := |past|;
      if c.stopped {
        Set(now.(canonicalUp := false));
        if c.replaced {
          Set(now.(original := false));
        }
        Set(now.(canonicalUp := c.up));
        assert !past[before].canonicalUp && past[before] in past[before..];
      }
      ok := c.recreated;
    }

    /** The replacement is another container, of the new image, healthy and answering. */
    method CanonicalAnswers(c: Calls) returns (ok: bool)
      ensures ok <==> c.canonicalAnswers && now.canonicalUp && !now.original
    {
      ok := c.canonicalAnswers && now.canonicalUp && !now.original;
    }

    /** Stops and removes the copy. A call that fails ends this and is only reported, whether or not it took
        effect. */
    method RemoveCopy(c: Calls) returns (ok: bool)
      requires Valid()
      modifies this`now, this`past
      ensures Valid() && old(past) <= past && now == old(now).(copy := now.copy)
      ensures forall p :: p in past[|old(past)|..] ==> p.(copy := old(now).copy) == old(now) && p.copy != Running
      ensures ok <==> (old(now).copy == Running ==> c.stopSays) && c.removeSays
      ensures now.copy == CopyLeft(old(now).copy, c)
    {
      if now.copy == Running {
        if c.stops || c.stopSays {
          Set(now.(copy := Created));
        }
        if !c.stopSays {
          return false;
        }
      }
      ok := c.removeSays;
      if c.goes || ok {
        Set(now.(copy := Absent));
      }
    }

    /** The steps up to the switch. */
    method Switch(c: Calls) returns (ok: bool, switch: Reload)
      requires Valid() && now == Picture(Canonical, Canonical, Absent, true, true)
      modifies this`now, this`past, this`proven
      ensures Valid() && old(past) <= past && forall p :: p in past[|old(past)|..] ==> Serving(p)
      ensures now.canonicalUp && now.original && ok == Switches(c) && switch == (if Starts(c) then c.switch else NotWritten)
      ensures now.loaded == Temporary <==> TakesEffect(switch)
      ensures now.file == Temporary <==> TakesEffect(switch) || switch == NotReloaded
      ensures forall p :: p in past[|old(past)|..] && p.loaded == Temporary ==> p.copy == Running && now.loaded == Temporary
      ensures now.copy == CopyMade(c) && !Interrupted(past[|old(past)|..])
    {
      switch := NotWritten;
      ok := StartCopy(c);
      if !ok {
        return;
      }
      ghost var mid := past;
      switch := c.switch;
      ReloadProxy(Temporary, switch);
      assert past[|old(past)|..] == mid[|old(past)|..] + past[|mid|..];
      ok := switch == Done;
    }

    /** From the switch to the return: the canonical container is replaced while the copy serves. */
    method Forward(c: Calls) returns (stage: Stage, switched: bool)
      requires Valid() && Switches(c) && now == Picture(Temporary, Temporary, Running, true, true)
      modifies this`now, this`past, this`proven
      ensures Valid() && old(past) <= past && forall p :: p in past[|old(past)|..] ==> Serving(p)
      ensures forall p :: p in past[|old(past)|..] ==> p.copy == Running
      ensures stage == Reached(c) && switched == Retreats(c) && now.copy == Running
      ensures now.loaded == Canonical <==> c.probed && Renewed(c) && TakesEffect(c.back)
      ensures now.file == Canonical <==> c.probed && Renewed(c) && c.back != NotWritten
      ensures stage == Switched ==> now.canonicalUp && now.original
      ensures stage == Answered || stage == Finished ==> now.canonicalUp && !now.original
      ensures stage == Finished ==> proven
      ensures Interrupted(past[|old(past)|..]) <==> c.probed && c.stopped
    {
      stage, switched := Switched, true;
      PublicOk(c.probed);
      if !c.probed {
        return;
      }
      stage := Recreating;
      var recreated := Recreate(c);
      if !recreated {
        return;
      }
      var answers := CanonicalAnswers(c);
      if !answers {
        return;
      }
      stage := Answered;
      ghost var mid := past;
      ReloadProxy(Canonical, c.back);
      assert past[|old(past)|..] == mid[|old(past)|..] + past[|mid|..];
      InterruptedParts(mid[|old(past)|..], past[|mid|..]);
      if c.back != Done {
        return;
      }
      switched := false;
      PublicOk(c.probedAgain);
      if c.probedAgain {
        stage := Finished;
      }
    }

    /** Everything before the copy is removed. */
    method Carry(c: Calls) returns (stage: Stage, switch: Reload, stuck: bool)
      requires Valid() && past == [now] && now == Picture(Canonical, Canonical, Absent, true, true)
      modifies this
      ensures Valid() && now.copy == CopyMade(c)
      ensures stage == Reached(c) && switch == (if Starts(c) then c.switch else NotWritten)
      ensures !EndsOnCopy(c) && stage != Recreating ==> forall p :: p in past ==> Serving(p)
      ensures !EndsOnCopy(c) ==> forall p :: p in past && !Serving(p) ==> p.loaded == Canonical && !p.canonicalUp
      ensures !EndsOnCopy(c) ==> forall p :: p in past && p.loaded == Temporary ==> p.copy == Running
      ensures now.loaded == Temporary <==> EndsOnCopy(c)
      ensures stuck <==> Retreats(c) && c.retreat != Done
      ensures stage == Finished ==> now.file == now.loaded == Canonical && now.canonicalUp && !now.original && proven
      ensures stage == Preparing || stage == Switched ==> now.canonicalUp && now.original
      ensures now.file == Temporary <==> LeavesOverride(c)
      ensures Interrupted(past) <==> Switches(c) && c.probed && c.stopped
    {
      var ok;
      ok, switch := Switch(c);
      var switched := ok;
      stage, stuck := Preparing, false;
      ghost var first := past;
      if ok {
        stage, switched := Forward(c);
      }
      ghost var second := past;
      if switched {
        ReloadProxy(Canonical, c.retreat);
        stuck := c.retreat != Done;
      }
      Joined(old(past), first, second, past);
      Interruptions(old(past), first, second, past);
    }

    /** The whole replacement. If the proxy is not on the copy in the end, the container it has loaded runs
        at every moment of a successful run and of one that failed before the canonical container was
        touched or after its replacement answered; between the two the only interruption is traffic returned
        to a canonical container that does not run. Which calls end on the copy, which is removed all the same,
        and which leave the override behind is said exactly; a switch that takes effect without saying so is
        reported as no more than a failed switch. */
    method Replace(c: Calls) returns (r: Report)
      requires Valid() && past == [now] && now == Picture(Canonical, Canonical, Absent, true, true)
      modifies this
      ensures Valid()
      ensures r.stage == Reached(c) && r.switch == (if Starts(c) then c.switch else NotWritten)
      ensures !EndsOnCopy(c) && r.stage != Recreating ==> forall p :: p in past ==> Serving(p)
      ensures !EndsOnCopy(c) ==> forall p :: p in past && !Serving(p) ==> p.loaded == Canonical && !p.canonicalUp
      // the copy is stopped only when the proxy is not on it
      ensures !EndsOnCopy(c) ==> forall p :: p in past && p.loaded == Temporary ==> p.copy == Running
      // where the proxy ends, and what is said of it
      ensures now.loaded == Temporary <==> EndsOnCopy(c)
      ensures r.stuck <==> Retreats(c) && c.retreat != Done
      ensures r.switch == Unanswered ==> EndsOnCopy(c) && !r.stuck && r.stage == Preparing
      ensures EndsOnCopy(c) && r.removed ==> !Serving(now)
      // success means replaced, failure before that means untouched
      ensures r.stage == Finished ==> now.file == now.loaded == Canonical && now.canonicalUp && !now.original && !r.stuck && proven
      ensures r.removed <==> c.created && c.known && (c.started ==> c.stopSays) && c.removeSays
      ensures now.copy == if c.created && c.known then CopyLeft(CopyMade(c), c) else CopyMade(c)
      // the canonical container is down for a while exactly if it is replaced
      ensures Interrupted(past) <==> Switches(c) && c.probed && c.stopped
      ensures r.stage == Preparing || r.stage == Switched ==> now.canonicalUp && now.original
      ensures now.file == Temporary <==> LeavesOverride(c)
    {
      var stage, switch, stuck := Carry(c);
      ghost var first := past;
      var removed := false;
      if c.created && c.known {
        removed := RemoveCopy(c);
      }
      r := Report(stage, switch, stuck, removed);
      assert past == first + past[|first|..];
      InterruptedParts(first, past[|first|..]);
      assert first[|first| - 1] in first;
      Joined([], [], first, past);
    }
  }

  lemma Interruptions(a: seq<Picture>, b: seq<Picture>, c: seq<Picture>, d: seq<Picture>)
    requires a <= b <= c <= d
    ensures Interrupted(d) <==> Interrupted(a) || Interrupted(b[|a|..]) || Interrupted(c[|b|..]) || Interrupted(d[|c|..])
  {
    assert b == a + b[|a|..] && c == b + c[|b|..] && d == c + d[|c|..];
    InterruptedParts(a, b[|a|..]);
    InterruptedParts(b, c[|b|..]);
    InterruptedParts(c, d[|c|..]);
  }

  /** What is in the last of a chain of growing histories was added at one of its steps. */
  lemma Joined(a: seq<Picture>, b: seq<Picture>, c: seq<Picture>, d: seq<Picture>)
    requires a <= b <= c <= d
    ensures forall p :: p in d ==> p in a || p in b[|a|..] || p in c[|b|..] || p in d[|c|..]
  {
    assert d == a + b[|a|..] + c[|b|..] + d[|c|..];
  }
}
