/** Waiting for the public entry point: rounds of three probes until one whole round passes, a probe
    fails for good, or the deadline is reached. */
module Readiness {
  import opened Wrappers

  datatype Result = Pass | Again | Never

  /** One round: when it began, when it ended, and its probes up to the first that did not pass. */
  datatype Round = Round(start: real, end: real, results: seq<Result>)

  datatype Outcome = Ready | Refused | TimedOut

  const BUDGET := 90.0
  const FIRST_DELAY := 0.25
  const LONGEST_DELAY := 2.0
  const PROBES: nat := 3

  function Delay(k: nat): real {
    if k == 0 then FIRST_DELAY else Shorter(Delay(k - 1) * 2.0, LONGEST_DELAY)
  }

  function Shorter(a: real, b: real): real { if a < b then a else b }

  /** The least time from the start to the beginning of round k. */
  function Floor(k: nat): real {
    if k == 0 then 0.0 else Floor(k - 1) + Delay(k - 1)
  }

  lemma {:induction false} FloorAt(k: nat)
    requires k >= 3
    ensures Delay(k) == LONGEST_DELAY && Floor(k) == 1.75 + 2.0 * (k - 3) as real
  {
    if k == 3 {
      assert Delay(1) == 0.5 && Delay(2) == 1.0;
      assert Floor(1) == 0.25 && Floor(2) == 0.75;
    } else {
      FloorAt(k - 1);
    }
  }

  /** The delays leave room for exactly 48 rounds to begin before the deadline. */
  lemma RoundsFit(k: nat)
    ensures Floor(k) < 90.0 <==> k < 48
  {
    if k >= 3 {
      FloorAt(k);
    } else {
      assert Floor(1) == 0.25 && Floor(2) == 0.75;
    }
  }

  predicate AllPass(results: seq<Result>) { forall i :: 0 <= i < |results| ==> results[i] == Pass }

  /** All three probes passed. */
  predicate Complete(r: Round) { |r.results| == PROBES && AllPass(r.results) }

  /** The round stopped at a probe of this kind, the first that did not pass. */
  predicate StoppedBy(r: Round, last: Result) {
    0 < |r.results| <= PROBES && r.results[|r.results| - 1] == last && AllPass(r.results[..|r.results| - 1])
  }

  /** The rounds of a wait that began at time zero: every earlier one stopped at a failure worth
      repeating, and each began before the deadline and not before the delays between had passed. */
  predicate Waited(rounds: seq<Round>, earlier: nat) {
    && earlier <= |rounds|
    && (forall k :: 0 <= k < |rounds| ==> Floor(k) <= rounds[k].start < BUDGET)
    && (forall k :: 0 <= k < earlier ==> StoppedBy(rounds[k], Again))
  }

  /** One probe: it passes only before the deadline; None is the deadline itself. */
  method Probe(now: real) returns (t: real, r: Option<Result>)
    ensures t >= now && (r == Some(Pass) ==> t < BUDGET) && (r.None? ==> t >= BUDGET)
  {
    var d: real, answer: Result := *, *;
    t := now + if d > 0.0 then d else 0.0;
    if t >= BUDGET && answer == Pass {
      return t, None;
    }
    var alarm: bool := *;
    r := if alarm && t >= BUDGET then None else Some(answer);
  }

  /** One round: the probes in order until one does not pass or the deadline is reached. */
  method RunRound(start: real) returns (r: Round, cut: bool)
    ensures r.start == start && r.end >= start
    ensures if cut then r.end >= BUDGET && AllPass(r.results) && |r.results| < PROBES
            else (Complete(r) && r.end < BUDGET) || StoppedBy(r, Again) || StoppedBy(r, Never)
  {
    var now, results := start, [];
    for i := 0 to PROBES
      invariant |results| == i && AllPass(results) && now >= start && (i > 0 ==> now < BUDGET)
    {
      var answer;
      now, answer := Probe(now);
      if answer.None? {
        return Round(start, now, results), true;
      }
      results := results + [answer.value];
      if answer.value != Pass {
        assert results[..|results| - 1] == results[..i];
        return Round(start, now, results), false;
      }
    }
    return Round(start, now, results), false;
  }

  /** Sleeping is never short. */
  method Sleep(now: real, d: real) returns (t: real)
    ensures t >= now + d
  {
    var extra: real := *;
    t := now + d + if extra > 0.0 then extra else 0.0;
  }

  /** The wait: it succeeds exactly when one whole round passed before the deadline, fails at the first
      probe that must not be repeated, otherwise only when the time is up, and begins at most 48 rounds. */
  method WaitPublicReadiness() returns (outcome: Outcome, end: real, rounds: seq<Round>)
    ensures |rounds| <= 48
    ensures Waited(rounds, if rounds == [] then 0 else |rounds| - 1)
    ensures outcome == Ready <==> rounds != [] && Complete(rounds[|rounds| - 1]) && end < BUDGET
    ensures outcome == Refused <==> rounds != [] && StoppedBy(rounds[|rounds| - 1], Never)
    ensures outcome == TimedOut ==> end >= BUDGET
  {
    var now, delay := 0.0, FIRST_DELAY;
    rounds := [];
    while now < BUDGET
      invariant Waited(rounds, |rounds|) && |rounds| <= 48
      invariant delay == Delay(|rounds|) && (now >= Floor(|rounds|) || now >= BUDGET)
      decreases 48 - |rounds|
    {
      RoundsFit(|rounds|);
      var r, cut := RunRound(now);
      rounds, now := rounds + [r], r.end;
      if cut {
        return TimedOut, now, rounds;
      }
      if Complete(r) {
        return Ready, now, rounds;
      }
      if r.results[|r.results| - 1] == Never {
        return Refused, now, rounds;
      }
      if now >= BUDGET {
        return TimedOut, now, rounds;
      }
      now := Sleep(now, Shorter(delay, BUDGET - now));
      delay := Shorter(delay * 2.0, LONGEST_DELAY);
    }
    return TimedOut, now, rounds;
  }
}
