/** The migration launcher of one service and project: job directories with a marker and a secret, job
    containers, and runs that may fail or be killed anywhere and lose the answer to a create. */
module Migration {
  import opened Wrappers
  import Runs

  /** A job directory: whether its marker and its secret environment file are there. */
  datatype Job = Job(marker: bool, secret: bool)

  datatype At =
    | Looking
    | Sweeping
    | HalfSwept(job: nat)
    | Making
    | Made(job: nat)
    | Marked(job: nat)
    | Secret(job: nat)
    | Created(job: nat, id: nat)
    | Unlinked(job: nat, id: nat)
    | Started(job: nat, id: nat)
    | Removing(job: nat, good: bool)
    | HalfRemoved(job: nat, good: bool)
    | Removed(good: bool)

  /** Containers are the service's job containers, by ID, and whether each runs. Postgres is the state of
      the database container, and seen what the launcher in progress saw of it before it made its job. */
  datatype World = World(jobs: map<nat, Job>, containers: map<nat, bool>, postgres: nat, seen: nat, launcher: Option<At>)

  datatype Action =
    | Begin
    | Look
    | RemoveOld(id: nat)
    | SweepSecret(job: nat)
    | SweepMarker(job: nat)
    | SweepDirectory
    | Swept
    | MakeDirectory(job: nat)
    | WriteMarker
    | WriteSecret
    | Create(id: nat)
    | CreateUnknown(id: nat, created: bool)
    | Unlink
    | Start
    | Exits(id: nat)
    | Reap(good: bool)
    | GiveUp
    | DropSecret
    | DropMarker
    | DropDirectory
    | Pass
    | Kill
    | Disturb(postgres: nat)

  predicate Stands(w: World, at: At) { w.launcher == Some(at) }

  /** The launcher's steps in the order of the code. Whatever raises between them ends the run as Kill
      does, except that the run then still tries to remove its own container and directory. */
  predicate Enabled(w: World, a: Action) {
    match a
    case Begin => w.launcher.None?
    case Look => Stands(w, Looking) && forall id :: id in w.containers ==> !w.containers[id]
    case RemoveOld(id) => Stands(w, Sweeping) && id in w.containers && !w.containers[id]
    case SweepSecret(job) => Stands(w, Sweeping) && w.containers == map[] && job in w.jobs && w.jobs[job].marker
    case SweepMarker(job) => Stands(w, Sweeping) && w.containers == map[] && job in w.jobs && w.jobs[job] == Job(true, false)
    case SweepDirectory => w.launcher.Some? && w.launcher.value.HalfSwept?
    case Swept => Stands(w, Sweeping) && w.containers == map[] && w.jobs == map[]
    case MakeDirectory(job) => Stands(w, Making) && job !in w.jobs
    case WriteMarker => w.launcher.Some? && w.launcher.value.Made? && w.launcher.value.job in w.jobs
    case WriteSecret => w.launcher.Some? && w.launcher.value.Marked? && w.launcher.value.job in w.jobs
    case Create(id) => w.launcher.Some? && w.launcher.value.Secret? && id !in w.containers
    case CreateUnknown(id, _) => w.launcher.Some? && w.launcher.value.Secret? && id !in w.containers
    case Unlink => w.launcher.Some? && w.launcher.value.Created? && w.launcher.value.job in w.jobs
    case Start => w.launcher.Some? && w.launcher.value.Unlinked? && w.launcher.value.id in w.containers
    case Exits(id) => id in w.containers && w.containers[id]
    case Reap(good) => w.launcher.Some? && (w.launcher.value.Created? || w.launcher.value.Unlinked? || w.launcher.value.Started?) &&
                       (good ==> w.launcher.value.Started?)
    case GiveUp => w.launcher.Some? && (w.launcher.value.Marked? || w.launcher.value.Secret?)
    case DropSecret => w.launcher.Some? && w.launcher.value.Removing? && w.launcher.value.job in w.jobs
    case DropMarker => w.launcher.Some? && w.launcher.value.Removing? && w.launcher.value.job in w.jobs && !w.jobs[w.launcher.value.job].secret
    case DropDirectory => w.launcher.Some? && w.launcher.value.HalfRemoved?
    case Pass => Stands(w, Removed(true)) && w.postgres == w.seen
    case Kill => w.launcher.Some?
    case Disturb(_) => true
  }

  function Moved(w: World, at: At): World { w.(launcher := Some(at)) }

  function Put(w: World, job: nat, j: Job, at: At): World { w.(jobs := w.jobs[job := j], launcher := Some(at)) }

  function Next(w: World, a: Action): World
    requires Enabled(w, a)
  {
    match a
    case Begin => Moved(w, Looking)
    case Look => Moved(w, Sweeping)
    case RemoveOld(id) => w.(containers := w.containers - {id})
    case SweepSecret(job) => Put(w, job, Job(true, false), Sweeping)
    case SweepMarker(job) => Put(w, job, Job(false, false), HalfSwept(job))
    case SweepDirectory => Moved(w, Sweeping).(jobs := w.jobs - {w.launcher.value.job})
    case Swept => Moved(w, Making).(seen := w.postgres)
    case MakeDirectory(job) => Put(w, job, Job(false, false), Made(job))
    case WriteMarker => Put(w, w.launcher.value.job, Job(true, false), Marked(w.launcher.value.job))
    case WriteSecret => Put(w, w.launcher.value.job, Job(true, true), Secret(w.launcher.value.job))
    case Create(id) => Moved(w, Created(w.launcher.value.job, id)).(containers := w.containers[id := false])
    case CreateUnknown(id, created) =>
      w.(launcher := None, containers := if created then w.containers[id := false] else w.containers)
    case Unlink => Put(w, w.launcher.value.job, Job(true, false), Unlinked(w.launcher.value.job, w.launcher.value.id))
    case Start => Moved(w, Started(w.launcher.value.job, w.launcher.value.id)).(containers := w.containers[w.launcher.value.id := true])
    case Exits(id) => w.(containers := w.containers[id := false])
    case Reap(good) => Moved(w, Removing(w.launcher.value.job, good)).(containers := w.containers - {w.launcher.value.id})
    case GiveUp => Moved(w, Removing(w.launcher.value.job, false))
    case DropSecret => Put(w, w.launcher.value.job, w.jobs[w.launcher.value.job].(secret := false), w.launcher.value)
    case DropMarker =>
      Put(w, w.launcher.value.job, Job(false, false), HalfRemoved(w.launcher.value.job, w.launcher.value.good))
    case DropDirectory => Moved(w, Removed(w.launcher.value.good)).(jobs := w.jobs - {w.launcher.value.job})
    case Pass => w.(launcher := None)
    case Kill => w.(launcher := None)
    case Disturb(postgres) => w.(postgres := postgres)
  }

  predicate Step(w: World, a: Action, v: World) { Enabled(w, a) && v == Next(w, a) }

  ghost predicate Behaves(ws: seq<World>, acts: seq<Action>) { Runs.Behaves(Step, ws, acts) }

  // ----- what every step keeps -----

  /** The directory the launcher has made its own, and its container. */
  predicate LauncherSound(w: World, at: At) {
    match at
    case Looking => true
    case Sweeping => NoneRuns(w)
    case HalfSwept(job) => w.containers == map[] && job in w.jobs && w.jobs[job] == Job(false, false)
    case Making => w.containers == map[] && w.jobs == map[]
    case Made(job) => w.containers == map[] && w.jobs == map[job := Job(false, false)]
    case Marked(job) => w.containers == map[] && w.jobs == map[job := Job(true, false)]
    case Secret(job) => w.containers == map[] && w.jobs == map[job := Job(true, true)]
    case Created(job, id) => w.containers == map[id := false] && w.jobs == map[job := Job(true, true)]
    case Unlinked(job, id) => w.containers == map[id := false] && w.jobs == map[job := Job(true, false)]
    case Started(job, id) => w.containers.Keys == {id} && w.jobs == map[job := Job(true, false)]
    case Removing(job, _) => w.containers == map[] && w.jobs.Keys == {job} && w.jobs[job].marker
    case HalfRemoved(job, _) => w.containers == map[] && w.jobs == map[job := Job(false, false)]
    case Removed(_) => w.containers == map[] && w.jobs == map[]
  }

  predicate NoneRuns(w: World) { forall id :: id in w.containers ==> !w.containers[id] }

  predicate Sound(w: World) {
    && (forall a, b :: a in w.containers && b in w.containers && w.containers[a] && w.containers[b] ==> a == b)
    && (forall j :: j in w.jobs && w.jobs[j].secret ==> w.jobs[j].marker)
    && (w.launcher.Some? ==> LauncherSound(w, w.launcher.value))
  }

  predicate Sweeps(a: Action) {
    a.Begin? || a.Look? || a.RemoveOld? || a.SweepSecret? || a.SweepMarker? || a.SweepDirectory? || a.Swept?
  }

  lemma SweepKeepsSound(w: World, a: Action)
    requires Sound(w) && Enabled(w, a) && Sweeps(a)
    ensures Sound(Next(w, a))
  {
  }

  predicate Launches(a: Action) {
    a.MakeDirectory? || a.WriteMarker? || a.WriteSecret? || a.Create? || a.CreateUnknown? || a.Unlink? || a.Start?
  }

  lemma LaunchKeepsSound(w: World, a: Action)
    requires Sound(w) && Enabled(w, a) && Launches(a)
    ensures Sound(Next(w, a))
  {
  }

  lemma EndKeepsSound(w: World, a: Action)
    requires Sound(w) && Enabled(w, a) && !Sweeps(a) && !Launches(a)
    ensures Sound(Next(w, a))
  {
  }

  lemma StepKeepsSound(w: World, a: Action)
    requires Sound(w) && Enabled(w, a)
    ensures Sound(Next(w, a))
  {
    if Sweeps(a) {
      SweepKeepsSound(w, a);
    } else if Launches(a) {
      LaunchKeepsSound(w, a);
    } else {
      EndKeepsSound(w, a);
    }
  }

  predicate Clean(w: World) { w.launcher.None? && w.jobs == map[] && w.containers == map[] }

  lemma {:induction false} RunIsSound(ws: seq<World>, acts: seq<Action>, i: nat)
    requires Behaves(ws, acts) && Clean(ws[0]) && i < |ws|
    ensures Sound(ws[i])
    decreases i
  {
    if i > 0 {
      RunIsSound(ws, acts, i - 1);
      assert Step(ws[i - 1], acts[i - 1], ws[i]);
      StepKeepsSound(ws[i - 1], acts[i - 1]);
    }
  }

  /** Over all runs of the launcher on one scratch directory, with kills and lost create answers, at most
      one migration runs, no secret is without its marker, and a passing run leaves neither a container
      nor a job directory, its own or an older one. */
  lemma OneMigrationAtATime(ws: seq<World>, acts: seq<Action>, i: nat, a: nat, b: nat, j: nat)
    requires Behaves(ws, acts) && Clean(ws[0]) && i < |ws|
    ensures a in ws[i].containers && ws[i].containers[a] && b in ws[i].containers && ws[i].containers[b] ==> a == b
    ensures j in ws[i].jobs && ws[i].jobs[j].secret ==> ws[i].jobs[j].marker
    ensures i < |acts| && acts[i] == Pass ==> Clean(ws[i + 1])
  {
    RunIsSound(ws, acts, i);
    if i < |acts| {
      assert Step(ws[i], acts[i], ws[i + 1]);
    }
  }

  lemma {:induction false} SeenBefore(ws: seq<World>, acts: seq<Action>, i: nat) returns (k: nat)
    requires Behaves(ws, acts) && Clean(ws[0]) && i < |ws| && ws[i].launcher.Some?
    requires !ws[i].launcher.value.Looking? && !ws[i].launcher.value.Sweeping? && !ws[i].launcher.value.HalfSwept?
    ensures k < i && acts[k] == Swept && ws[k].postgres == ws[i].seen
    ensures forall m :: k < m < i ==> acts[m] != Begin && acts[m] != Kill
    decreases i
  {
    assert Step(ws[i - 1], acts[i - 1], ws[i]);
    if acts[i - 1] == Swept {
      k := i - 1;
    } else {
      k := SeenBefore(ws, acts, i - 1);
    }
  }

  /** A passing run finds the database container as it was before this very run made its job. */
  lemma PassKeepsPostgres(ws: seq<World>, acts: seq<Action>, i: nat) returns (k: nat)
    requires Behaves(ws, acts) && Clean(ws[0]) && i < |acts| && acts[i] == Pass
    ensures k < i && acts[k] == Swept && ws[k].postgres == ws[i].postgres
    ensures forall m :: k < m < i ==> acts[m] != Begin && acts[m] != Kill
  {
    assert Step(ws[i], acts[i], ws[i + 1]);
    k := SeenBefore(ws, acts, i);
  }

  // ----- a directory without a marker -----

  /** A directory nobody is working on has no marker. */
  predicate Blocked(w: World, job: nat) {
    && job in w.jobs && !w.jobs[job].marker
    && (w.launcher.Some? ==> w.launcher.value.Looking? || w.launcher.value.Sweeping? ||
                             (w.launcher.value.HalfSwept? && w.launcher.value.job != job))
  }

  lemma BlockedStep(w: World, a: Action, job: nat)
    requires Blocked(w, job) && Enabled(w, a)
    ensures Blocked(Next(w, a), job) && a != Pass && a != Swept
  {
  }

  /** Such a directory stops every later run for good. */
  lemma {:induction false} StaysBlocked(ws: seq<World>, acts: seq<Action>, i: nat, k: nat, job: nat)
    requires Behaves(ws, acts) && i <= k < |ws| && Blocked(ws[i], job)
    ensures Blocked(ws[k], job) && forall m :: i <= m < k ==> acts[m] != Pass && acts[m] != Swept
    decreases k
  {
    if i < k {
      StaysBlocked(ws, acts, i, k - 1, job);
      assert Step(ws[k - 1], acts[k - 1], ws[k]);
      BlockedStep(ws[k - 1], acts[k - 1], job);
    }
  }

  /** The windows in which a job directory has no marker: after it is made, and after its marker is removed. */
  predicate Window(w: World, job: nat) {
    w.launcher.Some? && ((w.launcher.value.Made? && w.launcher.value.job == job) ||
                         (w.launcher.value.HalfSwept? && w.launcher.value.job == job) ||
                         (w.launcher.value.HalfRemoved? && w.launcher.value.job == job))
  }

  predicate Unmarked(w: World, job: nat) { job in w.jobs && !w.jobs[job].marker }

  lemma UnmarkedStep(w: World, a: Action, job: nat)
    requires Sound(w) && Enabled(w, a) && Unmarked(Next(w, a), job) && !Window(Next(w, a), job)
    ensures Unmarked(w, job) && (Window(w, job) ==> a == Kill)
  {
  }

  /** A directory is left without a marker only by a kill in one of those windows. */
  lemma {:induction false} UnmarkedHasAKill(ws: seq<World>, acts: seq<Action>, i: nat, job: nat)
    requires Behaves(ws, acts) && Clean(ws[0]) && i < |ws| && Unmarked(ws[i], job)
    ensures Window(ws[i], job) || exists k :: 0 <= k < i && acts[k] == Kill && Window(ws[k], job)
    decreases i
  {
    if !Window(ws[i], job) {
      RunIsSound(ws, acts, i - 1);
      assert Step(ws[i - 1], acts[i - 1], ws[i]);
      UnmarkedStep(ws[i - 1], acts[i - 1], job);
      UnmarkedHasAKill(ws, acts, i - 1, job);
    }
  }

  // ----- when a later run can go on -----

  /** What the next launcher needs: no job container runs and every job directory has its marker. */
  predicate Recoverable(w: World) {
    NoneRuns(w) && forall j :: j in w.jobs ==> w.jobs[j].marker
  }

  predicate Uneventful(acts: seq<Action>) {
    forall i :: 0 <= i < |acts| ==> !acts[i].Kill? && !acts[i].Exits? && !acts[i].Disturb?
  }

  /** The launcher reaches the point where it makes its own directory, with everything swept. */
  ghost predicate CanSweep(w: World) {
    exists ws: seq<World>, acts: seq<Action> ::
      Behaves(ws, acts) && ws[0] == w && Arrived(ws[|acts|]) && Uneventful(acts)
  }

  predicate Arrived(w: World) { w.jobs == map[] && w.containers == map[] && w.launcher == Some(Making) }

  lemma Then(ws: seq<World>, acts: seq<Action>, a: Action) returns (vs: seq<World>, bs: seq<Action>)
    requires Behaves(ws, acts) && Uneventful(acts) && Enabled(ws[|acts|], a) && Uneventful([a])
    ensures Behaves(vs, bs) && Uneventful(bs) && vs[0] == ws[0] && vs[|bs|] == Next(ws[|acts|], a)
  {
    assert !([a])[0].Kill? && !([a])[0].Exits? && !([a])[0].Disturb?;
    assert Step(ws[|acts|], a, Next(ws[|acts|], a));
    Runs.Extend(Step, ws, acts, a, Next(ws[|acts|], a));
    vs, bs := ws + [Next(ws[|acts|], a)], acts + [a];
  }

  lemma SweepsJob(ws: seq<World>, acts: seq<Action>, job: nat) returns (vs: seq<World>, bs: seq<Action>)
    requires Behaves(ws, acts) && Uneventful(acts) && Stands(ws[|acts|], Sweeping)
    requires ws[|acts|].containers == map[] && job in ws[|acts|].jobs && ws[|acts|].jobs[job].marker
    ensures Behaves(vs, bs) && Uneventful(bs) && vs[0] == ws[0]
    ensures vs[|bs|] == ws[|acts|].(jobs := ws[|acts|].jobs - {job})
  {
    vs, bs := Then(ws, acts, SweepSecret(job));
    vs, bs := Then(vs, bs, SweepMarker(job));
    vs, bs := Then(vs, bs, SweepDirectory);
    assert vs[|bs|].jobs == ws[|acts|].jobs - {job};
  }

  lemma {:induction false} SweepsAll(ws: seq<World>, acts: seq<Action>) returns (vs: seq<World>, bs: seq<Action>)
    requires Behaves(ws, acts) && Uneventful(acts) && Stands(ws[|acts|], Sweeping) && Recoverable(ws[|acts|])
    ensures Behaves(vs, bs) && Uneventful(bs) && vs[0] == ws[0] && Arrived(vs[|bs|])
    decreases |ws[|acts|].containers|, |ws[|acts|].jobs|
  {
    var w := ws[|acts|];
    if w.containers != map[] {
      var id :| id in w.containers;
      SmallerMap(w.containers, id);
      vs, bs := Then(ws, acts, RemoveOld(id));
      vs, bs := SweepsAll(vs, bs);
    } else if w.jobs != map[] {
      var job :| job in w.jobs;
      SmallerMap(w.jobs, job);
      vs, bs := SweepsJob(ws, acts, job);
      vs, bs := SweepsAll(vs, bs);
    } else {
      vs, bs := Then(ws, acts, Swept);
    }
  }

  lemma SmallerMap<T>(m: map<nat, T>, k: nat)
    requires k in m
    ensures |m - {k}| < |m|
  {
    assert (m - {k}).Keys == m.Keys - {k};
    assert |m.Keys - {k}| < |m.Keys|;
  }

  /** A later launcher gets past what earlier runs left exactly when no job container runs and every job
      directory has its marker; and a kill in one of the two windows takes that away for good. */
  lemma NextRunGoesOn(w: World)
    requires w.launcher.None? && Sound(w)
    ensures CanSweep(w) <==> Recoverable(w)
  {
    if Recoverable(w) {
      var ws, acts := [w], [];
      ws, acts := Then(ws, acts, Begin);
      ws, acts := Then(ws, acts, Look);
      ws, acts := SweepsAll(ws, acts);
    } else if CanSweep(w) {
      var ws: seq<World>, acts: seq<Action> :|
        Behaves(ws, acts) && ws[0] == w && Arrived(ws[|acts|]) && Uneventful(acts);
      if j :| j in w.jobs && !w.jobs[j].marker {
        StaysBlocked(ws, acts, 0, |acts|, j);
      } else {
        var id :| id in w.containers && w.containers[id];
        StaysRunning(ws, acts, |acts|, id);
      }
      assert false;
    }
  }

  /** A running container that nobody has started in this run keeps the launcher looking. */
  lemma {:induction false} StaysRunning(ws: seq<World>, acts: seq<Action>, k: nat, id: nat)
    requires Behaves(ws, acts) && k < |ws| && ws[0].launcher.None? && id in ws[0].containers && ws[0].containers[id]
    requires Uneventful(acts)
    ensures id in ws[k].containers && ws[k].containers[id] && (ws[k].launcher.None? || ws[k].launcher == Some(Looking))
    decreases k
  {
    if k > 0 {
      StaysRunning(ws, acts, k - 1, id);
      assert Step(ws[k - 1], acts[k - 1], ws[k]);
    }
  }

  // ----- the launcher as the program performs it -----

  /** What earlier jobs left can be swept. */
  predicate Passable(containers: map<nat, bool>, jobs: map<nat, Job>) {
    (forall id :: id in containers ==> !containers[id]) && forall d :: d in jobs ==> jobs[d].marker
  }

  /** How the calls of a launch end: whether no call fails, whether the container has done its work (its image
      is the resolved one, it ran out of no memory, it and its process ended well, and it left one completion
      record), and whether only the database container is on the network afterwards. */
  datatype Calls = Calls(smooth: bool, done: bool, alone: bool)

  class Launcher {
    var jobs: map<nat, Job>
    var containers: map<nat, bool>
    var postgres: nat
    /** Every world passed and the step taken in each: a kill may come between any two. */
    ghost var past: seq<World>
    ghost var acts: seq<Action>

    constructor (postgres: nat)
      ensures Idle() && Clean(Now()) && acts == []
    {
      jobs, containers, this.postgres := map[], map[], postgres;
      past, acts := [World(map[], map[], postgres, 0, None)], [];
    }

    ghost predicate Valid()
      reads this
    {
      Behaves(past, acts) && past[|acts|] == World(jobs, containers, postgres, past[|acts|].seen, past[|acts|].launcher)
    }

    ghost function Now(): World
      requires Valid()
      reads this
    {
      past[|acts|]
    }

    ghost predicate Idle()
      reads this
    {
      Valid() && Now().launcher.None?
    }

    /** The history only grows. */
    twostate predicate Grown()
      reads this
    {
      old(past) <= past && old(acts) <= acts
    }

    ghost predicate Busy(at: At)
      reads this
    {
      Valid() && Now().launcher == Some(at)
    }

    /** The only way directories and containers change: one step of the model, and both as it leaves them. */
    method Put(jobs: map<nat, Job>, containers: map<nat, bool>, ghost a: Action)
      requires Valid() && Enabled(Now(), a) && Next(Now(), a).postgres == postgres
      requires Next(Now(), a).jobs == jobs && Next(Now(), a).containers == containers
      modifies this`jobs, this`containers, this`past, this`acts
      ensures Valid() && this.jobs == jobs && this.containers == containers && Now() == Next(old(Now()), a) && Grown()
    {
      ghost var v := Next(Now(), a);
      assert Step(Now(), a, v);
      Runs.Extend(Step, past, acts, a, v);
      past, acts := past + [v], acts + [a];
      this.jobs, this.containers := jobs, containers;
    }

    /** A step that changes neither. */
    ghost method Note(a: Action)
      requires Valid() && Enabled(Now(), a) && Next(Now(), a).postgres == postgres
      requires Next(Now(), a).jobs == jobs && Next(Now(), a).containers == containers
      modifies this`past, this`acts
      ensures Valid() && Now() == Next(old(Now()), a) && Grown()
    {
      var v := Next(Now(), a);
      assert Step(Now(), a, v);
      Runs.Extend(Step, past, acts, a, v);
      past, acts := past + [v], acts + [a];
    }

    /** A call that may fail, unless all goes smoothly. */
    method Call(smooth: bool) returns (ok: bool)
      ensures smooth ==> ok
    {
      ok := *;
      ok := ok || smooth;
    }

    /** Removes every container of an earlier job; one that runs stops the launcher before anything is done. */
    method RemoveOldContainers(smooth: bool) returns (ok: bool)
      requires Busy(Looking)
      modifies this`jobs, this`containers, this`past, this`acts
      ensures Grown() && jobs == old(jobs) && (if ok then containers == map[] && Busy(Sweeping) else Idle())
      ensures (exists id :: id in old(containers) && old(containers)[id]) ==> !ok && containers == old(containers)
      ensures smooth && !(exists id :: id in old(containers) && old(containers)[id]) ==> ok
    {
      var ids := containers.Keys;
      if exists id :: id in ids && containers[id] {
        Note(Kill);
        return false;
      }
      Note(Look);
      while ids != {}
        invariant Grown() && jobs == old(jobs) && postgres == old(postgres)
        invariant ids == containers.Keys && Busy(Sweeping)
        invariant forall id :: id in containers ==> !containers[id]
        decreases ids
      {
        var cid :| cid in ids;
        var removed := Call(smooth);
        if !removed {
          Note(Kill);
          return false;
        }
        Put(jobs, containers - {cid}, RemoveOld(cid));
        ids := ids - {cid};
      }
      ok := true;
    }

    /** Removes one left job directory: the secret, then the marker, then the directory. */
    method RemoveLeftJob(d: nat, smooth: bool) returns (ok: bool)
      requires containers == map[] && d in jobs && Busy(Sweeping)
      modifies this`jobs, this`containers, this`past, this`acts
      ensures Grown() && containers == map[] && (if ok then jobs == old(jobs) - {d} && Busy(Sweeping) else Idle())
      ensures !old(jobs)[d].marker ==> !ok && jobs == old(jobs)
      ensures smooth && old(jobs)[d].marker ==> ok
    {
      var fine := Call(smooth);
      if !fine || !jobs[d].marker {
        Note(Kill);
        return false;
      }
      Put(jobs[d := Job(true, false)], containers, SweepSecret(d));
      Put(jobs[d := Job(false, false)], containers, SweepMarker(d));
      fine := Call(smooth);
      if !fine {
        Note(Kill);
        return false;
      }
      Put(jobs - {d}, containers, SweepDirectory);
      ok := true;
    }

    /** Recovers what earlier runs left, or refuses; then looks at the database container. */
    method NoPreviousJob(smooth: bool) returns (ok: bool)
      requires Busy(Looking)
      modifies this`jobs, this`containers, this`past, this`acts
      ensures Grown()
      ensures if ok then containers == map[] && jobs == map[] && Busy(Making) && Now().seen == postgres else Idle()
      ensures (exists id :: id in old(containers) && old(containers)[id]) ==> !ok && containers == old(containers) && jobs == old(jobs)
      ensures smooth && Passable(old(containers), old(jobs)) ==> ok
    {
      ok := RemoveOldContainers(smooth);
      if !ok {
        return;
      }
      var rest := jobs.Keys;
      while rest != {}
        invariant Grown() && postgres == old(postgres)
        invariant rest == jobs.Keys && containers == map[] && Busy(Sweeping)
        invariant forall d :: d in jobs ==> d in old(jobs) && jobs[d] == old(jobs)[d]
        decreases rest
      {
        var d :| d in rest;
        ok := RemoveLeftJob(d, smooth);
        if !ok {
          return;
        }
        rest := rest - {d};
      }
      Note(Swept);
      ok := true;
    }

    /** Makes the directory and its durable marker. */
    method MakeJob(d: nat, smooth: bool) returns (ok: bool)
      requires jobs == map[] && containers == map[] && Busy(Making)
      modifies this`jobs, this`containers, this`past, this`acts
      ensures Grown() && containers == map[]
      ensures if ok then jobs == map[d := Job(true, false)] && Busy(Marked(d)) && Now().seen == old(Now().seen) else Idle()
      ensures smooth ==> ok
    {
      Put(jobs[d := Job(false, false)], containers, MakeDirectory(d));
      ok := Call(smooth);
      if ok {
        Put(jobs[d := Job(true, false)], containers, WriteMarker);
      } else {
        Note(Kill);
      }
    }

    /** Writes the secret beside its marker; a write that fails, even half way, takes the directory away. */
    method WriteEnvironment(d: nat, smooth: bool) returns (ok: bool)
      requires jobs == map[d := Job(true, false)] && containers == map[] && Busy(Marked(d))
      modifies this`jobs, this`containers, this`past, this`acts
      ensures Grown() && containers == map[]
      ensures if ok then jobs == map[d := Job(true, true)] && Busy(Secret(d)) && Now().seen == old(Now().seen) else Idle()
      ensures smooth ==> ok
    {
      ok := Call(smooth);
      var opens := Call(smooth);
      if ok || opens {
        Put(jobs[d := Job(true, true)], containers, WriteSecret);
      }
      if !ok {
        DropJob(d, smooth);
      }
    }

    method DropJob(d: nat, smooth: bool)
      requires jobs.Keys == {d} && jobs[d].marker && containers == map[] && (Busy(Marked(d)) || Busy(Secret(d)))
      modifies this`jobs, this`containers, this`past, this`acts
      ensures Grown() && containers == map[] && Idle()
    {
      Note(GiveUp);
      var removed := RemoveOwnJob(d, false, smooth);
      if removed {
        Note(Kill);
      }
    }

    /** The directory, its durable marker and only then the secret. */
    method PrepareJob(d: nat, smooth: bool) returns (ok: bool)
      requires jobs == map[] && containers == map[] && Busy(Making)
      modifies this`jobs, this`containers, this`past, this`acts
      ensures Grown() && containers == map[]
      ensures if ok then jobs == map[d := Job(true, true)] && Busy(Secret(d)) && Now().seen == old(Now().seen) else Idle()
      ensures smooth ==> ok
    {
      ok := MakeJob(d, smooth);
      if ok {
        ok := WriteEnvironment(d, smooth);
      }
    }

    /** Empties the launcher's own directory: the secret, then the marker. */
    method EmptyOwnJob(d: nat, good: bool)
      requires jobs.Keys == {d} && jobs[d].marker && Busy(Removing(d, good))
      modifies this`jobs, this`containers, this`past, this`acts
      ensures Grown() && containers == old(containers) && jobs == map[d := Job(false, false)]
      ensures Busy(HalfRemoved(d, good)) && Now().seen == old(Now().seen)
    {
      Put(jobs[d := jobs[d].(secret := false)], containers, DropSecret);
      Put(jobs[d := Job(false, false)], containers, DropMarker);
    }

    /** Removes the launcher's own directory. */
    method RemoveOwnJob(d: nat, good: bool, smooth: bool) returns (ok: bool)
      requires jobs.Keys == {d} && jobs[d].marker && containers == map[] && Busy(Removing(d, good))
      modifies this`jobs, this`containers, this`past, this`acts
      ensures Grown() && containers == map[]
      ensures if ok then jobs == map[] && Busy(Removed(good)) && Now().seen == old(Now().seen) else Idle()
      ensures smooth ==> ok
    {
      EmptyOwnJob(d, good);
      ok := Call(smooth);
      if ok {
        Put(jobs - {d}, containers, DropDirectory);
      } else {
        Note(Kill);
      }
    }

    /** Creates the container; an unknown outcome leaves the marked directory for the next run. */
    method CreateContainer(d: nat, id: nat, smooth: bool) returns (ok: bool)
      requires jobs == map[d := Job(true, true)] && containers == map[] && Busy(Secret(d))
      modifies this`jobs, this`containers, this`past, this`acts
      ensures Grown() && jobs == old(jobs)
      ensures if ok then containers == map[id := false] && Busy(Created(d, id)) && Now().seen == old(Now().seen) else Idle()
      ensures smooth ==> ok
    {
      ok := Call(smooth);
      if ok {
        Put(jobs, containers[id := false], Create(id));
      } else {
        var created := Call(smooth);
        Put(jobs, if created then containers[id := false] else containers, CreateUnknown(id, created));
      }
    }

    /** Removes the secret, starts the container and waits for it. */
    method StartContainer(d: nat, id: nat, c: Calls) returns (good: bool, ghost at: At)
      requires jobs == map[d := Job(true, true)] && containers == map[id := false] && Busy(Created(d, id))
      modifies this`jobs, this`containers, this`past, this`acts
      ensures Grown() && jobs.Keys == {d} && jobs[d].marker && containers.Keys == {id}
      ensures Busy(at) && Now().seen == old(Now().seen) && (at == Created(d, id) || at == Unlinked(d, id) || at == Started(d, id))
      ensures good ==> at == Started(d, id) && !containers[id]
      ensures (good ==> c.done) && (c.smooth && c.done ==> good)
    {
      at := Created(d, id);
      good := Call(c.smooth);
      if good {
        Put(jobs[d := Job(true, false)], containers, Unlink);
        at := Unlinked(d, id);
        good := Call(c.smooth);
      }
      if good {
        good := AwaitContainer(d, id, c);
        at := Started(d, id);
      }
    }

    method AwaitContainer(d: nat, id: nat, c: Calls) returns (good: bool)
      requires containers == map[id := false] && Busy(Unlinked(d, id))
      modifies this`jobs, this`containers, this`past, this`acts
      ensures Grown() && jobs == old(jobs) && containers.Keys == {id}
      ensures Busy(Started(d, id)) && Now().seen == old(Now().seen) && (good ==> !containers[id])
      ensures (good ==> c.done) && (c.smooth && c.done ==> good)
    {
      Put(jobs, containers[id := true], Start);
      good := Call(c.smooth);
      if good {
        Put(jobs, containers[id := false], Exits(id));
      }
      good := good && c.done;
    }

    /** Creates and starts the container, waits for it and removes it again. */
    method RunContainer(d: nat, id: nat, c: Calls) returns (cleaned: bool, good: bool)
      requires jobs == map[d := Job(true, true)] && containers == map[] && Busy(Secret(d))
      modifies this`jobs, this`containers, this`past, this`acts
      ensures Grown() && jobs.Keys == {d} && jobs[d].marker && (good ==> cleaned && c.done) && (c.smooth && c.done ==> good)
      ensures if cleaned then containers == map[] && Busy(Removing(d, good)) && Now().seen == old(Now().seen) else Idle()
    {
      good := false;
      cleaned := CreateContainer(d, id, c.smooth);
      if cleaned {
        ghost var at;
        good, at := StartContainer(d, id, c);
        cleaned := Call(c.smooth);
        good := good && cleaned;
        if cleaned {
          Put(jobs, containers - {id}, Reap(good));
        } else {
          Note(Kill);
        }
      }
    }

    /** One launch under the lock. Every world passed is reached by the model's own steps; a pass leaves no
        container, no directory and the database container as it was, and a running container of an earlier
        job leaves everything as it was. If nothing of earlier jobs runs, their directories are all marked and
        no call fails, it passes exactly if the container did its work, the database container is in the end
        what it was, and it alone is on the network. */
    method RunJob(d: nat, id: nat, after: nat, c: Calls) returns (passed: bool)
      requires Idle()
      modifies this
      ensures Idle() && Grown()
      ensures passed ==> Clean(Now()) && postgres == old(postgres)
      ensures passed ==> c.done && c.alone
      ensures c.smooth && Passable(old(containers), old(jobs)) ==> (passed <==> c.done && c.alone && after == old(postgres))
      ensures (exists o :: o in old(containers) && old(containers)[o]) ==> !passed && jobs == old(jobs) && containers == old(containers)
    {
      Note(Begin);
      passed := NoPreviousJob(c.smooth);
      var before := postgres;
      if passed {
        passed := PrepareJob(d, c.smooth);
      }
      if passed {
        passed := RunAndRemove(d, id, before, after, c);
      }
    }

    /** What the database container is in the end is compared with what it was. */
    method RunAndRemove(d: nat, id: nat, before: nat, after: nat, c: Calls) returns (passed: bool)
      requires Valid() && Now().seen == before
      requires jobs == map[d := Job(true, true)] && containers == map[] && Busy(Secret(d))
      modifies this
      ensures Idle() && Grown() && (passed ==> Clean(Now()) && postgres == before)
      ensures passed ==> c.done && c.alone
      ensures c.smooth ==> (passed <==> c.done && c.alone && after == before)
    {
      var cleaned, good := RunContainer(d, id, c);
      if !cleaned {
        return false;
      }
      var removed := RemoveOwnJob(d, good, c.smooth);
      if !removed {
        return false;
      }
      Change(after);
      passed := good && postgres == before && c.alone;
      if passed {
        Note(Pass);
      } else {
        Note(Kill);
      }
    }

    /** The database container changes, for all the launcher knows. */
    method Change(after: nat)
      requires Valid()
      modifies this`postgres, this`past, this`acts
      ensures Valid() && Grown() && Now() == old(Now()).(postgres := after) && postgres == after
    {
      ghost var v := Now().(postgres := after);
      assert Step(Now(), Disturb(after), v);
      Runs.Extend(Step, past, acts, Disturb(after), v);
      past, acts := past + [v], acts + [Disturb(after)];
      postgres := after;
    }

    /** So what is proved of runs holds at every moment a kill may come: this is one of them. */
    lemma SecretIsMarkedEver(i: nat, j: nat)
      requires Valid() && Clean(past[0]) && i < |past| && j in past[i].jobs && past[i].jobs[j].secret
      ensures past[i].jobs[j].marker
    {
      OneMigrationAtATime(past, acts, i, 0, 0, j);
    }
  }
}
