/** The supervisor's side of a cutover: closing the public services, handing traffic back to the
    canonical containers, and one recovery pass. Every call to the container engine may fail, with or
    without effect; what was done is logged, so that it can be judged wherever the pass is killed. */
module Watchdog {
  import opened Wrappers
  import opened Cutover

  const PUBLIC: seq<Service> := [Edge, Proxy, User, Yolo]

  datatype Info = Info(image: nat, running: bool, restartNo: bool)

  datatype Key = Key(service: Service, id: nat)

  /** All containers of the public services, by service and ID. */
  type Fleet = map<Key, Info>

  predicate Up(f: Fleet, s: Service, id: nat) { Key(s, id) in f && f[Key(s, id)].running }

  ghost predicate Down(f: Fleet, s: Service) { forall id :: !Up(f, s, id) }

  /** The service has this one container. */
  ghost predicate Sole(f: Fleet, s: Service, id: nat) { Key(s, id) in f && forall k :: k in f && k.service == s ==> k.id == id }

  ghost predicate OneUp(f: Fleet, s: Service) { exists id :: Sole(f, s, id) && Up(f, s, id) }

  /** One container for each service, and it runs. */
  ghost predicate AllUp(f: Fleet) { forall s: Service :: OneUp(f, s) }

  /** The same containers with the same identities. */
  ghost predicate SameFleet(f: Fleet, g: Fleet) {
    f.Keys == g.Keys && forall k :: k in f ==> g[k] == f[k].(running := g[k].running)
  }

  ghost predicate OnlyStops(f: Fleet, g: Fleet) { SameFleet(f, g) && forall k :: k in f && g[k].running ==> f[k].running }

  ghost predicate OnlyStarts(f: Fleet, g: Fleet) { SameFleet(f, g) && forall k :: k in f && f[k].running ==> g[k].running }

  /** Every listed service is stopped except perhaps those in errors. */
  ghost predicate ClosedBut(f: Fleet, services: seq<Service>, errors: seq<Service>) {
    forall s :: s in services && s !in errors ==> Down(f, s)
  }

  /** The containers of other services are as they were. */
  ghost predicate Others(f: Fleet, g: Fleet, touched: set<Service>) {
    f.Keys == g.Keys && forall k :: k in f && k.service !in touched ==> g[k] == f[k]
  }

  function Switched(f: Fleet, s: Service, ids: set<nat>, on: bool): Fleet {
    map k | k in f :: if k.service == s && k.id in ids then f[k].(running := on) else f[k]
  }

  datatype Event =
    | Stop(service: Service)
    | Start(service: Service, id: nat)
    | PrivateSmoke
    | Remove(file: nat)
    | Reload

  datatype Item = Item(id: nat, info: Info)

  /** What a look at the four containers found: each service has exactly this one. */
  ghost predicate Shows(f: Fleet, items: map<Service, Item>) {
    forall s: Service :: s in items && Sole(f, s, items[s].id) && f[Key(s, items[s].id)] == items[s].info
  }

  /** The service has the recorded container with the recorded image, which the engine does not restart. */
  ghost predicate HasRecorded(f: Fleet, s: Service, r: Identity) {
    Sole(f, s, r.id) && f[Key(s, r.id)].image == r.image && f[Key(s, r.id)].restartNo
  }

  ghost predicate HasOne(f: Fleet, s: Service) { exists id :: Sole(f, s, id) }

  /** A look at the four containers works. */
  ghost predicate Shown(f: Fleet, c: Calls) { forall s: Service :: s in c.inspects && HasOne(f, s) }

  /** The traffic can be handed back: every override file is unlinked, the four containers are seen running,
      and the proxy takes its configuration. */
  ghost predicate CanReturn(f: Fleet, overrides: seq<nat>, c: Calls) {
    c.unlinks >= |overrides| && Shown(f, c) && AllUp(f) && c.valid && c.reloads
  }

  /** The first n files are removed, in their order. */
  function Removals(files: seq<nat>, n: nat): seq<Event>
    requires n <= |files|
  {
    seq(n, i requires 0 <= i < n => Remove(files[i]))
  }

  /** What was done since an earlier log. */
  function Since(older: seq<Event>, newer: seq<Event>): seq<Event>
    requires older <= newer
  {
    newer[|older|..]
  }

  /** What one recovery pass reads: the lock, the receiver's unit, the latch, the maintenance hold at its
      two readings, the restart override, the receipt, the images of the latch and those the policy has
      verified for a rollback, and the private smoke test. A reading that fails is None, or false. */
  datatype Readings = Readings(
    free: bool,
    active: Option<bool>,
    latch: Option<Mark>,
    hold: Option<bool>,
    holdAgain: Option<bool>,
    override: bool,
    receipt: Option<Receipt>,
    candidate: nat,
    policy: Option<set<nat>>,
    smoke: bool)

  /** How the calls of a pass end: how many override files are unlinked before one fails, the services that
      can be inspected, the test and the reload of the proxy's configuration, and the services whose start
      works. */
  datatype Calls = Calls(unlinks: nat, inspects: set<Service>, valid: bool, reloads: bool, starts: set<Service>)

  /** The images approved for the latched outcome. */
  function Choices(x: Readings): set<nat>
    requires x.latch.Some?
  {
    if x.policy.None? then {} else if x.latch.value.phase == Complete then {x.candidate} else x.policy.value
  }

  /** A receipt that authorizes starts: of the latched run and outcome, approved, for all four services. */
  predicate Authorizes(x: Readings) {
    && x.latch.Some? && Terminal(x.latch.value.phase)
    && x.receipt.Some? && x.receipt.value.mark == x.latch.value
    && x.receipt.value.approved in Choices(x)
    && forall s: Service :: s in x.receipt.value.public
  }

  /** The place of a service in the order of starting. */
  function Turn(s: Service): nat {
    match s
    case Yolo => 0
    case User => 1
    case Proxy => 2
    case Edge => 3
  }

  predicate InOrder(es: seq<Event>) {
    forall i, j :: 0 <= i < j < |es| && es[i].Start? && es[j].Start? ==> Turn(es[i].service) < Turn(es[j].service)
  }

  /** The events of a pass, in order, are justified at every point: a start needs an authorizing receipt
      and the recorded container, each service is started once and in its turn, and the edge only after
      the private smoke passed. */
  predicate Justified(es: seq<Event>, x: Readings) {
    && (forall e :: e in es && e.Start? ==> Authorizes(x) && e.id == x.receipt.value.public[e.service].id)
    && (forall i :: 0 <= i < |es| && es[i].Start? && es[i].service == Edge ==> x.smoke && PrivateSmoke in es[..i])
    && InOrder(es)
  }

  /** A pass may be killed anywhere: what holds of all its events holds of the first k. */
  lemma KilledPassIsJustified(es: seq<Event>, x: Readings, k: nat)
    requires Justified(es, x) && k <= |es|
    ensures Justified(es[..k], x)
  {
    forall i | 0 <= i < k && es[..k][i].Start? && es[..k][i].service == Edge
      ensures x.smoke && PrivateSmoke in es[..k][..i]
    {
      assert es[..k][..i] == es[..i];
    }
  }

  datatype Result = ReceiverActive | Returned | ClosedDown | Supervised | Retry

  /** The service runs, or its start works, and the edge has a healthy private stack to start behind. */
  predicate GetsUp(s: Service, item: Item, smoke: bool, c: Calls) {
    item.info.running || ((s == Edge ==> smoke) && s in c.starts)
  }

  /** What is done for one service in its turn. */
  function StartEvents(s: Service, item: Item, smoke: bool): seq<Event> {
    if item.info.running then []
    else if s != Edge then [Start(s, item.id)]
    else if smoke then [PrivateSmoke, Start(s, item.id)]
    else []
  }

  /** The pass gets to a decision. */
  predicate Decides(x: Readings) { x.free && x.active == Some(false) && x.latch.Some? && x.hold.Some? }

  /** A replacement is under way or has failed, and nobody holds the host. */
  ghost predicate HandsBack(x: Readings) {
    Decides(x) && (x.latch.value.phase == Rollover || x.latch.value.phase == RolloverFailedServing) && x.hold == Some(false)
  }

  ghost predicate HasSettled(x: Readings) { x.latch.Some? && (x.latch.value.phase == Complete || x.latch.value.phase == RolledBack) }

  /** A hold, or any other attempt that is not finished. */
  ghost predicate Closes(x: Readings) {
    Decides(x) && !HandsBack(x) && x.holdAgain.Some? && (x.holdAgain.value || !HasSettled(x))
  }

  /** A finished run, no hold, and a valid receipt of it. */
  ghost predicate Supervises(x: Readings) {
    Decides(x) && x.holdAgain == Some(false) && HasSettled(x) && x.override && Authorizes(x)
  }

  ghost predicate AllRecorded(f: Fleet, x: Readings)
    requires Authorizes(x)
  {
    forall s: Service :: HasRecorded(f, s, x.receipt.value.public[s])
  }

  ghost predicate AllGetUp(f: Fleet, x: Readings, c: Calls)
    requires Authorizes(x) && AllRecorded(f, x)
  {
    forall s: Service :: var id := x.receipt.value.public[s].id; GetsUp(s, Item(id, f[Key(s, id)]), x.smoke, c)
  }

  /** Every container is the recorded one, unchanged in image and restart policy. */
  predicate Recorded(x: Readings, items: map<Service, Item>) {
    && Authorizes(x)
    && forall s: Service :: s in items && items[s].info.restartNo &&
         x.receipt.value.public[s] == Identity(items[s].id, items[s].info.image)
  }

  lemma RecordedIsThere(f: Fleet, x: Readings, items: map<Service, Item>, c: Calls)
    requires Authorizes(x) && Shows(f, items)
    ensures Recorded(x, items) <==> AllRecorded(f, x)
    ensures Recorded(x, items) ==> (AllGetUp(f, x, c) <==> forall s: Service :: GetsUp(s, items[s], x.smoke, c))
  {
    forall s: Service
      ensures items[s].info.restartNo && x.receipt.value.public[s] == Identity(items[s].id, items[s].info.image) <==>
              HasRecorded(f, s, x.receipt.value.public[s])
    {
      assert Sole(f, s, items[s].id);
    }
    if Recorded(x, items) {
      forall s: Service
        ensures Item(x.receipt.value.public[s].id, f[Key(s, x.receipt.value.public[s].id)]) == items[s]
      {
      }
    }
  }

  class Machine {
    var fleet: Fleet
    var overrides: seq<nat>
    var loaded: seq<nat>
    var log: seq<Event>
    ghost var faults: seq<Service>

    /** docker ps -q for one service, or a failure. */
    method RunningIds(s: Service) returns (ids: Option<set<nat>>)
      modifies this`faults
      ensures if ids.Some? then faults == old(faults) else faults == old(faults) + [s]
      ensures ids.Some? ==> forall id :: id in ids.value <==> Up(fleet, s, id)
    {
      var answers: bool := *;
      if answers {
        ids := Some(set k | k in fleet && k.service == s && fleet[k].running :: k.id);
      } else {
        ids := None;
        faults := faults + [s];
      }
    }

    /** docker stop: a call that fails may have stopped some of them. */
    method DockerStop(s: Service, ids: set<nat>) returns (ok: bool)
      modifies this`fleet, this`log, this`faults
      ensures log == old(log) + [Stop(s)]
      ensures faults == if ok then old(faults) else old(faults) + [s]
      ensures exists hit :: hit <= ids && fleet == Switched(old(fleet), s, hit, false) && (ok ==> hit == ids)
    {
      ok := *;
      var hit := ids;
      if !ok {
        var some: bool := *;
        hit := if some then ids else {};
        faults := faults + [s];
      }
      fleet := Switched(fleet, s, hit, false);
      log := log + [Stop(s)];
    }

    /** Stops whatever runs of one service. */
    method StopOne(s: Service) returns (fine: bool)
      modifies this`fleet, this`log, this`faults
      ensures OnlyStops(old(fleet), fleet)
      ensures Others(old(fleet), fleet, {s})
      ensures fine ==> Down(fleet, s)
      ensures faults == if fine then old(faults) else old(faults) + [s]
      ensures log == old(log) || log == old(log) + [Stop(s)]
    {
      var ids := RunningIds(s);
      fine := ids.Some?;
      if ids.Some? && ids.value != {} {
        fine := DockerStop(s, ids.value);
      }
    }

    /** The first pass: tries every service even if another fails. */
    method StopEach(services: seq<Service>) returns (errors: seq<Service>, ghost es: seq<Event>)
      modifies this`fleet, this`log, this`faults
      ensures OnlyStops(old(fleet), fleet) && Others(old(fleet), fleet, set s | s in services)
      ensures faults == old(faults) + errors && ClosedBut(fleet, services, errors)
      ensures log == old(log) + es && forall e :: e in es ==> e.Stop? && e.service in services
    {
      errors, es := [], [];
      for i := 0 to |services|
        invariant OnlyStops(old(fleet), fleet) && Others(old(fleet), fleet, set s | s in services)
        invariant faults == old(faults) + errors && ClosedBut(fleet, services[..i], errors)
        invariant log == old(log) + es && forall e :: e in es ==> e.Stop? && e.service in services
      {
        ghost var before, past := fleet, log;
        var s := services[i];
        var fine := StopOne(s);
        StaysClosed(before, fleet, services[..i], errors, s, fine);
        assert services[..i + 1] == services[..i] + [s];
        es := es + log[|past|..];
        if !fine {
          errors := errors + [s];
        }
      }
      assert services[..|services|] == services;
    }

    /** The second pass: looks at every service again. */
    method StillUp(services: seq<Service>) returns (errors: seq<Service>)
      modifies this`faults
      ensures old(faults) <= faults
      ensures errors == [] ==> faults == old(faults)
      ensures (forall s :: s in services ==> Down(fleet, s)) && faults == old(faults) ==> errors == []
      ensures errors == [] ==> ClosedBut(fleet, services, [])
    {
      errors := [];
      for i := 0 to |services|
        invariant old(faults) <= faults
        invariant errors == [] ==> |faults| == |old(faults)|
        invariant (forall s :: s in services ==> Down(fleet, s)) && |faults| == |old(faults)| ==> errors == []
        invariant errors == [] ==> forall s :: s in services[..i] ==> Down(fleet, s)
      {
        ghost var before := faults;
        var ids := RunningIds(services[i]);
        assert |before| <= |faults|;
        if ids.None? || ids.value != {} {
          assert ids.Some? ==> !Down(fleet, services[i]) && services[i] in services;
          errors := errors + [services[i]];
        }
      }
    }

    /** Stops every listed service and then verifies all of them; it succeeds exactly when no call
        failed, and even then or not, a service whose own calls worked is stopped. */
    method StopPublicServices(services: seq<Service>) returns (ok: bool)
      modifies this`fleet, this`log, this`faults
      ensures OnlyStops(old(fleet), fleet)
      ensures Others(old(fleet), fleet, set s | s in services)
      ensures old(faults) <= faults && (ok <==> faults == old(faults))
      ensures ClosedBut(fleet, services, faults[|old(faults)|..])
      ensures old(log) <= log && forall e :: e in log[|old(log)|..] ==> e.Stop? && e.service in services
    {
      var errors;
      ghost var es;
      errors, es := StopEach(services);
      ghost var mid := faults;
      var more := StillUp(services);
      assert faults[|old(faults)|..] == errors + faults[|mid|..];
      ok := errors + more == [];
    }

    /** docker ps and inspect for one service; anything but exactly one container is refused. */
    method Inspect(s: Service, answers: bool) returns (item: Option<Item>)
      ensures item.Some? <==> answers && HasOne(fleet, s)
      ensures item.Some? ==> Sole(fleet, s, item.value.id) && fleet[Key(s, item.value.id)] == item.value.info
    {
      var ids := set k | k in fleet && k.service == s :: k.id;
      assert forall k :: k in fleet && k.service == s ==> k.id in ids;
      item := None;
      if answers && |ids| == 1 {
        var id :| id in ids;
        Single(ids, id);
        assert Sole(fleet, s, id);
        item := Some(Item(id, fleet[Key(s, id)]));
      } else if HasOne(fleet, s) {
        OneId(fleet, s, ids);
      }
    }

    method Containers(c: Calls) returns (items: Option<map<Service, Item>>)
      ensures items.Some? <==> Shown(fleet, c)
      ensures items.Some? ==> Shows(fleet, items.value)
    {
      var found: map<Service, Item> := map[];
      for i := 0 to |PUBLIC|
        invariant forall k :: 0 <= k < i ==>
                    PUBLIC[k] in found && PUBLIC[k] in c.inspects && Sole(fleet, PUBLIC[k], found[PUBLIC[k]].id) &&
                    fleet[Key(PUBLIC[k], found[PUBLIC[k]].id)] == found[PUBLIC[k]].info
      {
        var item := Inspect(PUBLIC[i], PUBLIC[i] in c.inspects);
        if item.None? {
          return None;
        }
        found := found[PUBLIC[i] := item.value];
      }
      assert PUBLIC[0] == Edge && PUBLIC[1] == Proxy && PUBLIC[2] == User && PUBLIC[3] == Yolo;
      forall s: Service
        ensures s in found && Sole(fleet, s, found[s].id) && fleet[Key(s, found[s].id)] == found[s].info
      {
        match s
        case Edge => case Proxy => case User => case Yolo =>
      }
      forall s: Service
        ensures s in c.inspects && HasOne(fleet, s)
      {
        match s
        case Edge => case Proxy => case User => case Yolo =>
      }
      items := Some(found);
    }

    /** Removes the override files and makes the proxy read its configuration again; starts and stops
        nothing. It succeeds exactly if every file is unlinked, all four services run and the proxy takes
        the canonical configuration. */
    method ReturnToCanonical(c: Calls) returns (removed: Option<seq<nat>>)
      modifies this`overrides, this`loaded, this`log
      ensures removed.Some? <==> CanReturn(fleet, old(overrides), c)
      ensures overrides == if c.unlinks < |old(overrides)| then old(overrides)[c.unlinks..] else []
      ensures removed.Some? ==> removed.value == old(overrides) && loaded == []
      ensures loaded == old(loaded) || loaded == []
      ensures var gone := Removals(old(overrides), if c.unlinks < |old(overrides)| then c.unlinks else |old(overrides)|);
              log == old(log) + if removed.Some? then gone + [Reload] else gone
    {
      var gone := [];
      while overrides != []
        invariant |gone| <= |old(overrides)| && |gone| <= c.unlinks && loaded == old(loaded)
        invariant gone == old(overrides)[..|gone|] && overrides == old(overrides)[|gone|..]
        invariant log == old(log) + Removals(old(overrides), |gone|)
        decreases |overrides|
      {
        if |gone| == c.unlinks {
          return None;
        }
        gone := gone + [overrides[0]];
        log := log + [Remove(overrides[0])];
        overrides := overrides[1..];
      }
      var items := Containers(c);
      if items.None? {
        return None;
      }
      if s: Service :| s in items.value && !items.value[s].info.running {
        NotUp(fleet, items.value, s);
        return None;
      }
      forall s: Service
        ensures OneUp(fleet, s)
      {
        assert Up(fleet, s, items.value[s].id);
      }
      if !c.valid {
        return None;
      }
      if !c.reloads {
        var taken: bool := *;
        if taken {
          loaded := overrides;
        }
        return None;
      }
      loaded := overrides;
      log := log + [Reload];
      removed := Some(gone);
    }

    /** docker start: a call that fails may have started it. */
    method DockerStart(s: Service, id: nat, works: bool)
      requires Key(s, id) in fleet
      modifies this`fleet, this`log
      ensures log == old(log) + [Start(s, id)]
      ensures exists hit :: hit <= {id} && fleet == Switched(old(fleet), s, hit, true) && (works ==> hit == {id})
    {
      var some: bool := *;
      var hit: set<nat> := if works || some then {id} else {};
      fleet := Switched(fleet, s, hit, true);
      log := log + [Start(s, id)];
    }

    /** Starts one recorded container unless it runs, the edge only behind a healthy private stack. */
    method StartItem(s: Service, item: Item, smoke: bool, c: Calls) returns (ok: bool)
      requires Sole(fleet, s, item.id) && fleet[Key(s, item.id)] == item.info
      modifies this`fleet, this`log
      ensures OnlyStarts(old(fleet), fleet) && Others(old(fleet), fleet, {s})
      ensures ok ==> Up(fleet, s, item.id)
      ensures ok <==> GetsUp(s, item, smoke, c)
      ensures log == old(log) + StartEvents(s, item, smoke)
    {
      if item.info.running {
        return true;
      }
      if s == Edge {
        if !smoke {
          return false;
        }
        log := log + [PrivateSmoke];
      }
      DockerStart(s, item.id, s in c.starts);
      ok := s in c.starts;
    }

    /** Starts the service whose turn it is, after those of the earlier turns. */
    method StartAlso(s: Service, items: map<Service, Item>, smoke: bool, c: Calls, ghost before: Fleet, ghost all: seq<Event>)
      returns (ok: bool)
      requires s != Edge && Shows(before, items) && Standing(before, fleet, Turn(s), items) && Begun(all, items, Turn(s))
      modifies this`fleet, this`log
      ensures OnlyStarts(before, fleet) && Others(before, fleet, Earlier(Turn(s) + 1))
      ensures ok <==> GetsUp(s, items[s], smoke, c)
      ensures ok ==> Standing(before, fleet, Turn(s) + 1, items)
      ensures log == old(log) + StartEvents(s, items[s], smoke)
      ensures Begun(all + StartEvents(s, items[s], smoke), items, Turn(s) + 1)
    {
      ghost var mid := fleet;
      StillShown(before, fleet, items, s);
      ok := StartItem(s, items[s], smoke, c);
      OneMore(before, mid, fleet, items, s, ok);
      NextInOrder(all, StartEvents(s, items[s], smoke), items, s);
    }

    method StartInner(items: map<Service, Item>, smoke: bool, c: Calls) returns (ok: bool, ghost all: seq<Event>)
      requires Shows(fleet, items)
      modifies this`fleet, this`log
      ensures OnlyStarts(old(fleet), fleet) && Others(old(fleet), fleet, Earlier(3))
      ensures ok <==> forall s: Service :: Turn(s) < 3 ==> GetsUp(s, items[s], smoke, c)
      ensures ok ==> Standing(old(fleet), fleet, 3, items)
      ensures log == old(log) + all && Begun(all, items, 3)
    {
      ghost var before := fleet;
      all := [];
      var order := [Yolo, User, Proxy];
      for i := 0 to |order|
        invariant Standing(before, fleet, i, items)
        invariant forall s: Service :: Turn(s) < i ==> GetsUp(s, items[s], smoke, c)
        invariant log == old(log) + all && Begun(all, items, i)
      {
        assert Turn(order[i]) == i;
        ok := StartAlso(order[i], items, smoke, c, before, all);
        all := all + StartEvents(order[i], items[order[i]], smoke);
        if !ok {
          Widen(before, fleet, all, items, i + 1);
          return;
        }
        assert forall s: Service :: Turn(s) == i ==> s == order[i];
      }
      ok := true;
    }

    /** The edge, behind a healthy private stack. */
    method StartEdge(items: map<Service, Item>, smoke: bool, c: Calls, ghost before: Fleet) returns (ok: bool)
      requires Shows(before, items) && Standing(before, fleet, 3, items)
      modifies this`fleet, this`log
      ensures OnlyStarts(before, fleet) && (ok ==> AllUp(fleet))
      ensures ok <==> GetsUp(Edge, items[Edge], smoke, c)
      ensures log == old(log) + StartEvents(Edge, items[Edge], smoke)
    {
      ghost var mid := fleet;
      StillShown(before, fleet, items, Edge);
      ok := StartItem(Edge, items[Edge], smoke, c);
      ThenEdge(before, mid, fleet, items, ok);
    }

    method StartAll(items: map<Service, Item>, smoke: bool, c: Calls) returns (ok: bool, ghost all: seq<Event>, ghost es: seq<Event>)
      requires Shows(fleet, items)
      modifies this`fleet, this`log
      ensures OnlyStarts(old(fleet), fleet) && (ok ==> AllUp(fleet))
      ensures ok <==> forall s: Service :: GetsUp(s, items[s], smoke, c)
      ensures log == old(log) + (all + es) && Begun(all, items, 3) && (es == [] || es == StartEvents(Edge, items[Edge], smoke))
    {
      ghost var before := fleet;
      es := [];
      ok, all := StartInner(items, smoke, c);
      ghost var mid := log;
      if ok {
        EdgeIsLast(items, smoke, c);
        es := StartEvents(Edge, items[Edge], smoke);
        ok := StartEdge(items, smoke, c, before);
        assert mid == old(log) + all && log == old(log) + (all + es);
      }
    }

    /** The recorded containers that do not run are started, the edge last; it succeeds exactly if each one
        runs or gets up. */
    method StartRecorded(x: Readings, items: map<Service, Item>, c: Calls) returns (ok: bool)
      requires Authorizes(x) && Shows(fleet, items)
      requires forall s: Service :: s in items && items[s].id == x.receipt.value.public[s].id
      modifies this`fleet, this`log
      ensures OnlyStarts(old(fleet), fleet)
      ensures old(log) <= log && Justified(Since(old(log), log), x)
      ensures forall e :: e in Since(old(log), log) && e.Start? ==> !items[e.service].info.running
      ensures ok <==> forall s: Service :: GetsUp(s, items[s], x.smoke, c)
      ensures ok ==> AllUp(fleet)
    {
      ghost var all, es;
      ok, all, es := StartAll(items, x.smoke, c);
      InnerThen(all, es, items, x);
      assert Since(old(log), log) == all + es;
    }

    method ClosePublic() returns (r: Result)
      modifies this`fleet, this`log, this`faults
      ensures OnlyStops(old(fleet), fleet) && old(faults) <= faults
      ensures r == if faults == old(faults) then ClosedDown else Retry
      ensures r == ClosedDown ==> forall s: Service :: Down(fleet, s)
      ensures old(log) <= log && forall e :: e in Since(old(log), log) ==> e.Stop?
    {
      var stopped := StopPublicServices(PUBLIC);
      forall s: Service
        ensures stopped ==> Down(fleet, s)
      {
        PublicIsAll(s);
      }
      r := if stopped then ClosedDown else Retry;
    }

    /** One recovery pass. The latch and the receipt are only read. Its result is what the readings and the
        calls say, and a close that is due succeeds exactly if no call of it failed. */
    method RecoverOnce(x: Readings, c: Calls) returns (r: Result)
      modifies this
      ensures old(log) <= log && old(faults) <= faults
      ensures r == ReceiverActive <==> x.free && x.active == Some(true)
      ensures r == Returned <==> HandsBack(x) && CanReturn(old(fleet), old(overrides), c)
      ensures r == ClosedDown <==>
              faults == old(faults) && (Closes(x) || (HandsBack(x) && !CanReturn(old(fleet), old(overrides), c)))
      ensures r == Supervised <==> Supervises(x) && Shown(old(fleet), c) && AllRecorded(old(fleet), x) && AllGetUp(old(fleet), x, c)
      // closed, or handed back, or supervised
      ensures r == ClosedDown ==> forall s: Service :: Down(fleet, s)
      ensures r == Returned ==> overrides == loaded == [] && AllUp(fleet) && fleet == old(fleet)
      ensures r == Supervised ==> AllUp(fleet) && AllRecorded(fleet, x)
      ensures !HandsBack(x) ==> overrides == old(overrides) && loaded == old(loaded)
      // a run that is not terminal never gets a container started, a terminal one without a hold never one stopped
      ensures !HasSettled(x) ==> OnlyStops(old(fleet), fleet)
      ensures HasSettled(x) && x.holdAgain == Some(false) ==> OnlyStarts(old(fleet), fleet)
      ensures Justified(Since(old(log), log), x)
      ensures forall e :: e in Since(old(log), log) && e.Start? ==> !Up(old(fleet), e.service, e.id)
      ensures !(x.free && x.active == Some(false)) ==>
                fleet == old(fleet) && log == old(log) && overrides == old(overrides) && (r == Retry || r == ReceiverActive)
    {
      if !x.free || x.active.None? {
        return Retry;
      }
      if x.active.value {
        return ReceiverActive;
      }
      if x.latch.None? || x.hold.None? {
        return Retry;
      }
      var phase := x.latch.value.phase;
      if !x.hold.value && Serving(phase) {
        r := HandBack(x, c);
        return;
      }
      if x.holdAgain.None? {
        return Retry;
      }
      if x.holdAgain.value || !Terminal(phase) {
        r := ClosePublic();
        NoStart(Since(old(log), log), x);
        return;
      }
      r := Supervise(x, c);
    }

    /** Traffic back to the canonical containers, or everything closed. */
    method HandBack(x: Readings, c: Calls) returns (r: Result)
      modifies this
      ensures old(log) <= log && old(faults) <= faults && Justified(Since(old(log), log), x)
      ensures forall e :: e in Since(old(log), log) ==> !e.Start?
      ensures OnlyStops(old(fleet), fleet)
      ensures r == if CanReturn(old(fleet), old(overrides), c) then Returned
                   else if faults == old(faults) then ClosedDown else Retry
      ensures r == Returned ==> overrides == loaded == [] && AllUp(fleet) && fleet == old(fleet)
      ensures r == ClosedDown ==> forall s: Service :: Down(fleet, s)
    {
      var removed := ReturnToCanonical(c);
      if removed.Some? {
        NoStart(Since(old(log), log), x);
        return Returned;
      }
      ghost var mid := log;
      r := ClosePublic();
      assert Since(old(log), log) == Since(old(log), mid) + Since(mid, log);
      NoStart(Since(old(log), log), x);
    }

    /** Over a terminal latch without a hold: what is recorded and does not run is started. */
    method Supervise(x: Readings, c: Calls) returns (r: Result)
      requires x.latch.Some? && Terminal(x.latch.value.phase)
      modifies this`fleet, this`log
      ensures old(log) <= log && Justified(Since(old(log), log), x) && OnlyStarts(old(fleet), fleet)
      ensures forall e :: e in Since(old(log), log) && e.Start? ==> !Up(old(fleet), e.service, e.id)
      ensures r == Supervised || r == Retry
      ensures r == Supervised <==> x.override && Authorizes(x) && Shown(old(fleet), c) && AllRecorded(old(fleet), x) && AllGetUp(old(fleet), x, c)
      ensures r == Supervised ==> AllUp(fleet) && AllRecorded(fleet, x)
    {
      if !x.override || !Authorizes(x) {
        NoStart(Since(log, log), x);
        return Retry;
      }
      var items := Containers(c);
      if items.Some? {
        RecordedIsThere(fleet, x, items.value, c);
      }
      if items.None? || !Recorded(x, items.value) {
        NoStart(Since(log, log), x);
        return Retry;
      }
      var started := StartRecorded(x, items.value, c);
      return if started then Supervised else Retry;
    }
  }

  lemma EachOneUp(f: Fleet, g: Fleet, items: map<Service, Item>)
    requires Shows(f, items) && SameFleet(f, g) && forall s: Service :: Up(g, s, items[s].id)
    ensures AllUp(g)
  {
    forall s: Service
      ensures OneUp(g, s)
    {
      assert Sole(g, s, items[s].id) && Up(g, s, items[s].id);
    }
  }

  lemma PublicIsAll(s: Service)
    ensures s in PUBLIC
  {
    assert PUBLIC[0] == Edge && PUBLIC[1] == Proxy && PUBLIC[2] == User && PUBLIC[3] == Yolo;
    match s
    case Edge => case Proxy => case User => case Yolo =>
  }

  lemma NoStart(es: seq<Event>, x: Readings)
    requires forall e :: e in es ==> !e.Start?
    ensures Justified(es, x)
  {
    forall i | 0 <= i < |es|
      ensures !es[i].Start?
    {
      assert es[i] in es;
    }
  }

  /** A start of a recorded container other than the edge. */
  predicate Inner(e: Event, items: map<Service, Item>) {
    e.Start? && e.service != Edge && e.service in items && e.id == items[e.service].id && !items[e.service].info.running
  }

  /** The services of the first n turns run, and nothing else was touched. */
  ghost predicate Standing(before: Fleet, now: Fleet, n: nat, items: map<Service, Item>) {
    && OnlyStarts(before, now) && Others(before, now, Earlier(n))
    && forall s: Service :: Turn(s) < n ==> s in items && Up(now, s, items[s].id)
  }

  lemma StillShown(before: Fleet, now: Fleet, items: map<Service, Item>, s: Service)
    requires Shows(before, items) && Others(before, now, Earlier(Turn(s)))
    ensures s in items && Sole(now, s, items[s].id) && now[Key(s, items[s].id)] == items[s].info
  {
  }

  lemma OneMore(before: Fleet, mid: Fleet, now: Fleet, items: map<Service, Item>, s: Service, ok: bool)
    requires s in items && Standing(before, mid, Turn(s), items) && OnlyStarts(mid, now) && Others(mid, now, {s})
    requires ok ==> Up(now, s, items[s].id)
    ensures OnlyStarts(before, now) && Others(before, now, Earlier(Turn(s) + 1))
    ensures ok ==> Standing(before, now, Turn(s) + 1, items)
  {
    forall t: Service | Turn(t) < Turn(s)
      ensures Up(now, t, items[t].id)
    {
      assert Up(mid, t, items[t].id);
    }
  }

  /** The services whose turn comes before n. */
  ghost function Earlier(n: nat): set<Service> { set s: Service | Turn(s) < n }

  /** Starts of recorded containers that did not run, in turn, of services whose turn comes before n. */
  predicate Begun(all: seq<Event>, items: map<Service, Item>, n: nat) {
    InOrder(all) && forall e :: e in all ==> Inner(e, items) && Turn(e.service) < n
  }

  lemma Widen(f: Fleet, g: Fleet, all: seq<Event>, items: map<Service, Item>, n: nat)
    requires n <= 3 && Others(f, g, Earlier(n)) && Begun(all, items, n)
    ensures Others(f, g, Earlier(3)) && Begun(all, items, 3)
  {
  }

  lemma NextInOrder(all: seq<Event>, es: seq<Event>, items: map<Service, Item>, s: Service)
    requires Begun(all, items, Turn(s)) && s != Edge && s in items
    requires es == [] || (es == [Start(s, items[s].id)] && !items[s].info.running)
    ensures Begun(all + es, items, Turn(s) + 1)
  {
    forall i | 0 <= i < |all|
      ensures Inner(all[i], items) && Turn(all[i].service) < Turn(s)
    {
      assert all[i] in all;
    }
  }

  lemma InnerThen(all: seq<Event>, es: seq<Event>, items: map<Service, Item>, x: Readings)
    requires Authorizes(x) && forall s: Service :: s in items && items[s].id == x.receipt.value.public[s].id
    requires Begun(all, items, 3) && (es == [] || es == StartEvents(Edge, items[Edge], x.smoke))
    ensures Justified(all + es, x) && forall e :: e in all + es && e.Start? ==> !items[e.service].info.running
  {
    forall i | 0 <= i < |all|
      ensures Inner((all + es)[i], items)
    {
      assert all[i] in all;
    }
    if |es| == 2 {
      assert (all + es)[..|all| + 1][|all|] == PrivateSmoke;
    }
  }

  lemma ThenEdge(f: Fleet, mid: Fleet, g: Fleet, items: map<Service, Item>, ok: bool)
    requires Shows(f, items) && OnlyStarts(f, mid) && OnlyStarts(mid, g)
    requires Standing(f, mid, 3, items)
    requires ok ==> Up(g, Edge, items[Edge].id)
    ensures OnlyStarts(f, g) && (ok ==> AllUp(g))
  {
    if ok {
      EachOneUp(f, g, items);
    }
  }

  lemma StaysClosed(f: Fleet, g: Fleet, done: seq<Service>, errors: seq<Service>, s: Service, fine: bool)
    requires OnlyStops(f, g) && ClosedBut(f, done, errors) && (fine ==> Down(g, s))
    ensures ClosedBut(g, done + [s], if fine then errors else errors + [s])
  {
    forall t | t in done && t !in errors
      ensures Down(g, t)
    {
      assert Down(f, t);
      forall id
        ensures !Up(g, t, id)
      {
        assert !Up(f, t, id);
      }
    }
  }

  // ----- together with the latch -----

  /** The pass reads the latch and the receipt as a run of the cutover left them. */
  predicate ReadsFrom(x: Readings, s: State) {
    x.latch == s.latch && (x.receipt.Some? ==> s.receipt == x.receipt)
  }

  /** The step that wrote the receipt was taken for the latched run, by its receiver or by an enrolment. */
  predicate WrittenForLatch(s: State, a: Action, latch: Mark) {
    if a.Enroll? then s.latch == Some(latch)
    else s.receiver.Some? && s.receiver.value.run == latch.run && s.receiver.value.sha == latch.sha
  }

  /** In every run of deployments with kills, whatever a recovery pass starts was recorded by the latched
      run: the container is the one that the last step to write a receipt wrote down, taken for that very
      run, unless no receipt was written since enrolment, and then the one of the enrolment. */
  lemma StartsOnlyWhatTheRunRecorded(ss: seq<State>, acts: seq<Action>, i: nat, x: Readings, es: seq<Event>, e: Event)
      returns (k: nat)
    requires Behaves(ss, acts) && Enrolled(ss[0]) && i < |ss| && ReadsFrom(x, ss[i])
    requires Justified(es, x) && e in es && e.Start?
    ensures Matches(ss[i]) && (ss[i].latch.value.phase == Complete || ss[i].latch.value.phase == RolledBack)
    ensures RecordedAt(ss, acts, k, i) || (ss[i].receipt == ss[0].receipt && forall m :: 0 <= m < i ==> !Records(acts[m]))
    ensures RecordedAt(ss, acts, k, i) ==> WrittenForLatch(ss[k], acts[k], ss[i].latch.value)
    ensures RecordedAt(ss, acts, k, i) ==> e.service in acts[k].public && acts[k].public[e.service].id == e.id
    ensures ss[i].receipt.Some? && x.policy.Some? &&
            if ss[i].latch.value.phase == Complete then ss[i].receipt.value.approved == x.candidate
            else ss[i].receipt.value.approved in x.policy.value
    ensures !RecordedAt(ss, acts, k, i) ==> e.service in ss[0].receipt.value.public && ss[0].receipt.value.public[e.service].id == e.id
  {
    assert Authorizes(x);
    TerminalLatchHasItsReceipt(ss, acts, i);
    k := ReceiptHasAWriter(ss, acts, i);
    if RecordedAt(ss, acts, k, i) {
      assert Step(ss[k], acts[k], ss[k + 1]);
    }
  }

  lemma EdgeIsLast(items: map<Service, Item>, smoke: bool, c: Calls)
    requires forall s: Service :: s in items
    requires forall s: Service :: Turn(s) < 3 ==> GetsUp(s, items[s], smoke, c)
    ensures GetsUp(Edge, items[Edge], smoke, c) <==> forall s: Service :: GetsUp(s, items[s], smoke, c)
  {
    assert forall s: Service :: Turn(s) < 3 || s == Edge;
  }

  lemma NotUp(f: Fleet, items: map<Service, Item>, s: Service)
    requires Shows(f, items) && !items[s].info.running
    ensures !OneUp(f, s) && !AllUp(f)
  {
    forall id | Sole(f, s, id)
      ensures !Up(f, s, id)
    {
      assert Key(s, id) in f;
    }
  }

  lemma OneId(f: Fleet, s: Service, ids: set<nat>)
    requires HasOne(f, s) && ids == set k | k in f && k.service == s :: k.id
    ensures |ids| == 1
  {
    var id: nat :| Sole(f, s, id);
    assert Key(s, id) in f && id in ids;
    assert ids == {id};
  }

  lemma Single(ids: set<nat>, id: nat)
    requires |ids| == 1 && id in ids
    ensures ids == {id}
  {
    assert |ids - {id}| == 0;
    assert ids == (ids - {id}) + {id};
  }
}
