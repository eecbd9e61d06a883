/**
 What every reachable state satisfies, whatever the kernel answers, whichever order the maps are
 iterated in, and at whichever `?` a reload gives up.
 */
module Invariants {
  import opened Types
  import opened Histories
  import opened Steps

  /** `pids_map` is exactly the inverse of the services' `pid()`. */
  ghost predicate Synced(w: World) {
    && (forall id | id in w.services && w.services[id].Pid().Some? ::
          w.services[id].Pid().value in w.pids && w.pids[w.services[id].Pid().value] == id)
    && (forall p | p in w.pids ::
          w.pids[p] in w.services && w.services[w.pids[p]].Pid() == Some(p))
  }

  /** The state of one service is what the history says about its process. */
  ghost predicate Recorded(h: History, id: nat, s: Service) {
    && (s.state == Stopped(NeverStarted) <==> Forks(h, id) == 0)
    && match s.state
       case Stopped(reason) => reason == NeverStarted || LatestEnd(h, id) == Some(reason)
       case Running(p) => StopOf(h, p).None?
       case Stopping(p, deadline) =>
         StopOf(h, p).Some? && StopOf(h, p).value.StopSent? && StopOf(h, p).value.deadline == deadline
  }

  /** Ids come from the generator and are never issued twice; names are unique. */
  ghost predicate Identified(w: World) {
    && w.nextId <= U64_MAX
    && (forall id | id in w.services :: w.services[id].id == id && id < w.nextId)
    && (forall i, j | i in w.services && j in w.services && i != j :: w.services[i].name != w.services[j].name)
    && (forall id | id >= w.nextId :: Forks(w.history, id) == 0)
  }

  /** `pids_map` holds exactly the children forked and not yet reaped, and the history is in order. */
  ghost predicate Tracked(w: World) {
    && w.pids == Alive(w.history)
    && Disciplined(w.history)
    && LatestTime(w.history) <= w.clock
  }

  ghost predicate AllRecorded(w: World) {
    forall id | id in w.services :: Recorded(w.history, id, w.services[id])
  }

  /** The environment to exec with is always the one of the current configuration. */
  ghost predicate EnvironmentsAgree(w: World) {
    forall id | id in w.services :: w.services[id].envp == w.services[id].config.env
  }

  ghost predicate Inv(w: World) {
    && Synced(w)
    && Identified(w)
    && Tracked(w)
    && AllRecorded(w)
    && EnvironmentsAgree(w)
  }

  /** A service record that may take the place of number `id`. */
  ghost predicate Fits(w: World, id: nat, s: Service) {
    && s.id == id < w.nextId
    && s.envp == s.config.env
    && (forall j | j in w.services && j != id :: w.services[j].name != s.name)
  }

  /** After a call answered by `a`, every pid but the one just handed out is as fresh as before. */
  ghost predicate KeepsFresh(w: World, w': World, a: Answer) {
    forall p | FreshPid(w, p) && !(a.ok && p == a.pid) :: FreshPid(w', p)
  }

  /** No child appeared, ended or was reaped. */
  ghost predicate SameChildren(w: World, w': World) {
    Alive(w'.history) == Alive(w.history) && w'.waitable == w.waitable
  }

  // ---------------------------------------------------------------- the primitive updates

  lemma LaunchSynced(w: World, id: nat, s: Service, a: Answer)
    requires Synced(w) && a.ok && a.pid !in w.pids
    requires id in w.services ==> w.services[id].IsStopped()
    ensures Synced(Launch(w, id, s, a).world)
  {
  }

  /** A service that is not the one acted on keeps its record when `e` happens to another process. */
  lemma OthersRecorded(w: World, e: Effect, j: nat)
    requires Inv(w) && j in w.services && j != e.id
    requires e.pid in w.pids ==> w.pids[e.pid] == e.id
    ensures Recorded(Then(w.history, e), j, w.services[j])
  {
    AfterEffect(w.history, e);
    assert Recorded(w.history, j, w.services[j]);
  }

  lemma LaunchTracked(w: World, id: nat, s: Service, a: Answer)
    requires Synced(w) && Tracked(w) && a.ok && FreshPid(w, a.pid)
    requires (id in w.services ==> w.services[id].IsStopped()) && s.envp == s.config.env
    ensures Tracked(Launch(w, id, s, a).world)
  {
    AfterEffect(w.history, Launch(w, id, s, a).world.history.last);
  }

  lemma LaunchRecorded(w: World, id: nat, s: Service, a: Answer)
    requires Inv(w) && a.ok && FreshPid(w, a.pid)
    ensures AllRecorded(Launch(w, id, s, a).world)
  {
    var w' := Launch(w, id, s, a).world;
    var e := w'.history.last;
    AfterEffect(w.history, e);
    forall j | j in w'.services ensures Recorded(w'.history, j, w'.services[j]) {
      if j != id {
        OthersRecorded(w, e, j);
      }
    }
  }

  lemma LaunchIdentified(w: World, id: nat, s: Service, a: Answer)
    requires Identified(w) && EnvironmentsAgree(w) && Fits(w, id, s) && a.ok
    ensures Identified(Launch(w, id, s, a).world) && EnvironmentsAgree(Launch(w, id, s, a).world)
  {
    AfterEffect(w.history, Launch(w, id, s, a).world.history.last);
  }

  lemma ClockInv(w: World, now: nat)
    requires Inv(w) && w.clock <= now
    ensures Inv(w.(clock := now))
  {
    var w' := w.(clock := now);
    assert Synced(w') && AllRecorded(w');
  }

  lemma LaunchInv(w: World, id: nat, s: Service, a: Answer)
    requires Inv(w) && Fits(w, id, s)
    requires id in w.services ==> w.services[id].IsStopped()
    requires a.ok ==> FreshPid(w, a.pid)
    ensures Inv(Launch(w, id, s, a).world)
    ensures KeepsFresh(w, Launch(w, id, s, a).world, a)
  {
    if a.ok {
      LaunchSynced(w, id, s, a);
      LaunchTracked(w, id, s, a);
      LaunchRecorded(w, id, s, a);
      LaunchIdentified(w, id, s, a);
    } else {
      ClockInv(w, w.clock + a.elapsed);
    }
  }

  lemma PutSynced(w: World, id: nat, s: Service)
    requires Synced(w) && id in w.services && s.state == w.services[id].state
    ensures Synced(Put(w, id, s))
  {
  }

  lemma PutRecorded(w: World, id: nat, s: Service)
    requires AllRecorded(w) && id in w.services && s.state == w.services[id].state
    ensures AllRecorded(Put(w, id, s))
  {
  }

  lemma PutInv(w: World, id: nat, s: Service)
    requires Inv(w) && Fits(w, id, s)
    requires id in w.services && s.state == w.services[id].state
    ensures Inv(Put(w, id, s))
  {
    PutSynced(w, id, s);
    PutRecorded(w, id, s);
  }

  lemma InsertInv(w: World, id: nat, s: Service)
    requires Inv(w) && Fits(w, id, s)
    requires id !in w.services && Forks(w.history, id) == 0
    requires s.state == Stopped(NeverStarted)
    ensures Inv(Put(w, id, s))
  {
  }

  /** `nextval` may be spent without a service to show for it. */
  lemma BumpInv(w: World)
    requires Inv(w) && w.nextId < U64_MAX
    ensures Inv(w.(nextId := w.nextId + 1))
  {
  }

  lemma DropInv(w: World, id: nat)
    requires Inv(w) && id in w.services && w.services[id].IsStopped()
    ensures Inv(Drop(w, id))
  {
  }

  lemma HaltInv(w: World, id: nat, s: Service, a: Answer)
    requires Inv(w) && Fits(w, id, s)
    requires id in w.services && s.state == w.services[id].state
    ensures Inv(Halt(w, id, s, a).world)
    ensures SameChildren(w, Halt(w, id, s, a).world)
  {
    PutInv(w, id, s);
    if s.state.Running? && a.ok {
      SignalInv(w, id, s, a);
    }
  }

  lemma SignalRecorded(w: World, id: nat, s: Service, a: Answer)
    requires Inv(w) && id in w.services && s.state == w.services[id].state && s.state.Running? && a.ok
    ensures Tracked(Halt(w, id, s, a).world) && AllRecorded(Halt(w, id, s, a).world)
    ensures Alive(Halt(w, id, s, a).world.history) == Alive(w.history)
  {
    var w' := Halt(w, id, s, a).world;
    var e := w'.history.last;
    AfterEffect(w.history, e);
    assert Recorded(w.history, id, w.services[id]);
    forall j | j in w'.services ensures Recorded(w'.history, j, w'.services[j]) {
      if j != id {
        OthersRecorded(w, e, j);
      }
    }
  }

  lemma SignalSynced(w: World, id: nat, s: Service, a: Answer)
    requires Inv(w) && id in w.services && s.state == w.services[id].state && s.state.Running? && a.ok
    ensures Synced(Halt(w, id, s, a).world)
  {
  }

  lemma SignalInv(w: World, id: nat, s: Service, a: Answer)
    requires Inv(w) && Fits(w, id, s)
    requires id in w.services && s.state == w.services[id].state
    requires s.state.Running? && a.ok
    ensures Inv(Halt(w, id, s, a).world)
    ensures Alive(Halt(w, id, s, a).world.history) == Alive(w.history)
  {
    AfterEffect(w.history, Halt(w, id, s, a).world.history.last);
    SignalSynced(w, id, s, a);
    SignalRecorded(w, id, s, a);
  }

  /** The timer's SIGKILL is allowed once the deadline has passed. */
  lemma KillInv(w: World, id: nat, a: Answer)
    requires Inv(w) && id in w.services && w.services[id].state.Stopping?
    requires w.clock >= w.services[id].state.deadline
    ensures Inv(TickOne(w, w.services[id].state.deadline, id, a))
    ensures Alive(TickOne(w, w.services[id].state.deadline, id, a).history) == Alive(w.history)
  {
    var e := KillSent(id, w.services[id].state.pid, a.ok, w.clock);
    AfterEffect(w.history, e);
    assert Recorded(w.history, id, w.services[id]);
    assert Tracked(TickOne(w, w.services[id].state.deadline, id, a));
  }

  /** The supervisor's half of a reap, and the record of the service reaped. */
  lemma ReapSynced(w: World, pid: nat)
    requires Inv(w) && pid in w.waitable && w.waitable[pid].Ended? && pid in w.pids
    ensures Synced(ReapOne(w, pid)) && Tracked(ReapOne(w, pid))
  {
    AfterEffect(w.history, ReapOne(w, pid).history.last);
  }

  lemma ReapRecorded(w: World, pid: nat)
    requires Inv(w) && pid in w.waitable && w.waitable[pid].Ended? && pid in w.pids
    ensures AllRecorded(ReapOne(w, pid)) && Identified(ReapOne(w, pid))
  {
    var w' := ReapOne(w, pid);
    var id := w.pids[pid];
    AfterEffect(w.history, w'.history.last);
    ForksMinusReaps(w.history, id);
    assert id in Alive(w.history).Values;
    forall j | j in w'.services ensures Recorded(w'.history, j, w'.services[j]) {
      if j != id {
        OthersRecorded(w, w'.history.last, j);
      }
    }
  }

  lemma ReapOneInv(w: World, pid: nat)
    requires Inv(w)
    ensures Inv(ReapOne(w, pid))
  {
    if pid in w.waitable && w.waitable[pid].Ended? && pid in w.pids {
      ReapSynced(w, pid);
      ReapRecorded(w, pid);
    }
  }

  // ---------------------------------------------------------------- the loops

  lemma StartOneInv(w: World, id: nat, a: Answer)
    requires Inv(w) && (a.ok ==> FreshPid(w, a.pid))
    requires id in w.services ==> w.services[id].IsStopped()
    ensures Inv(StartOne(w, id, a)) && KeepsFresh(w, StartOne(w, id, a), a)
  {
    if id in w.services {
      LaunchInv(w, id, w.services[id], a);
    }
  }

  lemma TickOneInv(w: World, now: nat, id: nat, a: Answer)
    requires Inv(w) && (a.ok ==> FreshPid(w, a.pid)) && now <= w.clock
    ensures Inv(TickOne(w, now, id, a)) && KeepsFresh(w, TickOne(w, now, id, a), a)
    ensures w.clock <= TickOne(w, now, id, a).clock
  {
    if id in w.services {
      var s := w.services[id];
      match s.state
      case Running(_) =>
      case Stopping(p, deadline) =>
        if now >= deadline {
          KillInv(w, id, a);
        }
      case Stopped(_) =>
        var s1 := s.(pending := NoAction);
        PutInv(w, id, s1);
        match DueAction(s) {
          case NoAction =>
          case Remove => DropInv(w, id);
          case Restart => LaunchInv(Put(w, id, s1), id, s1, a);
        }
    }
  }

  /** Answers nobody has used yet still carry pids the kernel may hand out. */
  ghost predicate UnusedFresh<K>(w: World, answers: map<K, Answer>, used: seq<K>) {
    forall k | k in answers && answers[k].ok && k !in used :: FreshPid(w, answers[k].pid)
  }

  lemma UseAnswer<K>(w0: World, w: World, w': World, answers: map<K, Answer>, used: seq<K>)
    requires Admissible(w0, answers) && used != [] && NoDuplicates(used)
    requires UnusedFresh(w, answers, used[..|used| - 1])
    requires KeepsFresh(w, w', Ask(answers, used[|used| - 1]))
    ensures UnusedFresh(w', answers, used)
  {
    SplitLast(used);
  }

  lemma {:induction false} StartAllInv(w: World, order: seq<nat>, answers: map<nat, Answer>)
    requires Inv(w) && Admissible(w, answers) && NoDuplicates(order)
    requires forall id | id in order && id in w.services :: w.services[id].IsStopped()
    ensures Inv(StartAll(w, order, answers)) && UnusedFresh(StartAll(w, order, answers), answers, order)
    ensures forall id | id !in order && id in StartAll(w, order, answers).services ::
              id in w.services && StartAll(w, order, answers).services[id] == w.services[id]
  {
    if order != [] {
      var last := |order| - 1;
      SplitLast(order);
      StartAllInv(w, order[..last], answers);
      var w1 := StartAll(w, order[..last], answers);
      StartOneInv(w1, order[last], Ask(answers, order[last]));
      UseAnswer(w, w1, StartAll(w, order, answers), answers, order);
    }
  }

  lemma {:induction false} TickAllInv(w: World, now: nat, order: seq<nat>, answers: map<nat, Answer>)
    requires Inv(w) && Admissible(w, answers) && NoDuplicates(order) && now <= w.clock
    ensures Inv(TickAll(w, now, order, answers)) && UnusedFresh(TickAll(w, now, order, answers), answers, order)
    ensures now <= TickAll(w, now, order, answers).clock
  {
    if order != [] {
      var last := |order| - 1;
      SplitLast(order);
      TickAllInv(w, now, order[..last], answers);
      var w1 := TickAll(w, now, order[..last], answers);
      TickOneInv(w1, now, order[last], Ask(answers, order[last]));
      UseAnswer(w, w1, TickAll(w, now, order, answers), answers, order);
    }
  }

  lemma {:induction false} StopAllInv(w: World, order: seq<nat>, answers: map<nat, Answer>)
    requires Inv(w)
    ensures Inv(StopAll(w, order, answers))
  {
    if order != [] {
      var last := |order| - 1;
      StopAllInv(w, order[..last], answers);
      var w1 := StopAll(w, order[..last], answers);
      if order[last] in w1.services {
        HaltInv(w1, order[last], w1.services[order[last]], Ask(answers, order[last]));
      }
    }
  }

  lemma {:induction false} ReapAllInv(w: World, order: seq<nat>)
    requires Inv(w)
    ensures Inv(ReapAll(w, order))
  {
    if order != [] {
      ReapAllInv(w, order[..|order| - 1]);
      ReapOneInv(ReapAll(w, order[..|order| - 1]), order[|order| - 1]);
    }
  }

  lemma ControlInv(w: World, id: nat, op: ControlOp, a: Answer)
    requires Inv(w) && (a.ok ==> FreshPid(w, a.pid))
    ensures Inv(Control(w, id, op, a).world)
  {
    if id in w.services {
      var s := w.services[id];
      if s.state.Stopped? {
        LaunchInv(w, id, s, a);
      } else {
        HaltInv(w, id, s, a);
        HaltInv(w, id, s.(pending := Restart), a);
      }
    }
  }

  // ---------------------------------------------------------------- startup

  ghost predicate NameTaken(services: map<nat, Service>, name: string) {
    exists id :: id in services && services[id].name == name
  }

  lemma {:induction false} InsertAllInv(w: World, config: map<string, ServiceConfig>, order: seq<string>)
    requires Inv(w) && NoDuplicates(order) && (forall n | n in order :: n in config)
    requires w.history.Origin? && forall n | n in order :: !NameTaken(w.services, n)
    requires AllStopped(w.services)
    ensures var o := InsertAll(w, config, order);
      && Inv(o.world) && o.world.history.Origin? && AllStopped(o.world.services)
      && (forall n :: NameTaken(o.world.services, n) ==> NameTaken(w.services, n) || n in order)
  {
    if order != [] {
      var last := |order| - 1;
      SplitLast(order);
      InsertAllInv(w, config, order[..last]);
      var o := InsertAll(w, config, order[..last]);
      if o.ok {
        InsertOneInv(o.world, order[last], config[order[last]]);
      }
    }
  }

  lemma InsertOneInv(w: World, name: string, c: ServiceConfig)
    requires Inv(w) && w.history.Origin? && AllStopped(w.services) && !NameTaken(w.services, name)
    ensures var o := InsertOne(w, name, c);
      && Inv(o.world) && o.world.history.Origin? && AllStopped(o.world.services)
      && (forall n :: NameTaken(o.world.services, n) ==> NameTaken(w.services, n) || n == name)
  {
    if w.nextId < U64_MAX {
      var w1 := w.(nextId := w.nextId + 1);
      BumpInv(w);
      if Buildable(c) {
        NewServiceFits(w, name, c);
        InsertInv(w1, w.nextId, NewService(w.nextId, name, c));
      }
    }
  }

  // ---------------------------------------------------------------- reload

  /** `ids` maps each service name to its id and nothing else. */
  ghost predicate Indexes(ids: map<string, nat>, services: map<nat, Service>) {
    && (forall id | id in services :: services[id].name in ids && ids[services[id].name] == id)
    && (forall n | n in ids :: ids[n] in services && services[ids[n]].name == n)
  }

  lemma {:induction false} IndexPart(w: World, scan: seq<nat>)
    requires Identified(w) && NoDuplicates(scan) && forall id | id in scan :: id in w.services
    ensures var ids := Index(w.services, scan);
      && (forall id | id in scan :: w.services[id].name in ids && ids[w.services[id].name] == id)
      && (forall n | n in ids :: ids[n] in scan && w.services[ids[n]].name == n)
  {
    if scan != [] {
      SplitLast(scan);
      IndexPart(w, scan[..|scan| - 1]);
    }
  }

  lemma IndexExact(w: World, scan: seq<nat>)
    requires Identified(w) && Enumerates(scan, w.services.Keys)
    ensures Indexes(Index(w.services, scan), w.services)
  {
    IndexPart(w, scan);
  }

  lemma RemoveOneInv(w: World, config: map<string, ServiceConfig>, name: string, id: nat, a: Answer)
    requires Inv(w)
    ensures Inv(RemoveOne(w, config, name, id, a).world)
    ensures SameChildren(w, RemoveOne(w, config, name, id, a).world)
  {
    if name !in config && id in w.services {
      if w.services[id].state.Stopped? {
        DropInv(w, id);
      } else {
        HaltInv(w, id, w.services[id].(pending := Remove), a);
      }
    }
  }

  lemma {:induction false} RemoveAllInv(w: World, config: map<string, ServiceConfig>, ids: map<string, nat>,
                                        order: seq<string>, answers: map<string, Answer>)
    requires Inv(w) && forall n | n in order :: n in ids
    ensures var o := RemoveAll(w, config, ids, order, answers); Inv(o.world) && SameChildren(w, o.world)
  {
    if order != [] {
      var last := |order| - 1;
      SplitLast(order);
      RemoveAllInv(w, config, ids, order[..last], answers);
      var o := RemoveAll(w, config, ids, order[..last], answers);
      if o.ok {
        RemoveOneInv(o.world, config, order[last], ids[order[last]], Ask(answers, order[last]));
      }
    }
  }

  /** Names in use after an operation on `name` were in use before, or are `name`. */
  ghost predicate OnlyAddsName(w: World, w': World, name: string) {
    forall n :: NameTaken(w'.services, n) ==> NameTaken(w.services, n) || n == name
  }

  lemma UpdateConfigFits(w: World, id: nat, c: ServiceConfig)
    requires Inv(w) && id in w.services
    ensures var s := UpdateConfig(w.services[id], c).0;
      && Fits(w, id, s) && Fits(w, id, s.(pending := Restart))
      && s.name == w.services[id].name && s.state == w.services[id].state
  {
  }

  lemma ReviseOneInv(w: World, id: nat, c: ServiceConfig, a: Answer)
    requires Inv(w) && (a.ok ==> FreshPid(w, a.pid))
    ensures Inv(ReviseOne(w, id, c, a).world)
    ensures KeepsFresh(w, ReviseOne(w, id, c, a).world, a)
  {
    if id in w.services && w.services[id].config != c {
      var (s, ok) := UpdateConfig(w.services[id], c);
      UpdateConfigFits(w, id, c);
      PutInv(w, id, s);
      if ok {
        if s.state.Stopped? {
          LaunchInv(Put(w, id, s), id, s, a);
        } else {
          HaltInv(w, id, s.(pending := Restart), a);
        }
      }
    }
  }

  lemma ReviseOneNames(w: World, id: nat, c: ServiceConfig, a: Answer, name: string)
    ensures OnlyAddsName(w, ReviseOne(w, id, c, a).world, name)
  {
    var w' := ReviseOne(w, id, c, a).world;
    forall n | NameTaken(w'.services, n) ensures NameTaken(w.services, n) {
      var j :| j in w'.services && w'.services[j].name == n;
      assert j in w.services && w.services[j].name == n;
    }
  }

  lemma NewServiceFits(w: World, name: string, c: ServiceConfig)
    requires Inv(w) && Buildable(c) && w.nextId < U64_MAX && !NameTaken(w.services, name)
    ensures Fits(w.(nextId := w.nextId + 1), w.nextId, NewService(w.nextId, name, c))
    ensures w.nextId !in w.services && Forks(w.history, w.nextId) == 0
  {
  }

  lemma LaunchNewInv(w: World, name: string, c: ServiceConfig, a: Answer)
    requires Inv(w) && (a.ok ==> FreshPid(w, a.pid)) && !NameTaken(w.services, name)
    requires Buildable(c) && w.nextId < U64_MAX
    ensures Inv(AddOne(w, name, c, a).world)
  {
    var w1 := w.(nextId := w.nextId + 1);
    BumpInv(w);
    NewServiceFits(w, name, c);
    var s := NewService(w.nextId, name, c);
    LaunchInv(w1, w.nextId, s, a);
    AddOneIsLaunch(w, name, c, a);
  }

  lemma AddOneIsLaunch(w: World, name: string, c: ServiceConfig, a: Answer)
    requires Buildable(c) && w.nextId < U64_MAX
    ensures AddOne(w, name, c, a) ==
            Launch(w.(nextId := w.nextId + 1), w.nextId, NewService(w.nextId, name, c), a)
  {
  }

  lemma AddOneFresh(w: World, name: string, c: ServiceConfig, a: Answer)
    ensures KeepsFresh(w, AddOne(w, name, c, a).world, a)
  {
  }

  lemma AddOneInv(w: World, name: string, c: ServiceConfig, a: Answer)
    requires Inv(w) && (a.ok ==> FreshPid(w, a.pid)) && !NameTaken(w.services, name)
    ensures Inv(AddOne(w, name, c, a).world)
    ensures KeepsFresh(w, AddOne(w, name, c, a).world, a)
  {
    AddOneFresh(w, name, c, a);
    if w.nextId < U64_MAX {
      if Buildable(c) {
        LaunchNewInv(w, name, c, a);
      } else {
        BumpInv(w);
        assert AddOne(w, name, c, a).world == w.(nextId := w.nextId + 1);
      }
    }
  }

  lemma AddOneNames(w: World, name: string, c: ServiceConfig, a: Answer)
    ensures OnlyAddsName(w, AddOne(w, name, c, a).world, name)
  {
    var w' := AddOne(w, name, c, a).world;
    forall n | NameTaken(w'.services, n) && n != name ensures NameTaken(w.services, n) {
      var j :| j in w'.services && w'.services[j].name == n;
      assert j in w.services && w.services[j].name == n;
    }
  }

  lemma {:induction false} ApplyAllInv(w: World, config: map<string, ServiceConfig>, ids: map<string, nat>,
                                       order: seq<string>, answers: map<string, Answer>)
    requires Inv(w) && Admissible(w, answers) && NoDuplicates(order) && (forall n | n in order :: n in config)
    requires forall n | n in order && n !in ids :: !NameTaken(w.services, n)
    ensures var o := ApplyAll(w, config, ids, order, answers);
      && Inv(o.world) && UnusedFresh(o.world, answers, order)
      && (forall n :: NameTaken(o.world.services, n) ==> NameTaken(w.services, n) || n in order)
  {
    if order != [] {
      var last := |order| - 1;
      var name := order[last];
      SplitLast(order);
      ApplyAllInv(w, config, ids, order[..last], answers);
      var o := ApplyAll(w, config, ids, order[..last], answers);
      if o.ok {
        if name in ids {
          ReviseOneInv(o.world, ids[name], config[name], Ask(answers, name));
          ReviseOneNames(o.world, ids[name], config[name], Ask(answers, name), name);
        } else {
          AddOneInv(o.world, name, config[name], Ask(answers, name));
          AddOneNames(o.world, name, config[name], Ask(answers, name));
        }
        UseAnswer(w, o.world, ApplyAll(w, config, ids, order, answers).world, answers, order);
      }
    }
  }

  /** Reload keeps the invariant, also when it stops half way. */
  lemma ReloadInv(w: World, config: map<string, ServiceConfig>, scan: seq<nat>, removal: seq<string>,
                  applied: seq<string>, answers: map<string, Answer>)
    requires Inv(w) && ReloadOrders(w, config, scan, removal, applied) && Admissible(w, answers)
    ensures Inv(Reload(w, config, scan, removal, applied, answers).world)
  {
    var ids := Index(w.services, scan);
    IndexExact(w, scan);
    RemoveAllInv(w, config, ids, removal, answers);
    RemoveAllKeepsNames(w, config, ids, removal, answers);
    var o := RemoveAll(w, config, ids, removal, answers);
    if o.ok {
      forall n | n in applied && n !in ids ensures !NameTaken(o.world.services, n) {
        if id :| id in o.world.services && o.world.services[id].name == n {
          assert false;
        }
      }
      ApplyAllInv(o.world, config, ids, applied, answers);
    }
  }

  lemma {:induction false} RemoveAllKeepsNames(w: World, config: map<string, ServiceConfig>, ids: map<string, nat>,
                                               order: seq<string>, answers: map<string, Answer>)
    requires forall n | n in order :: n in ids
    ensures var w' := RemoveAll(w, config, ids, order, answers).world;
      forall id | id in w'.services :: id in w.services && w'.services[id].name == w.services[id].name
  {
    if order != [] {
      var last := |order| - 1;
      SplitLast(order);
      RemoveAllKeepsNames(w, config, ids, order[..last], answers);
      var o := RemoveAll(w, config, ids, order[..last], answers);
      if o.ok {
        RemoveOneKeepsNames(o.world, config, order[last], ids[order[last]], Ask(answers, order[last]));
      }
    }
  }

  lemma RemoveOneKeepsNames(w: World, config: map<string, ServiceConfig>, name: string, id: nat, a: Answer)
    ensures var w' := RemoveOne(w, config, name, id, a).world;
      forall j | j in w'.services :: j in w.services && w'.services[j].name == w.services[j].name
  {
  }

  // ---------------------------------------------------------------- every run

  lemma StepInv(w: World, e: Event)
    requires Inv(w) && Possible(w, e)
    ensures Inv(Step(w, e))
  {
    match e
    case Hangup(config, scan, removal, applied, answers) =>
      if w.phase.Serving? && config.Some? {
        ReloadInv(w, config.value, scan, removal, applied, answers);
      }
    case ChildSignal(order, failed) =>
      ReapAllInv(w, order);
    case Terminate(order, answers) =>
      if w.phase.Serving? {
        StopAllInv(w.(phase := ShuttingDown), order, answers);
      }
    case Timer(order, answers) =>
      TickAllInv(w, w.clock, order, answers);
    case Command(id, op, a) =>
      ControlInv(w, id, op, a);
    case _ =>
  }

  lemma BootInv(b: World)
    requires Booted(b)
    ensures Inv(b)
  {
    var clock, waitable, config, inserted, started, answers :|
      Boots(b, clock, waitable, config, inserted, started, answers);
    InsertAllInv(Blank(clock, waitable), config, inserted);
    StartAllInv(InsertAll(Blank(clock, waitable), config, inserted).world, started, answers);
  }

  lemma {:induction false} RunInv(w: World, es: seq<Event>)
    requires Inv(w) && Feasible(w, es)
    ensures Inv(Run(w, es))
  {
    if es != [] {
      RunInv(w, es[..|es| - 1]);
      StepInv(Run(w, es[..|es| - 1]), es[|es| - 1]);
    }
  }

  /** Runs compose. */
  lemma {:induction false} RunAppend(w: World, es: seq<Event>, more: seq<Event>)
    requires Feasible(w, es) && Feasible(Run(w, es), more)
    ensures Feasible(w, es + more) && Run(w, es + more) == Run(Run(w, es), more)
  {
    if more == [] {
      assert es + more == es;
    } else {
      RunAppend(w, es, more[..|more| - 1]);
      assert (es + more)[..|es + more| - 1] == es + more[..|more| - 1];
    }
  }

  /** The invariant holds in every state any run can reach. */
  lemma ReachableInv(w: World)
    requires Reachable(w)
    ensures Inv(w)
  {
    var b, es :| Booted(b) && Feasible(b, es) && w == Run(b, es);
    BootInv(b);
    RunInv(b, es);
  }
}
