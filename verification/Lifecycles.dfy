/**
 One service's view of each event. Every loop over the registry turns out to be one simultaneous
 update: what happens to a service depends on that service and its own kernel answer only.
 */
module Lifecycles {
  import opened Types
  import opened Histories
  import opened Steps
  import opened Invariants

  function Entry(w: World, id: nat): Option<Service> {
    if id in w.services then Some(w.services[id]) else None
  }

  predicate SameFrame(w: World, w': World) {
    w'.phase == w.phase && w'.exit == w.exit && w'.nextId == w.nextId
  }

  function One(b: bool): nat {
    if b then 1 else 0
  }

  // ---------------------------------------------------------------- what is done to a service's process

  ghost predicate SameStarts(w: World, w': World, id: nat) {
    && Forks(w'.history, id) == Forks(w.history, id)
    && LatestFork(w'.history, id) == LatestFork(w.history, id)
  }

  ghost predicate SameStops(w: World, w': World, id: nat) {
    && Stops(w'.history, id) == Stops(w.history, id)
    && LatestStop(w'.history, id) == LatestStop(w.history, id)
  }

  /** One process was forked for service `id`, and it executes what the record `s` says. */
  ghost predicate StartedAs(w: World, w': World, id: nat, s: Service, pid: nat) {
    && Forks(w'.history, id) == Forks(w.history, id) + 1
    && var f := LatestFork(w'.history, id);
    && f.Some? && w.clock <= f.value.at <= w'.clock
    && f.value == Forked(id, pid, s.argv, s.envp, s.config, f.value.at)
  }

  /**
   The process of the running service `s` got its stop signal, which turned the record into `s'`: the
   deadline is the timeout of `s` after the call that sent the signal returned.
   */
  ghost predicate StoppedAs(w: World, w': World, id: nat, s: Service, a: Answer, s': Service) {
    && s.state.Running?
    && Stops(w'.history, id) == Stops(w.history, id) + 1
    && var e := LatestStop(w'.history, id);
    && e.Some? && w.clock + a.elapsed <= e.value.at <= w'.clock
    && var deadline := e.value.at + 1_000_000 * s.config.stopTimeoutMs;
    && e.value == StopSent(id, s.state.pid, s.config.stopSignal, s.config.stopTimeoutMs, e.value.at, deadline)
    && s' == s.(state := Stopping(s.state.pid, deadline))
  }

  /** `stop_service` on the record `s` of service `id`. */
  ghost predicate StopsTo(w: World, w': World, id: nat, s: Service, a: Answer, s': Service) {
    if s.state.Running? && a.ok then StoppedAs(w, w', id, s, a, s')
    else s' == s && SameStops(w, w', id)
  }

  // ---------------------------------------------------------------- timer

  predicate RestartDue(s: Service) {
    s.state.Stopped? && DueAction(s) == Restart
  }

  predicate Overdue(s: Service, now: nat) {
    s.state.Stopping? && now >= s.state.deadline
  }

  /** What a tick makes of a service; None when it leaves the registry. */
  function Ticked(s: Service, a: Answer): Option<Service> {
    if !s.state.Stopped? then Some(s)
    else if DueAction(s) == Remove then None
    else if DueAction(s) == Restart && a.ok then Some(s.(pending := NoAction, state := Running(a.pid)))
    else Some(s.(pending := NoAction))
  }

  /** `w'` is `w` after one tick at `now`, as far as service `id` goes; `here` if it was visited. */
  ghost predicate TicksTo(w: World, now: nat, here: bool, a: Answer, w': World, id: nat) {
    && Entry(w', id) == (if here && id in w.services then Ticked(w.services[id], a) else Entry(w, id))
    && (if here && id in w.services && RestartDue(w.services[id]) && a.ok
        then StartedAs(w, w', id, w.services[id], a.pid) else SameStarts(w, w', id))
    && SameStops(w, w', id)
    && Kills(w'.history, id) == Kills(w.history, id) + One(here && id in w.services && Overdue(w.services[id], now))
    && Reaps(w'.history, id) == Reaps(w.history, id)
    && SameFrame(w, w') && w'.waitable == w.waitable && w.clock <= w'.clock
  }

  lemma TickStoppedAt(w: World, now: nat, x: nat, a: Answer, id: nat)
    requires x in w.services && w.services[x].state.Stopped?
    ensures TicksTo(w, now, x == id, a, TickOne(w, now, x, a), id)
  {
    assert w.services[x].(pending := NoAction, state := Running(a.pid)) ==
           w.services[x].(pending := NoAction).(state := Running(a.pid));
  }

  lemma TickLiveAt(w: World, now: nat, x: nat, a: Answer, id: nat)
    requires x in w.services ==> !w.services[x].state.Stopped?
    ensures TicksTo(w, now, x == id, a, TickOne(w, now, x, a), id)
  {
  }

  lemma TickOneAt(w: World, now: nat, x: nat, a: Answer, id: nat)
    ensures TicksTo(w, now, x == id, a, TickOne(w, now, x, a), id)
  {
    if x in w.services && w.services[x].state.Stopped? {
      TickStoppedAt(w, now, x, a, id);
    } else {
      TickLiveAt(w, now, x, a, id);
    }
  }

  /** A tick treats all services at once; a SIGKILL goes to exactly the overdue ones. */
  lemma {:induction false} TickAllAt(w: World, now: nat, order: seq<nat>, answers: map<nat, Answer>, id: nat)
    requires NoDuplicates(order)
    ensures TicksTo(w, now, id in order, Ask(answers, id), TickAll(w, now, order, answers), id)
  {
    if order != [] {
      var last := |order| - 1;
      SplitLast(order);
      TickAllAt(w, now, order[..last], answers, id);
      TickOneAt(TickAll(w, now, order[..last], answers), now, order[last], Ask(answers, order[last]), id);
    }
  }

  // ---------------------------------------------------------------- SIGCHLD

  /** The end of the service's process that `wait` is about to report, if it is among `order`. */
  function Ending(w: World, id: nat, order: seq<nat>): Option<ExitReason> {
    if id in w.services && w.services[id].Pid().Some?
    then
      var p := w.services[id].Pid().value;
      if p in order && p in w.waitable && w.waitable[p].Ended? then Some(w.waitable[p].reason) else None
    else None
  }

  function AfterEnd(s: Service, end: Option<ExitReason>): Service {
    if end.None? then s else s.(state := Stopped(ReasonFor(end.value, s.state)))
  }

  /** Ended by SIGILL, SIGABRT, SIGBUS, SIGFPE or SIGSEGV. */
  predicate IsCrash(exit: ExitReason) {
    exit.Signaled? && exit.sig in {4, 6, 7, 8, 11}
  }

  /**
   The stop reason keeps everything there is to know about the end of a process: how it ended, and,
   unless it crashed, whether the supervisor had asked for it.
   */
  lemma ReasonTellsAll(e1: ExitReason, s1: ServiceState, e2: ExitReason, s2: ServiceState)
    requires ReasonFor(e1, s1) == ReasonFor(e2, s2)
    ensures e1 == e2
    ensures IsCrash(e1) || (s1.Stopping? <==> s2.Stopping?)
    ensures ReasonFor(e1, s1).SupervisorTerminated? <==> s1.Stopping? && !IsCrash(e1)
    ensures !ReasonFor(e1, s1).NeverStarted?
  {
  }

  /** The same for the whole registry: the outcome of a reap loop as one update. */
  function AfterReaping(w: World, order: seq<nat>): map<nat, Service> {
    map id | id in w.services :: AfterEnd(w.services[id], Ending(w, id, order))
  }

  /** `w'` is `w` after `wait` reported the children in `order`, as far as service `id` goes. */
  ghost predicate ReapsTo(w: World, order: seq<nat>, w': World, id: nat) {
    && Entry(w', id) == (if id in w.services then Some(AfterEnd(w.services[id], Ending(w, id, order))) else None)
    && SameStarts(w, w', id) && SameStops(w, w', id)
    && Kills(w'.history, id) == Kills(w.history, id)
    && Reaps(w'.history, id) == Reaps(w.history, id) + One(Ending(w, id, order).Some?)
    && w'.waitable == w.waitable - Elements(order)
    && SameFrame(w, w') && w'.clock == w.clock
  }

  lemma ReapOneAt(w: World, p: nat, id: nat)
    requires Inv(w) && p in w.waitable
    ensures ReapsTo(w, [p], ReapOne(w, p), id)
  {
    assert Elements([p]) == {p};
    if w.waitable[p].Ended? && p in w.pids {
      assert w.services[w.pids[p]].Pid() == Some(p);
      if id in w.services && w.services[id].Pid().Some? {
        assert w.pids[w.services[id].Pid().value] == id;
      }
    }
  }

  lemma ReapsOneMore(w: World, order: seq<nat>, w1: World, w2: World, id: nat)
    requires order != [] && NoDuplicates(order) && forall p | p in order :: p in w.waitable
    requires ReapsTo(w, order[..|order| - 1], w1, id)
    requires ReapsTo(w1, [order[|order| - 1]], w2, id)
    ensures ReapsTo(w, order, w2, id)
  {
    SplitLast(order);
    assert Elements(order[..|order| - 1]) + Elements([order[|order| - 1]]) == Elements(order);
  }

  lemma {:induction false} ReapAllAt(w: World, order: seq<nat>, id: nat)
    requires Inv(w) && NoDuplicates(order) && forall p | p in order :: p in w.waitable
    ensures ReapsTo(w, order, ReapAll(w, order), id)
  {
    if order != [] {
      var last := |order| - 1;
      SplitLast(order);
      ReapAllInv(w, order[..last]);
      ReapAllAt(w, order[..last], id);
      ReapOneAt(ReapAll(w, order[..last]), order[last], id);
      ReapsOneMore(w, order, ReapAll(w, order[..last]), ReapAll(w, order), id);
    }
  }

  /** The reap loop is one simultaneous update of the registry and leaves nothing waitable. */
  lemma ReapIsSimultaneous(w: World, order: seq<nat>)
    requires Inv(w) && NoDuplicates(order) && forall p | p in order :: p in w.waitable
    ensures ReapAll(w, order).services == AfterReaping(w, order)
    ensures ReapAll(w, order).waitable == w.waitable - Elements(order)
    ensures Enumerates(order, w.waitable.Keys) ==> ReapAll(w, order).waitable == map[]
  {
    var w' := ReapAll(w, order);
    ReapAllAt(w, order, 0);
    forall id ensures Entry(w', id) == if id in AfterReaping(w, order) then Some(AfterReaping(w, order)[id]) else None {
      ReapAllAt(w, order, id);
    }
    SameEntries(w'.services, AfterReaping(w, order));
  }

  /** Two registries that answer every lookup alike are equal. */
  lemma SameEntries(m: map<nat, Service>, n: map<nat, Service>)
    requires forall id :: (if id in m then Some(m[id]) else None) == (if id in n then Some(n[id]) else None)
    ensures m == n
  {
    forall id ensures id in m <==> id in n {
      assert (if id in m then Some(m[id]) else None) == (if id in n then Some(n[id]) else None);
    }
    forall id | id in m ensures m[id] == n[id] {
      assert (if id in m then Some(m[id]) else None) == (if id in n then Some(n[id]) else None);
    }
  }

  // ---------------------------------------------------------------- SIGTERM, SIGINT

  /** `w'` is `w` after the shutdown loop, as far as service `id` goes; `here` if it was visited. */
  ghost predicate HaltsTo(w: World, here: bool, a: Answer, w': World, id: nat) {
    && (id in w'.services <==> id in w.services)
    && (id in w.services && here ==> StopsTo(w, w', id, w.services[id], a, w'.services[id]))
    && (id in w.services && !here ==> w'.services[id] == w.services[id])
    && (id !in w.services || !here ==> SameStops(w, w', id))
    && SameStarts(w, w', id)
    && Kills(w'.history, id) == Kills(w.history, id)
    && Reaps(w'.history, id) == Reaps(w.history, id)
    && SameFrame(w, w') && w'.waitable == w.waitable && w.clock <= w'.clock
  }

  lemma StopOneAt(w: World, x: nat, a: Answer, id: nat)
    ensures HaltsTo(w, x == id, a, StopOne(w, x, a), id)
  {
  }

  /** Shutdown treats all services at once: each running one gets its signal and its own deadline. */
  lemma {:induction false} StopAllAt(w: World, order: seq<nat>, answers: map<nat, Answer>, id: nat)
    requires NoDuplicates(order)
    ensures HaltsTo(w, id in order, Ask(answers, id), StopAll(w, order, answers), id)
  {
    if order != [] {
      var last := |order| - 1;
      SplitLast(order);
      StopAllAt(w, order[..last], answers, id);
      StopOneAt(StopAll(w, order[..last], answers), order[last], Ask(answers, order[last]), id);
    }
  }

  // ---------------------------------------------------------------- control FIFO

  /** Does the command start a process of the service? */
  predicate Starts(s: Service, op: ControlOp) {
    op != Stop && s.state.Stopped? && s.pending == NoAction
  }

  /** What a command does to the service it addresses. */
  ghost predicate ControlsTo(w: World, w': World, id: nat, s: Service, op: ControlOp, a: Answer, s': Service) {
    if Starts(s, op) then
      s' == (if a.ok then s.(state := Running(a.pid)) else s) && SameStops(w, w', id)
    else if op == Stop && s.state.Running? then
      StopsTo(w, w', id, s, a, s')
    else if op == RestartOp && s.state.Running? && s.pending == NoAction then
      StopsTo(w, w', id, s.(pending := Restart), a, s')
    else
      s' == s && SameStops(w, w', id)
  }

  /** `w'` is `w` after a command for `target`, as far as service `id` goes. */
  ghost predicate CommandsTo(w: World, target: nat, op: ControlOp, a: Answer, w': World, id: nat) {
    && (id in w'.services <==> id in w.services)
    && (if id in w.services && id == target
        then ControlsTo(w, w', id, w.services[id], op, a, w'.services[id])
        else Entry(w', id) == Entry(w, id) && SameStops(w, w', id))
    && (if id in w.services && id == target && Starts(w.services[id], op) && a.ok
        then StartedAs(w, w', id, w.services[id], a.pid) else SameStarts(w, w', id))
    && Kills(w'.history, id) == Kills(w.history, id)
    && Reaps(w'.history, id) == Reaps(w.history, id)
    && SameFrame(w, w') && w'.waitable == w.waitable
  }

  lemma StopAt(w: World, target: nat, a: Answer, id: nat)
    ensures CommandsTo(w, target, Stop, a, Control(w, target, Stop, a).world, id)
  {
  }

  lemma StartAt(w: World, target: nat, a: Answer, id: nat)
    ensures CommandsTo(w, target, Start, a, Control(w, target, Start, a).world, id)
  {
  }

  lemma RestartAt(w: World, target: nat, a: Answer, id: nat)
    ensures CommandsTo(w, target, RestartOp, a, Control(w, target, RestartOp, a).world, id)
  {
  }

  lemma ControlAt(w: World, target: nat, op: ControlOp, a: Answer, id: nat)
    ensures CommandsTo(w, target, op, a, Control(w, target, op, a).world, id)
  {
    match op
    case Stop => StopAt(w, target, a, id);
    case Start => StartAt(w, target, a, id);
    case RestartOp => RestartAt(w, target, a, id);
  }

  // ---------------------------------------------------------------- SIGHUP

  lemma RemoveOneReaps(w: World, config: map<string, ServiceConfig>, name: string, x: nat, a: Answer, id: nat)
    ensures var w' := RemoveOne(w, config, name, x, a).world;
      && Reaps(w'.history, id) == Reaps(w.history, id) && Kills(w'.history, id) == Kills(w.history, id)
      && SameFrame(w, w') && w'.waitable == w.waitable
  {
  }

  lemma {:induction false} RemoveAllReaps(w: World, config: map<string, ServiceConfig>, ids: map<string, nat>,
                                          order: seq<string>, answers: map<string, Answer>, id: nat)
    requires forall n | n in order :: n in ids
    ensures var w' := RemoveAll(w, config, ids, order, answers).world;
      && Reaps(w'.history, id) == Reaps(w.history, id) && Kills(w'.history, id) == Kills(w.history, id)
      && SameFrame(w, w') && w'.waitable == w.waitable
  {
    if order != [] {
      var last := |order| - 1;
      RemoveAllReaps(w, config, ids, order[..last], answers, id);
      var o := RemoveAll(w, config, ids, order[..last], answers);
      if o.ok {
        RemoveOneReaps(o.world, config, order[last], ids[order[last]], Ask(answers, order[last]), id);
      }
    }
  }

  lemma ApplyOneReaps(w: World, ids: map<string, nat>, name: string, c: ServiceConfig, a: Answer, id: nat)
    ensures var w' := ApplyOne(w, ids, name, c, a).world;
      && Reaps(w'.history, id) == Reaps(w.history, id) && Kills(w'.history, id) == Kills(w.history, id)
      && w'.phase == w.phase && w'.exit == w.exit && w.nextId <= w'.nextId && w'.waitable == w.waitable
  {
  }

  lemma {:induction false} ApplyAllReaps(w: World, config: map<string, ServiceConfig>, ids: map<string, nat>,
                                         order: seq<string>, answers: map<string, Answer>, id: nat)
    requires forall n | n in order :: n in config
    ensures var w' := ApplyAll(w, config, ids, order, answers).world;
      && Reaps(w'.history, id) == Reaps(w.history, id) && Kills(w'.history, id) == Kills(w.history, id)
      && w'.phase == w.phase && w'.exit == w.exit && w.nextId <= w'.nextId && w'.waitable == w.waitable
  {
    if order != [] {
      var last := |order| - 1;
      ApplyAllReaps(w, config, ids, order[..last], answers, id);
      var o := ApplyAll(w, config, ids, order[..last], answers);
      if o.ok {
        ApplyOneReaps(o.world, ids, order[last], config[order[last]], Ask(answers, order[last]), id);
      }
    }
  }

  /** A reload never reaps, so it forks at most one process for any service; and it never sends SIGKILL. */
  lemma ReloadForks(w: World, config: map<string, ServiceConfig>, scan: seq<nat>, removal: seq<string>,
                    applied: seq<string>, answers: map<string, Answer>, id: nat)
    requires Inv(w) && ReloadOrders(w, config, scan, removal, applied) && Admissible(w, answers)
    ensures var w' := Reload(w, config, scan, removal, applied, answers).world;
      && Forks(w'.history, id) <= Forks(w.history, id) + 1
      && Kills(w'.history, id) == Kills(w.history, id)
      && Reaps(w'.history, id) == Reaps(w.history, id)
      && w'.phase == w.phase && w'.exit == w.exit && w.nextId <= w'.nextId && w'.waitable == w.waitable
  {
    var ids := Index(w.services, scan);
    var w' := Reload(w, config, scan, removal, applied, answers).world;
    ReloadInv(w, config, scan, removal, applied, answers);
    RemoveAllReaps(w, config, ids, removal, answers, id);
    var o := RemoveAll(w, config, ids, removal, answers);
    if o.ok {
      ApplyAllReaps(o.world, config, ids, applied, answers, id);
    }
    ForksMinusReaps(w.history, id);
    ForksMinusReaps(w'.history, id);
  }

  // ---------------------------------------------------------------- identities

  /** No service is renamed, and none comes back under an id already issued. */
  ghost predicate KeepsIdentities(w: World, w': World) {
    && w.nextId <= w'.nextId
    && forall id | id < w.nextId && id in w'.services ::
         id in w.services && w'.services[id].name == w.services[id].name
  }

  lemma ReviseOneIdentities(w: World, id: nat, c: ServiceConfig, a: Answer)
    ensures KeepsIdentities(w, ReviseOne(w, id, c, a).world)
  {
  }

  lemma AddOneIdentities(w: World, name: string, c: ServiceConfig, a: Answer)
    ensures KeepsIdentities(w, AddOne(w, name, c, a).world)
  {
  }

  lemma ApplyOneIdentities(w: World, ids: map<string, nat>, name: string, c: ServiceConfig, a: Answer)
    ensures KeepsIdentities(w, ApplyOne(w, ids, name, c, a).world)
  {
    if name in ids {
      ReviseOneIdentities(w, ids[name], c, a);
    } else {
      AddOneIdentities(w, name, c, a);
    }
  }

  lemma {:induction false} ApplyAllIdentities(w: World, config: map<string, ServiceConfig>, ids: map<string, nat>,
                                              order: seq<string>, answers: map<string, Answer>)
    requires forall n | n in order :: n in config
    ensures KeepsIdentities(w, ApplyAll(w, config, ids, order, answers).world)
  {
    if order != [] {
      var last := |order| - 1;
      ApplyAllIdentities(w, config, ids, order[..last], answers);
      var o := ApplyAll(w, config, ids, order[..last], answers);
      if o.ok {
        ApplyOneIdentities(o.world, ids, order[last], config[order[last]], Ask(answers, order[last]));
      }
    }
  }

  lemma ReloadIdentities(w: World, config: map<string, ServiceConfig>, scan: seq<nat>, removal: seq<string>,
                         applied: seq<string>, answers: map<string, Answer>)
    requires ReloadOrders(w, config, scan, removal, applied)
    ensures KeepsIdentities(w, Reload(w, config, scan, removal, applied, answers).world)
  {
    var ids := Index(w.services, scan);
    RemoveAllKeepsNames(w, config, ids, removal, answers);
    RemoveAllReaps(w, config, ids, removal, answers, 0);
    var o := RemoveAll(w, config, ids, removal, answers);
    if o.ok {
      ApplyAllIdentities(o.world, config, ids, applied, answers);
    }
  }

  // ---------------------------------------------------------------- one step, one service

  /**
   The automaton of a single service: what event `e` may do to service `id`. A reload is only
   bounded here (see the module Reloads); the other events are described exactly.
   */
  ghost predicate LocalStep(w: World, e: Event, w': World, id: nat) {
    && Kills(w'.history, id) ==
       Kills(w.history, id) + One(e.Timer? && id in w.services && Overdue(w.services[id], w.clock))
    && w'.phase == (if e.Terminate? then ShuttingDown else w.phase)
    && (!e.Hangup? ==> w'.nextId == w.nextId)
    && match e
       case Hangup(_, _, _, _, _) =>
         && Forks(w'.history, id) <= Forks(w.history, id) + 1
         && Reaps(w'.history, id) == Reaps(w.history, id)
         && w.nextId <= w'.nextId
         && (id < w.nextId && id in w'.services ==>
               id in w.services && w'.services[id].name == w.services[id].name)
         && (w.phase.ShuttingDown? || e.config.None? ==> w' == w)
       case ChildSignal(order, _) =>
         && Entry(w', id) == (if id in w.services then Some(AfterEnd(w.services[id], Ending(w, id, order))) else None)
         && SameStarts(w, w', id) && SameStops(w, w', id)
         && Reaps(w'.history, id) == Reaps(w.history, id) + One(Ending(w, id, order).Some?)
       case Terminate(_, answers) =>
         && (id in w'.services <==> id in w.services)
         && (if id in w.services && w.phase.Serving?
             then StopsTo(w, w', id, w.services[id], Ask(answers, id), w'.services[id])
             else Entry(w', id) == Entry(w, id) && SameStops(w, w', id))
         && SameStarts(w, w', id)
         && Reaps(w'.history, id) == Reaps(w.history, id)
       case Timer(_, answers) =>
         && Entry(w', id) == (if id in w.services then Ticked(w.services[id], Ask(answers, id)) else None)
         && (if id in w.services && RestartDue(w.services[id]) && Ask(answers, id).ok
             then StartedAs(w, w', id, w.services[id], Ask(answers, id).pid) else SameStarts(w, w', id))
         && SameStops(w, w', id)
         && Reaps(w'.history, id) == Reaps(w.history, id)
       case Command(target, op, a) => CommandsTo(w, target, op, a, w', id)
       case _ =>
         && Entry(w', id) == Entry(w, id)
         && SameStarts(w, w', id) && SameStops(w, w', id)
         && Reaps(w'.history, id) == Reaps(w.history, id)
  }

  /** A tick or a command starts a process of service `id`, from the record it has. */
  predicate StartsAt(w: World, e: Event, id: nat) {
    && id in w.services
    && match e
       case Timer(_, answers) => RestartDue(w.services[id]) && Ask(answers, id).ok
       case Command(target, op, a) => target == id && Starts(w.services[id], op) && a.ok
       case _ => false
  }

  lemma HangupAt(w: World, e: Event, id: nat)
    requires Inv(w) && Possible(w, e) && e.Hangup?
    ensures LocalStep(w, e, Step(w, e), id)
  {
    if w.phase.Serving? && e.config.Some? {
      ReloadForks(w, e.config.value, e.scan, e.removal, e.applied, e.byName, id);
      ReloadIdentities(w, e.config.value, e.scan, e.removal, e.applied, e.byName);
    }
  }

  lemma ChildSignalAt(w: World, e: Event, id: nat)
    requires Inv(w) && Possible(w, e) && e.ChildSignal?
    ensures LocalStep(w, e, Step(w, e), id)
  {
    ReapAllAt(w, e.reaped, id);
  }

  lemma TerminateAt(w: World, e: Event, id: nat)
    requires Inv(w) && Possible(w, e) && e.Terminate?
    ensures LocalStep(w, e, Step(w, e), id)
  {
    if w.phase.Serving? {
      var w1 := w.(phase := ShuttingDown);
      StopAllAt(w1, e.stopped, e.onStop, id);
      HaltsMove(w, e, StopAll(w1, e.stopped, e.onStop), Step(w, e), id);
    }
  }

  lemma HaltsMove(w: World, e: Event, w1: World, w': World, id: nat)
    requires e.Terminate? && w.phase.Serving? && (id in w.services ==> id in e.stopped)
    requires HaltsTo(w.(phase := ShuttingDown), id in e.stopped, Ask(e.onStop, id), w1, id)
    requires w' == w1.(exit := w'.exit)
    ensures LocalStep(w, e, w', id)
  {
  }

  lemma TimerAt(w: World, e: Event, id: nat)
    requires Inv(w) && Possible(w, e) && e.Timer?
    ensures LocalStep(w, e, Step(w, e), id)
  {
    TickAllAt(w, w.clock, e.visited, e.onTick, id);
  }

  lemma CommandAt(w: World, e: Event, id: nat)
    requires Inv(w) && Possible(w, e) && e.Command?
    ensures LocalStep(w, e, Step(w, e), id)
  {
    ControlAt(w, e.target, e.op, e.answer, id);
  }

  /** Every event moves every service as its own automaton says. */
  lemma StepAt(w: World, e: Event, id: nat)
    requires Inv(w) && Possible(w, e)
    ensures LocalStep(w, e, Step(w, e), id)
  {
    match e
    case Hangup(_, _, _, _, _) => HangupAt(w, e, id);
    case ChildSignal(_, _) => ChildSignalAt(w, e, id);
    case Terminate(_, _) => TerminateAt(w, e, id);
    case Timer(_, _) => TimerAt(w, e, id);
    case Command(_, _, _) => CommandAt(w, e, id);
    case _ =>
  }
}
