/**
 The supervisor and its kernel as one state, and every event as a function on it.
 Loops over hash maps are folds over an order the event supplies, so that a statement for all
 events is a statement for all iteration orders and all kernel answers.
 */
module Steps {
  import opened Types
  import opened Histories

  datatype World = World(
    services: map<nat, Service>,
    pids: map<nat, nat>,
    nextId: nat,
    phase: Phase,
    exit: Exit,
    clock: nat,
    waitable: map<nat, WaitStatus>,
    history: History)

  /** The result of a fallible operation: the state it leaves, and whether it returned `Ok`. */
  datatype Outcome = Outcome(world: World, ok: bool)

  /** A pid the kernel may hand out: nobody unreaped holds it. */
  predicate FreshPid(w: World, pid: nat) {
    pid > 0 && pid !in w.waitable && pid !in Alive(w.history)
  }

  /** The kernel's promise about forks: successful answers carry fresh, distinct pids. */
  ghost predicate Admissible<K>(w: World, answers: map<K, Answer>) {
    && (forall k | k in answers && answers[k].ok :: FreshPid(w, answers[k].pid))
    && (forall j, k | j in answers && k in answers && j != k && answers[j].ok && answers[k].ok ::
          answers[j].pid != answers[k].pid)
  }

  function Put(w: World, id: nat, s: Service): World {
    w.(services := w.services[id := s])
  }

  function Drop(w: World, id: nat): World {
    w.(services := w.services - {id})
  }

  /** `start_service` on `s`, then inserting it and registering its pid. */
  function Launch(w: World, id: nat, s: Service, a: Answer): Outcome {
    var now := w.clock + a.elapsed;
    if a.ok then
      Outcome(w.(services := w.services[id := s.(state := Running(a.pid))],
                 pids := w.pids[a.pid := id],
                 clock := now,
                 history := Then(w.history, Forked(id, a.pid, s.argv, s.envp, s.config, now))), true)
    else
      Outcome(w.(clock := now), false)
  }

  /** `stop_service` on `s`, which is written back whatever happens. */
  function Halt(w: World, id: nat, s: Service, a: Answer): Outcome {
    match s.state
    case Running(p) =>
      var now := w.clock + a.elapsed;
      if a.ok then
        var deadline := now + Timeout(s.config.stopTimeoutMs);
        Outcome(w.(services := w.services[id := s.(state := Stopping(p, deadline))],
                   clock := now,
                   history := Then(w.history, StopSent(id, p, s.config.stopSignal, s.config.stopTimeoutMs,
                                                       now, deadline))), true)
      else
        Outcome(Put(w, id, s).(clock := now), false)
    case _ => Outcome(Put(w, id, s), true)
  }

  // ---------------------------------------------------------------- startup

  function InsertOne(w: World, name: string, c: ServiceConfig): Outcome {
    if w.nextId >= U64_MAX then Outcome(w, false)
    else
      var w1 := w.(nextId := w.nextId + 1);
      if Buildable(c) then Outcome(Put(w1, w.nextId, NewService(w.nextId, name, c)), true)
      else Outcome(w1, false)
  }

  function InsertAll(w: World, config: map<string, ServiceConfig>, order: seq<string>): Outcome
    requires forall n | n in order :: n in config
  {
    if order == [] then Outcome(w, true)
    else
      var last := |order| - 1;
      var o := InsertAll(w, config, order[..last]);
      if o.ok then InsertOne(o.world, order[last], config[order[last]]) else o
  }

  function StartOne(w: World, id: nat, a: Answer): World {
    if id in w.services then Launch(w, id, w.services[id], a).world else w
  }

  function StartAll(w: World, order: seq<nat>, answers: map<nat, Answer>): World {
    if order == [] then w
    else
      var last := |order| - 1;
      StartOne(StartAll(w, order[..last], answers), order[last], Ask(answers, order[last]))
  }

  function Blank(clock: nat, waitable: map<nat, WaitStatus>): World {
    World(map[], map[], 0, Serving, Looping, clock, waitable, Origin)
  }

  // ---------------------------------------------------------------- SIGHUP

  /** `service_ids`, built by one pass over the registry. */
  function Index(services: map<nat, Service>, scan: seq<nat>): map<string, nat>
    requires forall id | id in scan :: id in services
  {
    if scan == [] then map[]
    else
      var last := |scan| - 1;
      Index(services, scan[..last])[services[scan[last]].name := scan[last]]
  }

  function RemoveOne(w: World, config: map<string, ServiceConfig>, name: string, id: nat, a: Answer): Outcome {
    if name in config || id !in w.services then Outcome(w, true)
    else
      var s := w.services[id];
      match s.state
      case Stopped(_) => Outcome(Drop(w, id), true)
      case _ => Halt(w, id, s.(pending := Remove), a)
  }

  function RemoveAll(w: World, config: map<string, ServiceConfig>, ids: map<string, nat>,
                     order: seq<string>, answers: map<string, Answer>): Outcome
    requires forall n | n in order :: n in ids
  {
    if order == [] then Outcome(w, true)
    else
      var last := |order| - 1;
      var o := RemoveAll(w, config, ids, order[..last], answers);
      if o.ok then RemoveOne(o.world, config, order[last], ids[order[last]], Ask(answers, order[last])) else o
  }

  /** `update_config`: argv is replaced before the environment can be rejected. */
  function UpdateConfig(s: Service, c: ServiceConfig): (r: (Service, bool)) {
    if Argv(c).None? then (s, false)
    else if Envp(c).None? then (s.(argv := Argv(c).value), false)
    else (s.(argv := Argv(c).value, envp := Envp(c).value, config := c), true)
  }

  function AddOne(w: World, name: string, c: ServiceConfig, a: Answer): Outcome {
    if w.nextId >= U64_MAX then Outcome(w, false)
    else
      var w1 := w.(nextId := w.nextId + 1);
      if Buildable(c) then Launch(w1, w.nextId, NewService(w.nextId, name, c), a)
      else Outcome(w1, false)
  }

  function ReviseOne(w: World, id: nat, c: ServiceConfig, a: Answer): Outcome {
    if id !in w.services || w.services[id].config == c then Outcome(w, true)
    else
      var (s, ok) := UpdateConfig(w.services[id], c);
      if !ok then Outcome(Put(w, id, s), false)
      else match s.state
        case Stopped(_) => Launch(Put(w, id, s), id, s, a)
        case _ => Halt(w, id, s.(pending := Restart), a)
  }

  function ApplyOne(w: World, ids: map<string, nat>, name: string, c: ServiceConfig, a: Answer): Outcome {
    if name in ids then ReviseOne(w, ids[name], c, a) else AddOne(w, name, c, a)
  }

  function ApplyAll(w: World, config: map<string, ServiceConfig>, ids: map<string, nat>,
                    order: seq<string>, answers: map<string, Answer>): Outcome
    requires forall n | n in order :: n in config
  {
    if order == [] then Outcome(w, true)
    else
      var last := |order| - 1;
      var o := ApplyAll(w, config, ids, order[..last], answers);
      if o.ok then ApplyOne(o.world, ids, order[last], config[order[last]], Ask(answers, order[last])) else o
  }

  /** `reload_services` once the configuration has been read. */
  function Reload(w: World, config: map<string, ServiceConfig>, scan: seq<nat>, removal: seq<string>,
                  applied: seq<string>, answers: map<string, Answer>): Outcome
    requires ReloadOrders(w, config, scan, removal, applied)
  {
    var ids := Index(w.services, scan);
    var o := RemoveAll(w, config, ids, removal, answers);
    if o.ok then ApplyAll(o.world, config, ids, applied, answers) else o
  }

  ghost predicate ReloadOrders(w: World, config: map<string, ServiceConfig>, scan: seq<nat>,
                               removal: seq<string>, applied: seq<string>)
  {
    && Enumerates(scan, w.services.Keys)
    && Enumerates(removal, Index(w.services, scan).Keys)
    && Enumerates(applied, config.Keys)
  }

  // ---------------------------------------------------------------- SIGCHLD

  /** One status report taken from `wait`. */
  function ReapOne(w: World, pid: nat): World {
    if pid !in w.waitable then w
    else
      var w1 := w.(waitable := w.waitable - {pid});
      match w.waitable[pid]
      case NotEnded => w1
      case Ended(reason) =>
        var w2 := if pid in Alive(w.history)
                  then w1.(history := Then(w.history, Reaped(Alive(w.history)[pid], pid, reason, w.clock)))
                  else w1;
        if pid !in w.pids then w2
        else
          var id := w.pids[pid];
          var w3 := w2.(pids := w.pids - {pid});
          if id !in w.services then w3
          else Put(w3, id, w.services[id].(state := Stopped(ReasonFor(reason, w.services[id].state))))
  }

  function ReapAll(w: World, order: seq<nat>): World {
    if order == [] then w
    else
      var last := |order| - 1;
      ReapOne(ReapAll(w, order[..last]), order[last])
  }

  predicate AllStopped(services: map<nat, Service>) {
    forall id | id in services :: services[id].IsStopped()
  }

  function LeaveIfDone(w: World): World {
    if w.phase.ShuttingDown? && AllStopped(w.services) then w.(exit := ExitedOk) else w
  }

  // ---------------------------------------------------------------- SIGTERM, SIGINT

  function StopOne(w: World, id: nat, a: Answer): World {
    if id in w.services then Halt(w, id, w.services[id], a).world else w
  }

  function StopAll(w: World, order: seq<nat>, answers: map<nat, Answer>): World {
    if order == [] then w
    else
      var last := |order| - 1;
      StopOne(StopAll(w, order[..last], answers), order[last], Ask(answers, order[last]))
  }

  // ---------------------------------------------------------------- timer

  /** The body of `retain` for one service; `now` is the time read when the tick began. */
  function TickOne(w: World, now: nat, id: nat, a: Answer): World {
    if id !in w.services then w
    else
      var s := w.services[id];
      match s.state
      case Running(_) => w
      case Stopping(p, deadline) =>
        if now >= deadline
        then w.(clock := w.clock + a.elapsed, history := Then(w.history, KillSent(id, p, a.ok, w.clock)))
        else w
      case Stopped(_) =>
        var s1 := s.(pending := NoAction);
        match DueAction(s)
        case NoAction => Put(w, id, s1)
        case Remove => Drop(w, id)
        case Restart => Launch(Put(w, id, s1), id, s1, a).world
  }

  function TickAll(w: World, now: nat, order: seq<nat>, answers: map<nat, Answer>): World {
    if order == [] then w
    else
      var last := |order| - 1;
      TickOne(TickAll(w, now, order[..last], answers), now, order[last], Ask(answers, order[last]))
  }

  // ---------------------------------------------------------------- control FIFO

  function Control(w: World, id: nat, op: ControlOp, a: Answer): Outcome {
    if id !in w.services then Outcome(w, true)
    else
      var s := w.services[id];
      match op
      case Stop => if s.state.Running? then Halt(w, id, s, a) else Outcome(w, true)
      case Start =>
        if s.state.Stopped? && s.pending == NoAction then Launch(w, id, s, a) else Outcome(w, true)
      case RestartOp =>
        if s.state.Stopped? && s.pending == NoAction then Launch(w, id, s, a)
        else if s.state.Running? && s.pending == NoAction then Halt(w, id, s.(pending := Restart), a)
        else Outcome(w, true)
  }

  // ---------------------------------------------------------------- the loop

  /** May `e` happen in `w`? Orders enumerate the maps they iterate, forks get fresh pids. */
  ghost predicate Possible(w: World, e: Event) {
    && w.exit.Looping?
    && match e
       case Hangup(config, scan, removal, applied, answers) =>
         && (config.Some? ==> ReloadOrders(w, config.value, scan, removal, applied))
         && Admissible(w, answers)
       case ChildSignal(order, failed) =>
         && NoDuplicates(order)
         && (forall p | p in order :: p in w.waitable)
         && (!failed ==> forall p | p in w.waitable :: p in order)
       case Terminate(order, answers) => Enumerates(order, w.services.Keys) && Admissible(w, answers)
       case Timer(order, answers) => Enumerates(order, w.services.Keys) && Admissible(w, answers)
       case Command(_, _, a) => a.ok ==> FreshPid(w, a.pid)
       case _ => true
  }

  function Step(w: World, e: Event): World
    requires Possible(w, e)
  {
    match e
    case Reported(pid, status) =>
      if pid in w.waitable && w.waitable[pid].Ended? then w
      else w.(waitable := w.waitable[pid := status])
    case Elapsed(dt) => w.(clock := w.clock + dt)
    case Hangup(config, scan, removal, applied, answers) =>
      if w.phase.Serving? && config.Some?
      then Reload(w, config.value, scan, removal, applied, answers).world else w
    case ChildSignal(order, failed) =>
      var w1 := ReapAll(w, order);
      if failed then w1.(exit := ExitedErr) else LeaveIfDone(w1)
    case Terminate(order, answers) =>
      LeaveIfDone(if w.phase.Serving? then StopAll(w.(phase := ShuttingDown), order, answers) else w)
    case Timer(order, answers) => TickAll(w, w.clock, order, answers)
    case Command(id, op, a) => Control(w, id, op, a).world
    case LoopError => w.(exit := ExitedErr)
  }

  /** The events can happen one after the other, starting in `w`. */
  ghost predicate Feasible(w: World, es: seq<Event>)
    decreases |es|, 0
  {
    es == [] ||
    (Feasible(w, es[..|es| - 1]) && Possible(Run(w, es[..|es| - 1]), es[|es| - 1]))
  }

  ghost function Run(w: World, es: seq<Event>): World
    requires Feasible(w, es)
    decreases |es|, 1
  {
    if es == [] then w else Step(Run(w, es[..|es| - 1]), es[|es| - 1])
  }

  /** A startup that got as far as the event loop. */
  ghost predicate Boots(b: World, clock: nat, waitable: map<nat, WaitStatus>, config: map<string, ServiceConfig>,
                        inserted: seq<string>, started: seq<nat>, answers: map<nat, Answer>)
  {
    && Enumerates(inserted, config.Keys)
    && var o := InsertAll(Blank(clock, waitable), config, inserted);
    && o.ok
    && Enumerates(started, o.world.services.Keys)
    && Admissible(o.world, answers)
    && b == StartAll(o.world, started, answers)
  }

  ghost predicate Booted(b: World) {
    exists clock, waitable, config, inserted, started, answers ::
      Boots(b, clock, waitable, config, inserted, started, answers)
  }

  /** Some run of the supervisor, from startup, ends in `w`. */
  ghost predicate Reachable(w: World) {
    exists b, es :: Booted(b) && Feasible(b, es) && w == Run(b, es)
  }
}
