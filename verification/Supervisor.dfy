/**
 The supervisor as it runs: objects whose methods update their fields and loop over the registry.
 Each method is proved to do exactly what its function in Steps says, so that the theorems about
 runs are theorems about these methods.
 */
module Supervision {
  import opened Types
  import opened Histories
  import opened Steps
  import opened Invariants
  import opened Startups

  class ServiceIdGen {
    var next: nat

    constructor ()
      ensures next == 0
    {
      next := 0;
    }

    method Nextval() returns (r: Option<nat>)
      modifies this
      ensures r == if old(next) < U64_MAX then Some(old(next)) else None
      ensures next == if r.Some? then old(next) + 1 else old(next)
    {
      if next >= U64_MAX {
        return None;
      }
      r := Some(next);
      next := next + 1;
    }
  }

  class ServiceRegistry {
    var services: map<nat, Service>
    var pids: map<nat, nat>

    constructor ()
      ensures services == map[] && pids == map[]
    {
      services, pids := map[], map[];
    }

    method InsertService(id: nat, s: Service)
      modifies `services
      ensures services == old(services)[id := s]
    {
      services := services[id := s];
    }

    method RemoveService(id: nat)
      modifies `services
      ensures services == old(services) - {id}
    {
      services := services - {id};
    }

    method RegisterPid(pid: nat, id: nat)
      modifies `pids
      ensures pids == old(pids)[pid := id]
    {
      pids := pids[pid := id];
    }

    /** Forget `pid` and say which service it belonged to, if that service still exists. */
    method TakeByPid(pid: nat) returns (id: Option<nat>)
      modifies `pids
      ensures pids == old(pids) - {pid}
      ensures id == if pid in old(pids) && old(pids)[pid] in services then Some(old(pids)[pid]) else None
    {
      if pid !in pids {
        assert pids - {pid} == pids;
        return None;
      }
      id := if pids[pid] in services then Some(pids[pid]) else None;
      pids := pids - {pid};
    }

    /** The `name -> id` map that a reload builds first. */
    method ServiceIds(scan: seq<nat>) returns (ids: map<string, nat>)
      requires forall id | id in scan :: id in services
      ensures ids == Index(services, scan)
    {
      ids := map[];
      for i := 0 to |scan|
        invariant ids == Index(services, scan[..i])
      {
        assert scan[..i + 1][..i] == scan[..i];
        ids := ids[services[scan[i]].name := scan[i]];
      }
      assert scan[..|scan|] == scan;
    }
  }

  /** The kernel as far as the supervisor can tell, with its record of what was done to children. */
  class Kernel {
    var clock: nat
    var waitable: map<nat, WaitStatus>
    ghost var history: History

    constructor (clock: nat, waitable: map<nat, WaitStatus>)
      ensures this.clock == clock && this.waitable == waitable && history == Origin
    {
      this.clock, this.waitable := clock, waitable;
      history := Origin;
    }

    /** The child executes `argv` with `envp`, in the directory, as the user and with the log of `c`. */
    method Fork(id: nat, argv: seq<string>, envp: Option<map<string, string>>, c: ServiceConfig, a: Answer)
      returns (pid: Option<nat>)
      modifies this
      ensures pid == if a.ok then Some(a.pid) else None
      ensures clock == old(clock) + a.elapsed && waitable == old(waitable)
      ensures history == if a.ok then Then(old(history), Forked(id, a.pid, argv, envp, c, clock)) else old(history)
    {
      clock := clock + a.elapsed;
      if !a.ok {
        return None;
      }
      history := Then(history, Forked(id, a.pid, argv, envp, c, clock));
      pid := Some(a.pid);
    }

    method KillWithStopSignal(id: nat, pid: nat, c: ServiceConfig, a: Answer) returns (ok: bool)
      modifies this
      ensures ok == a.ok && clock == old(clock) + a.elapsed && waitable == old(waitable)
      ensures history == if ok then Then(old(history), StopSent(id, pid, c.stopSignal, c.stopTimeoutMs, clock,
                                                                clock + Timeout(c.stopTimeoutMs)))
                         else old(history)
    {
      clock := clock + a.elapsed;
      if a.ok {
        history := Then(history, StopSent(id, pid, c.stopSignal, c.stopTimeoutMs, clock,
                                          clock + Timeout(c.stopTimeoutMs)));
      }
      ok := a.ok;
    }

    method ForceKill(id: nat, pid: nat, a: Answer) returns (ok: bool)
      modifies this
      ensures ok == a.ok && clock == old(clock) + a.elapsed && waitable == old(waitable)
      ensures history == Then(old(history), KillSent(id, pid, ok, old(clock)))
    {
      history := Then(history, KillSent(id, pid, a.ok, clock));
      clock := clock + a.elapsed;
      ok := a.ok;
    }

    /** `wait` with NOHANG: `next` is the child whose status is reported, if any is ready. */
    method Wait(next: Option<nat>, failed: bool) returns (r: WaitResult)
      requires next.Some? ==> next.value in waitable
      modifies this
      ensures clock == old(clock)
      ensures next.None? ==> r == (if failed then WaitError else NoneReady) &&
                             waitable == old(waitable) && history == old(history)
      ensures next.Some? ==>
        && r == Ready(next.value, old(waitable)[next.value])
        && waitable == old(waitable) - {next.value}
        && history == if r.status.Ended? && next.value in Alive(old(history))
                      then Then(old(history),
                                Reaped(Alive(old(history))[next.value], next.value, r.status.reason, clock))
                      else old(history)
    {
      if next.None? {
        return if failed then WaitError else NoneReady;
      }
      var pid := next.value;
      var status := waitable[pid];
      if status.Ended? {
        ghost var alive := Alive(history);
        if pid in alive {
          history := Then(history, Reaped(alive[pid], pid, status.reason, clock));
        }
      }
      waitable := waitable - {pid};
      r := Ready(pid, status);
    }
  }

  /** What `wait` returns: a child's status, nothing (or no child at all), or another error. */
  datatype WaitResult = Ready(pid: nat, status: WaitStatus) | NoneReady | WaitError

  method BuildSvcArgv(c: ServiceConfig) returns (argv: Option<seq<string>>)
    ensures argv == Argv(c)
    ensures argv.Some? ==> Spells(argv.value, c)
    ensures argv.None? <==> '\0' in c.command || exists i :: 0 <= i < |c.args| && '\0' in c.args[i]
  {
    ArgvSpelled(c);
    if HasNul(c.command) {
      assert HasNul(([c.command] + c.args)[0]);
      return None;
    }
    var built := [c.command];
    for i := 0 to |c.args|
      invariant built == [c.command] + c.args[..i]
      invariant forall j | 0 <= j < |built| :: !HasNul(built[j])
    {
      if HasNul(c.args[i]) {
        assert HasNul(([c.command] + c.args)[i + 1]);
        return None;
      }
      built := built + [c.args[i]];
    }
    assert built == [c.command] + c.args;
    argv := Some(built);
  }

  // A loop that returned early has the outcome of the part it did.

  lemma {:induction false} FailedInsertion(w: World, config: map<string, ServiceConfig>, order: seq<string>, k: nat)
    requires k <= |order| && (forall n | n in order :: n in config) && !InsertAll(w, config, order[..k]).ok
    ensures InsertAll(w, config, order) == InsertAll(w, config, order[..k])
  {
    if k == |order| {
      assert order[..k] == order;
    } else {
      assert order[..|order| - 1][..k] == order[..k];
      FailedInsertion(w, config, order[..|order| - 1], k);
    }
  }

  lemma {:induction false} FailedRemoval(w: World, config: map<string, ServiceConfig>, ids: map<string, nat>,
                                         order: seq<string>, answers: map<string, Answer>, k: nat)
    requires k <= |order| && (forall n | n in order :: n in ids)
    requires !RemoveAll(w, config, ids, order[..k], answers).ok
    ensures RemoveAll(w, config, ids, order, answers) == RemoveAll(w, config, ids, order[..k], answers)
  {
    if k == |order| {
      assert order[..k] == order;
    } else {
      assert order[..|order| - 1][..k] == order[..k];
      FailedRemoval(w, config, ids, order[..|order| - 1], answers, k);
    }
  }

  lemma {:induction false} FailedApply(w: World, config: map<string, ServiceConfig>, ids: map<string, nat>,
                                       order: seq<string>, answers: map<string, Answer>, k: nat)
    requires k <= |order| && (forall n | n in order :: n in config)
    requires !ApplyAll(w, config, ids, order[..k], answers).ok
    ensures ApplyAll(w, config, ids, order, answers) == ApplyAll(w, config, ids, order[..k], answers)
  {
    if k == |order| {
      assert order[..k] == order;
    } else {
      assert order[..|order| - 1][..k] == order[..k];
      FailedApply(w, config, ids, order[..|order| - 1], answers, k);
    }
  }

  /** Every beginning of a feasible run is feasible. */
  lemma {:induction false} FeasiblePrefix(w: World, es: seq<Event>, k: nat)
    requires Feasible(w, es) && k <= |es|
    ensures Feasible(w, es[..k])
  {
    if k == |es| {
      assert es[..k] == es;
    } else {
      assert es[..|es| - 1][..k] == es[..k];
      FeasiblePrefix(w, es[..|es| - 1], k);
    }
  }

  class Supervisor {
    const registry: ServiceRegistry
    const idGen: ServiceIdGen
    const kernel: Kernel
    var phase: Phase
    var exit: Exit

    constructor (kernel: Kernel)
      requires kernel.history.Origin?
      ensures this.kernel == kernel && fresh(registry) && fresh(idGen)
      ensures View() == Blank(kernel.clock, kernel.waitable)
    {
      registry := new ServiceRegistry();
      idGen := new ServiceIdGen();
      this.kernel := kernel;
      phase, exit := Serving, Looping;
    }

    ghost function View(): World
      reads this, registry, idGen, kernel
    {
      World(registry.services, registry.pids, idGen.next, phase, exit, kernel.clock, kernel.waitable, kernel.history)
    }

    // -------------------------------------------------------------- starting and stopping one service

    /** `start_service` with the registration of the pid that every caller adds. */
    method Launches(id: nat, s: Service, a: Answer) returns (ok: bool)
      modifies registry, kernel
      ensures Outcome(View(), ok) == Launch(old(View()), id, s, a)
    {
      var pid := kernel.Fork(id, s.argv, s.envp, s.config, a);
      if pid.None? {
        return false;
      }
      registry.InsertService(id, s.(state := Running(pid.value)));
      registry.RegisterPid(pid.value, id);
      ok := true;
    }

    /** `stop_service` on the record `s` of service `id`. */
    method StopService(id: nat, s: Service, a: Answer) returns (ok: bool)
      modifies registry, kernel
      ensures Outcome(View(), ok) == Halt(old(View()), id, s, a)
    {
      registry.InsertService(id, s);
      match s.state {
        case Running(pid) =>
          ok := kernel.KillWithStopSignal(id, pid, s.config, a);
          if ok {
            registry.InsertService(id, s.(state := Stopping(pid, kernel.clock + Timeout(s.config.stopTimeoutMs))));
            assert registry.services == old(registry.services)[id := registry.services[id]];
          }
        case _ =>
          ok := true;
      }
    }

    // -------------------------------------------------------------- startup

    method Insert(name: string, c: ServiceConfig) returns (ok: bool)
      modifies registry, idGen
      ensures Outcome(View(), ok) == InsertOne(old(View()), name, c)
    {
      var id := idGen.Nextval();
      if id.None? {
        return false;
      }
      var argv := BuildSvcArgv(c);
      if argv.None? || Envp(c).None? {
        return false;
      }
      registry.InsertService(id.value, NewService(id.value, name, c));
      ok := true;
    }

    method InsertServices(config: map<string, ServiceConfig>, inserted: seq<string>) returns (ok: bool)
      requires forall n | n in inserted :: n in config
      modifies registry, idGen
      ensures Outcome(View(), ok) == InsertAll(old(View()), config, inserted)
    {
      for i := 0 to |inserted|
        invariant Outcome(View(), true) == InsertAll(old(View()), config, inserted[..i])
      {
        assert inserted[..i + 1][..i] == inserted[..i];
        ok := Insert(inserted[i], config[inserted[i]]);
        if !ok {
          FailedInsertion(old(View()), config, inserted, i + 1);
          return;
        }
      }
      assert inserted[..|inserted|] == inserted;
      ok := true;
    }

    method StartServices(started: seq<nat>, answers: map<nat, Answer>)
      modifies registry, kernel
      ensures View() == StartAll(old(View()), started, answers)
    {
      for i := 0 to |started|
        invariant View() == StartAll(old(View()), started[..i], answers)
      {
        assert started[..i + 1][..i] == started[..i];
        if started[i] in registry.services {
          var _ := Launches(started[i], registry.services[started[i]], Ask(answers, started[i]));
        }
      }
      assert started[..|started|] == started;
    }

    /** What `run` does before the event loop; a failed start is only logged. */
    method Startup(config: map<string, ServiceConfig>, inserted: seq<string>, started: seq<nat>,
                   answers: map<nat, Answer>)
      returns (ok: bool)
      requires View() == Blank(kernel.clock, kernel.waitable) && Enumerates(inserted, config.Keys)
      requires var o := InsertAll(View(), config, inserted);
        o.ok ==> Enumerates(started, o.world.services.Keys) && Admissible(o.world, answers)
      modifies registry, idGen, kernel
      ensures ok == InsertAll(old(View()), config, inserted).ok
      ensures ok ==> View() == StartAll(InsertAll(old(View()), config, inserted).world, started, answers)
      ensures ok ==> Booted(View()) && Inv(View())
      ensures ok <==> Startable(config)
      ensures ok ==> StartedUp(View(), old(kernel.clock), config, inserted, answers)
    {
      StartupOkIff(kernel.clock, kernel.waitable, config, inserted);
      ok := InsertServices(config, inserted);
      if ok {
        StartServices(started, answers);
        assert Boots(View(), old(kernel.clock), old(kernel.waitable), config, inserted, started, answers);
        BootInv(View());
        StartupOutcome(View(), old(kernel.clock), old(kernel.waitable), config, inserted, started, answers);
      }
    }

    // -------------------------------------------------------------- SIGHUP

    method Retire(config: map<string, ServiceConfig>, name: string, id: nat, a: Answer) returns (ok: bool)
      modifies registry, kernel
      ensures Outcome(View(), ok) == RemoveOne(old(View()), config, name, id, a)
    {
      if name !in config && id in registry.services {
        var s := registry.services[id];
        match s.state {
          case Stopped(_) =>
            registry.RemoveService(id);
          case _ =>
            ok := StopService(id, s.(pending := Remove), a);
            return;
        }
      }
      ok := true;
    }

    method Add(name: string, c: ServiceConfig, a: Answer) returns (ok: bool)
      modifies registry, idGen, kernel
      ensures Outcome(View(), ok) == AddOne(old(View()), name, c, a)
    {
      var id := idGen.Nextval();
      if id.None? {
        return false;
      }
      var argv := BuildSvcArgv(c);
      if argv.None? || Envp(c).None? {
        return false;
      }
      ok := Launches(id.value, NewService(id.value, name, c), a);
    }

    method Revise(id: nat, c: ServiceConfig, a: Answer) returns (ok: bool)
      modifies registry, kernel
      ensures Outcome(View(), ok) == ReviseOne(old(View()), id, c, a)
    {
      if id !in registry.services || registry.services[id].config == c {
        return true;
      }
      var s := registry.services[id];
      var argv := BuildSvcArgv(c);
      if argv.None? {
        assert registry.services[id := s] == registry.services;
        return false;
      }
      s := s.(argv := argv.value);
      registry.InsertService(id, s);
      var envp := Envp(c);
      if envp.None? {
        return false;
      }
      s := s.(envp := envp.value, config := c);
      registry.InsertService(id, s);
      assert registry.services == old(registry.services)[id := s];
      match s.state {
        case Stopped(_) =>
          ok := Launches(id, s, a);
        case _ =>
          ok := StopService(id, s.(pending := Restart), a);
          ghost var last := registry.services[id];
          assert old(registry.services)[id := s][id := last] == old(registry.services)[id := last];
      }
    }

    /** The first loop of `reload_services`: services the configuration no longer names. */
    method RetireAll(config: map<string, ServiceConfig>, ids: map<string, nat>, removal: seq<string>,
                     answers: map<string, Answer>)
      returns (ok: bool)
      requires forall n | n in removal :: n in ids
      modifies registry, kernel
      ensures Outcome(View(), ok) == RemoveAll(old(View()), config, ids, removal, answers)
    {
      for i := 0 to |removal|
        invariant Outcome(View(), true) == RemoveAll(old(View()), config, ids, removal[..i], answers)
      {
        assert removal[..i + 1][..i] == removal[..i];
        ok := Retire(config, removal[i], ids[removal[i]], Ask(answers, removal[i]));
        if !ok {
          FailedRemoval(old(View()), config, ids, removal, answers, i + 1);
          return;
        }
      }
      assert removal[..|removal|] == removal;
      ok := true;
    }

    /** The second loop of `reload_services`: new and changed services. */
    method ApplyConfig(config: map<string, ServiceConfig>, ids: map<string, nat>, applied: seq<string>,
                       answers: map<string, Answer>)
      returns (ok: bool)
      requires forall n | n in applied :: n in config
      modifies registry, idGen, kernel
      ensures Outcome(View(), ok) == ApplyAll(old(View()), config, ids, applied, answers)
    {
      for i := 0 to |applied|
        invariant Outcome(View(), true) == ApplyAll(old(View()), config, ids, applied[..i], answers)
      {
        assert applied[..i + 1][..i] == applied[..i];
        var name := applied[i];
        if name in ids {
          ok := Revise(ids[name], config[name], Ask(answers, name));
        } else {
          ok := Add(name, config[name], Ask(answers, name));
        }
        if !ok {
          FailedApply(old(View()), config, ids, applied, answers, i + 1);
          return;
        }
      }
      assert applied[..|applied|] == applied;
      ok := true;
    }

    /** `reload_services` once the configuration has been read. */
    method ReloadServices(config: map<string, ServiceConfig>, scan: seq<nat>, removal: seq<string>,
                          applied: seq<string>, answers: map<string, Answer>)
      returns (ok: bool)
      requires ReloadOrders(View(), config, scan, removal, applied)
      modifies registry, idGen, kernel
      ensures Outcome(View(), ok) == Reload(old(View()), config, scan, removal, applied, answers)
    {
      var ids := registry.ServiceIds(scan);
      ok := RetireAll(config, ids, removal, answers);
      if ok {
        ok := ApplyConfig(config, ids, applied, answers);
      }
    }

    // -------------------------------------------------------------- SIGCHLD

    /** One turn of the reap loop; `r` is what `wait` returned. */
    method WaitAndReap(next: Option<nat>, failed: bool) returns (r: WaitResult)
      requires next.Some? ==> next.value in kernel.waitable
      modifies registry, kernel
      ensures r == if next.Some? then Ready(next.value, old(kernel.waitable)[next.value])
                   else if failed then WaitError else NoneReady
      ensures View() == if next.Some? then ReapOne(old(View()), next.value) else old(View())
    {
      r := kernel.Wait(next, failed);
      match r {
        case Ready(pid, Ended(reason)) =>
          var id := registry.TakeByPid(pid);
          if id.Some? {
            var s := registry.services[id.value];
            registry.InsertService(id.value, s.(state := Stopped(ReasonFor(reason, s.state))));
          }
          assert pid !in old(registry.pids) ==> old(registry.pids) - {pid} == old(registry.pids);
        case _ =>
      }
    }

    /** `handle_sigchld`: reap until nothing is ready, or until `wait` fails. */
    method HandleSigchld(order: seq<nat>, failed: bool) returns (ok: bool)
      requires NoDuplicates(order) && forall p | p in order :: p in kernel.waitable
      modifies registry, kernel
      ensures ok == !failed
      ensures View() == ReapAll(old(View()), order)
    {
      var i := 0;
      while true
        invariant i <= |order| && View() == ReapAll(old(View()), order[..i])
        invariant forall j | i <= j < |order| :: order[j] in kernel.waitable
        decreases |order| - i
      {
        assert order[..|order|] == order;
        var r := WaitAndReap(if i < |order| then Some(order[i]) else None, failed);
        match r {
          case Ready(_, _) =>
            assert order[..i + 1][..i] == order[..i];
            i := i + 1;
          case NoneReady => return true;
          case WaitError => return false;
        }
      }
    }

    // -------------------------------------------------------------- SIGTERM, SIGINT

    method StopServices(order: seq<nat>, answers: map<nat, Answer>)
      modifies registry, kernel
      ensures View() == StopAll(old(View()), order, answers)
    {
      for i := 0 to |order|
        invariant View() == StopAll(old(View()), order[..i], answers)
      {
        assert order[..i + 1][..i] == order[..i];
        if order[i] in registry.services {
          var _ := StopService(order[i], registry.services[order[i]], Ask(answers, order[i]));
        }
      }
      assert order[..|order|] == order;
    }

    // -------------------------------------------------------------- timer

    method TickService(now: nat, id: nat, a: Answer)
      modifies registry, kernel
      ensures View() == TickOne(old(View()), now, id, a)
    {
      if id !in registry.services {
        return;
      }
      var s := registry.services[id];
      match s.state {
        case Running(_) =>
        case Stopping(pid, deadline) =>
          if now >= deadline {
            var _ := kernel.ForceKill(id, pid, a);
          }
        case Stopped(_) =>
          var due := DueAction(s);
          s := s.(pending := NoAction);
          registry.InsertService(id, s);
          match due {
            case NoAction =>
            case Remove =>
              registry.RemoveService(id);
              assert registry.services == old(registry.services) - {id};
            case Restart =>
              var _ := Launches(id, s, a);
          }
      }
    }

    method Tick(order: seq<nat>, answers: map<nat, Answer>)
      modifies registry, kernel
      ensures View() == TickAll(old(View()), old(kernel.clock), order, answers)
    {
      var now := kernel.clock;
      for i := 0 to |order|
        invariant View() == TickAll(old(View()), now, order[..i], answers)
      {
        assert order[..i + 1][..i] == order[..i];
        TickService(now, order[i], Ask(answers, order[i]));
      }
      assert order[..|order|] == order;
    }

    // -------------------------------------------------------------- control FIFO

    method ApplyControlOp(id: nat, op: ControlOp, a: Answer) returns (ok: bool)
      modifies registry, kernel
      ensures Outcome(View(), ok) == Control(old(View()), id, op, a)
    {
      ok := true;
      if id in registry.services {
        var s := registry.services[id];
        match op {
          case Stop =>
            if s.state.Running? {
              ok := StopService(id, s, a);
            }
          case Start =>
            if s.state.Stopped? && s.pending == NoAction {
              ok := Launches(id, s, a);
            }
          case RestartOp =>
            match s.state {
              case Stopped(_) =>
                if s.pending == NoAction {
                  ok := Launches(id, s, a);
                }
              case Running(_) =>
                if s.pending == NoAction {
                  ok := StopService(id, s.(pending := Restart), a);
                }
              case _ =>
            }
        }
      }
    }

    // -------------------------------------------------------------- the loop

    /** One turn of the event loop: what the kernel does by itself, or what the supervisor does about it. */
    method Handle(e: Event)
      requires Inv(View()) && Possible(View(), e)
      modifies this, registry, idGen, kernel
      ensures View() == Step(old(View()), e)
      ensures Inv(View())
    {
      StepInv(View(), e);
      match e {
        case Reported(pid, status) =>
          if !(pid in kernel.waitable && kernel.waitable[pid].Ended?) {
            kernel.waitable := kernel.waitable[pid := status];
          }
        case Elapsed(dt) =>
          kernel.clock := kernel.clock + dt;
        case Hangup(config, scan, removal, applied, answers) =>
          if phase.Serving? && config.Some? {
            var _ := ReloadServices(config.value, scan, removal, applied, answers);
          }
        case ChildSignal(order, failed) =>
          var ok := HandleSigchld(order, failed);
          if !ok {
            exit := ExitedErr;
          } else if phase.ShuttingDown? && AllStopped(registry.services) {
            exit := ExitedOk;
          }
        case Terminate(order, answers) =>
          if phase.Serving? {
            phase := ShuttingDown;
            StopServices(order, answers);
          }
          if AllStopped(registry.services) {
            exit := ExitedOk;
          }
        case Timer(order, answers) =>
          Tick(order, answers);
        case Command(id, op, a) =>
          var _ := ApplyControlOp(id, op, a);
        case LoopError =>
          exit := ExitedErr;
      }
    }

    /** The event loop over any sequence of events that can happen. */
    method Loop(events: seq<Event>)
      requires Inv(View()) && Feasible(View(), events)
      modifies this, registry, idGen, kernel
      ensures View() == Run(old(View()), events)
      ensures Inv(View())
    {
      for i := 0 to |events|
        invariant Feasible(old(View()), events[..i])
        invariant View() == Run(old(View()), events[..i]) && Inv(View())
      {
        FeasiblePrefix(old(View()), events, i + 1);
        assert events[..i + 1][..i] == events[..i];
        Handle(events[i]);
      }
      assert events[..|events|] == events;
    }
  }
}
