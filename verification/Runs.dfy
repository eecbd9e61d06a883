/**
 Theorems about whole runs: process accounting, identities, bounded starts, removal, stopped
 services, control requests, SIGKILL deadlines and shutdown.
 */
module Runs {
  import opened Types
  import opened Histories
  import opened Steps
  import opened Invariants
  import opened Lifecycles

  // ---------------------------------------------------------------- process accounting

  /**
   In every reachable state the pid map is the inverse of the services' pids and holds exactly the
   children forked and not yet reaped. Per service, forks minus reaps is 1 while it is Running or
   Stopping and 0 otherwise, and it is NeverStarted exactly when it was never forked.
   */
  lemma ProcessesAccounted(w: World)
    requires Reachable(w)
    ensures w.pids == Alive(w.history)
    ensures forall id, p :: p in w.pids && w.pids[p] == id <==> id in w.services && w.services[id].Pid() == Some(p)
    ensures forall id :: Forks(w.history, id) ==
                         Reaps(w.history, id) + One(id in w.services && !w.services[id].IsStopped())
    ensures forall id | id in w.services :: w.services[id].state == Stopped(NeverStarted) <==> Forks(w.history, id) == 0
  {
    ReachableInv(w);
    forall id ensures Forks(w.history, id) ==
                      Reaps(w.history, id) + One(id in w.services && !w.services[id].IsStopped()) {
      ForksMinusReaps(w.history, id);
      if id in w.services && w.services[id].Pid().Some? {
        assert w.pids[w.services[id].Pid().value] in w.pids.Values;
      }
    }
    forall id | id in w.services
      ensures w.services[id].state == Stopped(NeverStarted) <==> Forks(w.history, id) == 0
    {
      assert Recorded(w.history, id, w.services[id]);
    }
  }

  /**
   The stop reason of every service in every reachable state is true: it tells how the last process of
   the service ended, and whether that process had been sent its stop signal before.
   */
  lemma StopReasonsTrue(w: World, id: nat) returns (past: History, end: Effect)
    requires Reachable(w) && id in w.services && w.services[id].IsStopped()
    requires w.services[id].state.reason != NeverStarted
    ensures StageOf(Then(past, end), w.history) && end.Reaped? && end.id == id
    ensures Reaps(past, id) + 1 == Reaps(w.history, id) == Forks(w.history, id)
    ensures w.services[id].state.reason == Classified(end.reason, StopOf(past, end.pid).Some?)
  {
    ProcessesAccounted(w);
    ReachableInv(w);
    assert Recorded(w.history, id, w.services[id]);
    past, end := LatestEndHappened(w.history, id);
  }

  /**
   Every signal of every run went to a live child of the service it was meant for; a process gets
   at most one stop signal; its deadline is exactly the timeout after the call that sent it, and
   SIGKILL does not come before. A fork hands over the environment of the definition in force.
   */
  lemma SignalsWellAimed(w: World, past: History, e: Effect)
    requires Reachable(w) && StageOf(Then(past, e), w.history)
    ensures e.StopSent? || e.KillSent? || e.Reaped? ==> e.pid in Alive(past) && Alive(past)[e.pid] == e.id
    ensures e.Forked? ==> e.pid !in Alive(past) && e.id !in Alive(past).Values && e.envp == e.definition.env
    ensures e.StopSent? ==> StopOf(past, e.pid).None? && e.deadline == e.at + 1_000_000 * e.timeoutMs
    ensures e.KillSent? ==>
      exists before, stop :: StageOf(Then(before, stop), past) && stop.StopSent? && stop.id == e.id && stop.pid == e.pid
                             && StopOf(past, e.pid) == Some(stop)
                             && e.at >= stop.deadline == stop.at + 1_000_000 * stop.timeoutMs
    ensures forall id :: Stops(w.history, id) <= Forks(w.history, id)
  {
    ReachableInv(w);
    DisciplinedStage(Then(past, e), w.history);
    if e.KillSent? {
      var before, stop := KillNeverEarly(w.history, past, e);
    }
    forall id {
      StopsBoundedByForks(w.history, id);
    }
  }

  // ---------------------------------------------------------------- the history only grows

  ghost predicate Grows(w: World, w': World) {
    StageOf(w.history, w'.history) && w.clock <= w'.clock
  }

  lemma GrowsMore(w: World, w1: World, w2: World)
    requires Grows(w, w1) && Grows(w1, w2)
    ensures Grows(w, w2)
  {
    StageTransitive(w.history, w1.history, w2.history);
  }

  lemma {:induction false} TickAllGrows(w: World, now: nat, order: seq<nat>, answers: map<nat, Answer>)
    ensures Grows(w, TickAll(w, now, order, answers))
  {
    if order != [] {
      var last := |order| - 1;
      var w1 := TickAll(w, now, order[..last], answers);
      TickAllGrows(w, now, order[..last], answers);
      GrowsMore(w, w1, TickOne(w1, now, order[last], Ask(answers, order[last])));
    }
  }

  lemma {:induction false} StopAllGrows(w: World, order: seq<nat>, answers: map<nat, Answer>)
    ensures Grows(w, StopAll(w, order, answers))
  {
    if order != [] {
      var last := |order| - 1;
      var w1 := StopAll(w, order[..last], answers);
      StopAllGrows(w, order[..last], answers);
      GrowsMore(w, w1, StopOne(w1, order[last], Ask(answers, order[last])));
    }
  }

  lemma {:induction false} ReapAllGrows(w: World, order: seq<nat>)
    ensures Grows(w, ReapAll(w, order))
  {
    if order != [] {
      var last := |order| - 1;
      var w1 := ReapAll(w, order[..last]);
      ReapAllGrows(w, order[..last]);
      GrowsMore(w, w1, ReapOne(w1, order[last]));
    }
  }

  lemma {:induction false} RemoveAllGrows(w: World, config: map<string, ServiceConfig>, ids: map<string, nat>,
                                          order: seq<string>, answers: map<string, Answer>)
    requires forall n | n in order :: n in ids
    ensures Grows(w, RemoveAll(w, config, ids, order, answers).world)
  {
    if order != [] {
      var last := |order| - 1;
      var o := RemoveAll(w, config, ids, order[..last], answers);
      RemoveAllGrows(w, config, ids, order[..last], answers);
      if o.ok {
        var n := order[last];
        GrowsMore(w, o.world, RemoveOne(o.world, config, n, ids[n], Ask(answers, n)).world);
      }
    }
  }

  lemma ApplyOneGrows(w: World, ids: map<string, nat>, name: string, c: ServiceConfig, a: Answer)
    ensures Grows(w, ApplyOne(w, ids, name, c, a).world)
  {
  }

  lemma {:induction false} ApplyAllGrows(w: World, config: map<string, ServiceConfig>, ids: map<string, nat>,
                                         order: seq<string>, answers: map<string, Answer>)
    requires forall n | n in order :: n in config
    ensures Grows(w, ApplyAll(w, config, ids, order, answers).world)
  {
    if order != [] {
      var last := |order| - 1;
      var o := ApplyAll(w, config, ids, order[..last], answers);
      ApplyAllGrows(w, config, ids, order[..last], answers);
      if o.ok {
        ApplyOneGrows(o.world, ids, order[last], config[order[last]], Ask(answers, order[last]));
        GrowsMore(w, o.world, ApplyAll(w, config, ids, order, answers).world);
      }
    }
  }

  lemma StepGrows(w: World, e: Event)
    requires Possible(w, e)
    ensures Grows(w, Step(w, e))
  {
    match e
    case Hangup(config, scan, removal, applied, answers) =>
      if w.phase.Serving? && config.Some? {
        var ids := Index(w.services, scan);
        RemoveAllGrows(w, config.value, ids, removal, answers);
        var o := RemoveAll(w, config.value, ids, removal, answers);
        if o.ok {
          ApplyAllGrows(o.world, config.value, ids, applied, answers);
          GrowsMore(w, o.world, Step(w, e));
        }
      }
    case ChildSignal(order, failed) => ReapAllGrows(w, order);
    case Terminate(order, answers) => StopAllGrows(w.(phase := ShuttingDown), order, answers);
    case Timer(order, answers) => TickAllGrows(w, w.clock, order, answers);
    case _ =>
  }

  lemma {:induction false} RunGrows(w: World, es: seq<Event>)
    requires Feasible(w, es)
    ensures Grows(w, Run(w, es))
  {
    if es != [] {
      RunGrows(w, es[..|es| - 1]);
      StepGrows(Run(w, es[..|es| - 1]), es[|es| - 1]);
      GrowsMore(w, Run(w, es[..|es| - 1]), Run(w, es));
    }
  }

  // ---------------------------------------------------------------- SIGKILL deadlines

  /** While a process lives, its stop signal and hence its deadline stay what they are. */
  lemma {:induction false} StopIsFinal(h: History, h': History, pid: nat, id: nat)
    requires StageOf(h, h') && Disciplined(h')
    requires pid in Alive(h) && Alive(h)[pid] == id && StopOf(h, pid).Some?
    requires Forks(h', id) == Forks(h, id)
    ensures pid in Alive(h') && Alive(h')[pid] == id ==> StopOf(h', pid) == StopOf(h, pid)
  {
    if h != h' {
      SameLatestFork(h, h'.past, id);
      StopIsFinal(h, h'.past, pid, id);
    }
  }

  /** A live process is the one its service forked last, and its stop signal the last one sent. */
  lemma PresentProcess(w: World, id: nat)
    requires Inv(w) && id in w.services && w.services[id].Pid().Some?
    ensures LatestFork(w.history, id).Some? && LatestFork(w.history, id).value.Forked?
    ensures LatestFork(w.history, id).value.pid == w.services[id].Pid().value
    ensures w.services[id].state.Stopping? ==> LatestStop(w.history, id) == StopOf(w.history, w.services[id].state.pid)
  {
    assert Recorded(w.history, id, w.services[id]);
    PresentFork(w.history, w.services[id].Pid().value);
    if w.services[id].state.Stopping? {
      PresentStop(w.history, w.services[id].state.pid);
    }
  }

  /**
   In every reachable state the deadline of a stopping service is the timeout that was in force when
   its stop signal was sent, counted from the return of that call.
   */
  lemma DeadlineIsTimeout(w: World, id: nat) returns (stop: Effect)
    requires Reachable(w) && id in w.services && w.services[id].state.Stopping?
    ensures stop.StopSent? && stop.id == id && stop.pid == w.services[id].state.pid
    ensures StopOf(w.history, stop.pid) == Some(stop) && LatestStop(w.history, id) == Some(stop)
    ensures w.services[id].state.deadline == stop.at + 1_000_000 * stop.timeoutMs
  {
    ReachableInv(w);
    var pid := w.services[id].state.pid;
    assert Recorded(w.history, id, w.services[id]);
    PresentProcess(w, id);
    stop := StopOf(w.history, pid).value;
    var past := StopOfHappened(w.history, pid);
    DisciplinedStage(Then(past, stop), w.history);
    StopTarget(w.history, pid);
  }

  /** The deadline of one incarnation never moves, whatever happens: reloads included. */
  lemma DeadlineNeverMoves(w: World, es: seq<Event>, id: nat)
    requires Inv(w) && Feasible(w, es)
    requires id in w.services && w.services[id].state.Stopping?
    requires var w' := Run(w, es);
      id in w'.services && w'.services[id].state.Stopping? && Forks(w'.history, id) == Forks(w.history, id)
    ensures Run(w, es).services[id].state == w.services[id].state
  {
    var w' := Run(w, es);
    RunInv(w, es);
    RunGrows(w, es);
    SameLatestFork(w.history, w'.history, id);
    PresentProcess(w, id);
    PresentProcess(w', id);
    assert Recorded(w.history, id, w.services[id]);
    assert Recorded(w'.history, id, w'.services[id]);
    StopIsFinal(w.history, w'.history, w.services[id].state.pid, id);
  }

  /** Only a tick sends SIGKILL, and it does so to `id` exactly when `id` is overdue. */
  lemma StepKills(w: World, e: Event, id: nat)
    requires Inv(w) && Possible(w, e)
    ensures Kills(Step(w, e).history, id) ==
            Kills(w.history, id) + One(e.Timer? && id in w.services && Overdue(w.services[id], w.clock))
  {
    StepAt(w, e, id);
  }

  /** The ticks of a run at whose beginning `id` is past its kill deadline. */
  ghost function OverdueTicks(w: World, es: seq<Event>, id: nat): nat
    requires Feasible(w, es)
  {
    if es == [] then 0
    else
      var w1 := Run(w, es[..|es| - 1]);
      OverdueTicks(w, es[..|es| - 1], id) +
      One(es[|es| - 1].Timer? && id in w1.services && Overdue(w1.services[id], w1.clock))
  }

  /** The README's second guarantee: SIGKILL is sent at each tick past the deadline and never otherwise. */
  lemma {:induction false} KilledExactlyWhenOverdue(w: World, es: seq<Event>, id: nat)
    requires Inv(w) && Feasible(w, es)
    ensures Kills(Run(w, es).history, id) == Kills(w.history, id) + OverdueTicks(w, es, id)
  {
    if es != [] {
      var w1 := Run(w, es[..|es| - 1]);
      KilledExactlyWhenOverdue(w, es[..|es| - 1], id);
      RunInv(w, es[..|es| - 1]);
      StepKills(w1, es[|es| - 1], id);
    }
  }

  // ---------------------------------------------------------------- identities

  lemma StepIdentity(w: World, e: Event, id: nat)
    requires Inv(w) && Possible(w, e)
    ensures w.nextId <= Step(w, e).nextId
    ensures id < w.nextId && id in Step(w, e).services ==>
            id in w.services && Step(w, e).services[id].name == w.services[id].name
  {
    StepAt(w, e, id);
  }

  /** An id once given to a name never denotes another, over any run. */
  lemma {:induction false} IdsNeverReused(w: World, es: seq<Event>)
    requires Inv(w) && Feasible(w, es)
    ensures KeepsIdentities(w, Run(w, es)) && Run(w, es).nextId <= U64_MAX
  {
    if es != [] {
      IdsNeverReused(w, es[..|es| - 1]);
      RunInv(w, es[..|es| - 1]);
      var w1 := Run(w, es[..|es| - 1]);
      StepIdentity(w1, es[|es| - 1], 0);
      forall id | id < w1.nextId && id in Run(w, es).services
        ensures id in w1.services && Run(w, es).services[id].name == w1.services[id].name
      {
        StepIdentity(w1, es[|es| - 1], id);
      }
      RunInv(w, es);
    }
  }

  // ---------------------------------------------------------------- starts are bounded

  /** How many starts of `id` one event may cause. */
  function StartBudget(e: Event, id: nat): nat {
    One(e.Timer? || e.Hangup? || (e.Command? && e.target == id && e.op != Stop))
  }

  function Budget(es: seq<Event>, id: nat): nat {
    if es == [] then 0 else Budget(es[..|es| - 1], id) + StartBudget(es[|es| - 1], id)
  }

  lemma StepStarts(w: World, e: Event, id: nat)
    requires Inv(w) && Possible(w, e)
    ensures Forks(Step(w, e).history, id) <= Forks(w.history, id) + StartBudget(e, id)
  {
    StepAt(w, e, id);
  }

  lemma {:induction false} RunStarts(w: World, es: seq<Event>, id: nat)
    requires Inv(w) && Feasible(w, es)
    ensures Forks(Run(w, es).history, id) <= Forks(w.history, id) + Budget(es, id)
  {
    if es != [] {
      RunStarts(w, es[..|es| - 1], id);
      RunInv(w, es[..|es| - 1]);
      StepStarts(Run(w, es[..|es| - 1]), es[|es| - 1], id);
    }
  }

  lemma {:induction false} StartAllReaps(w: World, order: seq<nat>, answers: map<nat, Answer>, id: nat)
    ensures Reaps(StartAll(w, order, answers).history, id) == Reaps(w.history, id)
  {
    if order != [] {
      StartAllReaps(w, order[..|order| - 1], answers, id);
    }
  }

  lemma BootStarts(b: World, id: nat)
    requires Booted(b)
    ensures Inv(b) && Forks(b.history, id) <= 1
  {
    BootInv(b);
    var clock, waitable, config, inserted, started, answers :|
      Boots(b, clock, waitable, config, inserted, started, answers);
    InsertAllInv(Blank(clock, waitable), config, inserted);
    StartAllReaps(InsertAll(Blank(clock, waitable), config, inserted).world, started, answers, id);
    ForksMinusReaps(b.history, id);
  }

  /** From startup on: one start, one per tick and reload, one per Start or Restart command. */
  lemma StartsBounded(b: World, es: seq<Event>, id: nat)
    requires Booted(b) && Feasible(b, es)
    ensures Forks(Run(b, es).history, id) <= 1 + Budget(es, id)
  {
    BootStarts(b, id);
    RunStarts(b, es, id);
  }

  // ---------------------------------------------------------------- removal

  /** `id` is gone, or goes as soon as its process has ended. */
  ghost predicate Leaving(w: World, id: nat) {
    id < w.nextId && (id in w.services ==> w.services[id].pending == Remove)
  }

  lemma LeavingMove(w: World, e: Event, w': World, id: nat)
    requires LocalStep(w, e, w', id) && Leaving(w, id) && !e.Hangup?
    ensures Leaving(w', id) && Forks(w'.history, id) == Forks(w.history, id)
    ensures e.Timer? && id in w.services && w.services[id].IsStopped() ==> id !in w'.services
    ensures id !in w.services ==> id !in w'.services
  {
    assert id in w'.services <==> Entry(w', id).Some?;
  }

  lemma LeavingStep(w: World, e: Event, id: nat)
    requires Inv(w) && Possible(w, e) && Leaving(w, id) && !e.Hangup?
    ensures Leaving(Step(w, e), id)
    ensures Forks(Step(w, e).history, id) == Forks(w.history, id)
    ensures e.Timer? && id in w.services && w.services[id].IsStopped() ==> id !in Step(w, e).services
    ensures id !in w.services ==> id !in Step(w, e).services
  {
    StepAt(w, e, id);
    LeavingMove(w, e, Step(w, e), id);
  }

  /** With Remove pending and no further reload, nothing forks the service again... */
  lemma {:induction false} RemovalIsFinal(w: World, es: seq<Event>, id: nat)
    requires Inv(w) && Feasible(w, es) && Leaving(w, id) && forall e | e in es :: !e.Hangup?
    ensures Leaving(Run(w, es), id) && Forks(Run(w, es).history, id) == Forks(w.history, id)
    ensures id !in w.services ==> id !in Run(w, es).services
  {
    if es != [] {
      RemovalIsFinal(w, es[..|es| - 1], id);
      RunInv(w, es[..|es| - 1]);
      LeavingStep(Run(w, es[..|es| - 1]), es[|es| - 1], id);
    }
  }

  /** ... and it leaves the registry at the first tick after its process is reaped. */
  lemma RemovedAtFirstTick(w: World, es: seq<Event>, id: nat)
    requires Inv(w) && Leaving(w, id) && forall e | e in es :: !e.Hangup?
    requires es != [] && es[|es| - 1].Timer? && Feasible(w, es)
    requires Reaps(Run(w, es[..|es| - 1]).history, id) == Forks(w.history, id)
    ensures id !in Run(w, es).services
  {
    var w1 := Run(w, es[..|es| - 1]);
    RunInv(w, es[..|es| - 1]);
    RemovalIsFinal(w, es[..|es| - 1], id);
    ForksMinusReaps(w1.history, id);
    LeavingStep(w1, es[|es| - 1], id);
  }

  // ---------------------------------------------------------------- stopped services stay down

  /** Stopped by the supervisor, or about to be, with nothing pending. */
  ghost predicate Down(w: World, id: nat) {
    && id in w.services && w.services[id].pending == NoAction
    && (w.services[id].state.Stopping? ||
        (w.services[id].IsStopped() && w.services[id].state.reason.SupervisorTerminated?))
  }

  /** No reload, no command that starts `id`, no crash of its process. */
  ghost predicate LeavesDown(w: World, e: Event, id: nat) {
    match e
    case Hangup(_, _, _, _, _) => false
    case Command(target, op, _) => target != id || op == Stop
    case ChildSignal(order, _) => Ending(w, id, order).Some? ==> !IsCrash(Ending(w, id, order).value)
    case _ => true
  }

  ghost predicate AllLeaveDown(w: World, es: seq<Event>, id: nat)
    requires Feasible(w, es)
  {
    es == [] || (AllLeaveDown(w, es[..|es| - 1], id) && LeavesDown(Run(w, es[..|es| - 1]), es[|es| - 1], id))
  }

  lemma DownMove(w: World, e: Event, w': World, id: nat)
    requires LocalStep(w, e, w', id) && Down(w, id) && LeavesDown(w, e, id)
    ensures Down(w', id) && Forks(w'.history, id) == Forks(w.history, id)
  {
    assert id in w'.services <==> Entry(w', id).Some?;
  }

  lemma DownStep(w: World, e: Event, id: nat)
    requires Inv(w) && Possible(w, e) && Down(w, id) && LeavesDown(w, e, id)
    ensures Down(Step(w, e), id) && Forks(Step(w, e).history, id) == Forks(w.history, id)
  {
    StepAt(w, e, id);
    DownMove(w, e, Step(w, e), id);
  }

  /** A service stopped by the supervisor stays down, whatever its `on_exit`. */
  lemma {:induction false} StoppedStaysDown(w: World, es: seq<Event>, id: nat)
    requires Inv(w) && Feasible(w, es) && Down(w, id) && AllLeaveDown(w, es, id)
    ensures Down(Run(w, es), id) && Forks(Run(w, es).history, id) == Forks(w.history, id)
  {
    if es != [] {
      StoppedStaysDown(w, es[..|es| - 1], id);
      RunInv(w, es[..|es| - 1]);
      DownStep(Run(w, es[..|es| - 1]), es[|es| - 1], id);
    }
  }

  /**
   The README promises that `on_exit` is not taken for a service the supervisor stops. The code
   keeps the promise except for a process that answers the stop signal by crashing.
   */
  lemma FallbackAfterStopIff(s: Service, end: ExitReason)
    requires s.state.Stopping? && s.pending == NoAction
    ensures DueAction(AfterEnd(s, Some(end))) == s.config.onExit <==> IsCrash(end) || s.config.onExit == NoAction
    ensures !IsCrash(end) ==> DueAction(AfterEnd(s, Some(end))) == NoAction
  {
  }

  // ---------------------------------------------------------------- control requests

  ghost predicate OnlyRequests(es: seq<Event>) {
    forall e | e in es :: e.Command? || e.ChildSignal? || e.Reported? || e.Elapsed?
  }

  /** Requests never override or clear a pending action; the only one they set is Restart. */
  ghost predicate Respects(w: World, w': World, id: nat) {
    && (id in w'.services <==> id in w.services)
    && (id in w.services ==>
          && (w.services[id].pending != NoAction ==>
                w'.services[id].pending == w.services[id].pending && Forks(w'.history, id) == Forks(w.history, id))
          && (w.services[id].pending == NoAction ==> w'.services[id].pending in {NoAction, Restart}))
  }

  lemma RequestMove(w: World, e: Event, w': World, id: nat)
    requires LocalStep(w, e, w', id)
    requires e.Command? || e.ChildSignal? || e.Reported? || e.Elapsed?
    ensures Respects(w, w', id)
    ensures Forks(w'.history, id) > Forks(w.history, id) ==>
            e.Command? && e.target == id && id in w.services && Starts(w.services[id], e.op)
  {
    assert id in w'.services <==> Entry(w', id).Some?;
  }

  lemma RequestStep(w: World, e: Event, id: nat)
    requires Inv(w) && Possible(w, e) && OnlyRequests([e])
    ensures Respects(w, Step(w, e), id)
    ensures Forks(Step(w, e).history, id) > Forks(w.history, id) ==>
            e.Command? && e.target == id && id in w.services && Starts(w.services[id], e.op)
  {
    assert e in [e];
    StepAt(w, e, id);
    RequestMove(w, e, Step(w, e), id);
  }

  lemma {:induction false} RequestsRespectPending(w: World, es: seq<Event>, id: nat)
    requires Inv(w) && Feasible(w, es) && OnlyRequests(es)
    ensures Respects(w, Run(w, es), id)
  {
    if es != [] {
      var last := es[|es| - 1];
      RequestsRespectPending(w, es[..|es| - 1], id);
      RunInv(w, es[..|es| - 1]);
      assert last in es;
      RequestStep(Run(w, es[..|es| - 1]), last, id);
    }
  }
}
