/**
 Runs, from startup, that reach the cases in which a claim one would like to make does not hold: each
 is the failing side of a theorem of Boundaries, Executions, Signals, Convergence, Runs or Shutdowns.
 They all start from two running services "a" and "b" and differ in what happens to "a".
 */
module Witnesses {
  import opened Types
  import opened Histories
  import opened Steps
  import opened Invariants
  import opened Lifecycles
  import opened Executions
  import opened Signals
  import opened Shutdowns

  const DEFINITION := ServiceConfig("s", [], None, None, None, None, Restart, SigTerm, 5000)
  const DUE: nat := 5_000_000_000

  function Example(id: nat, state: ServiceState, pending: Action): Service
    requires id < 2
  {
    Service(id, ["a", "b"][id], DEFINITION, ["s"], None, state, pending)
  }

  function ExampleWorld(a: Service, b: Service, pids: map<nat, nat>, phase: Phase, waitable: map<nat, WaitStatus>,
                        history: History): World
  {
    World(map[0 := a, 1 := b], pids, 2, phase, Looping, 0, waitable, history)
  }

  /** "b" runs undisturbed; "a" is in the state given, with its pid off the map if it has ended. */
  function Both(a: Service, history: History): World {
    ExampleWorld(a, Example(1, Running(7), NoAction), if a.IsStopped() then map[7 := 1] else map[5 := 0, 7 := 1],
                 Serving, map[], history)
  }

  // ---------------------------------------------------------------- startup

  const FORKED := Then(Then(Origin, Forked(0, 5, ["s"], None, DEFINITION, 0)), Forked(1, 7, ["s"], None, DEFINITION, 0))
  const LOADED := World(map[0 := Example(0, Stopped(NeverStarted), NoAction),
                            1 := Example(1, Stopped(NeverStarted), NoAction)],
                        map[], 2, Serving, Looping, 0, map[], Origin)
  const RUNNING := Both(Example(0, Running(5), NoAction), FORKED)
  const CONFIG: map<string, ServiceConfig> := map["a" := DEFINITION, "b" := DEFINITION]
  const FIRST_STARTS: map<nat, Answer> := map[0 := Answer(true, 5, 0), 1 := Answer(true, 7, 0)]

  lemma ExampleBuilds()
    ensures Argv(DEFINITION) == Some(["s"]) && Envp(DEFINITION) == Some(DEFINITION.env) && DEFINITION.env == None
  {
    var c := DEFINITION;
    assert c.command == "s" && c.args == [] && c.env == None;
    assert [c.command] + c.args == ["s"] && !HasNul("s");
  }

  const A_LOADED := LOADED.(services := map[0 := Example(0, Stopped(NeverStarted), NoAction)], nextId := 1)

  lemma ExampleLoads()
    ensures InsertOne(Blank(0, map[]), "a", DEFINITION) == Outcome(A_LOADED, true)
    ensures InsertOne(A_LOADED, "b", DEFINITION) == Outcome(LOADED, true)
  {
    ExampleBuilds();
    assert InsertOne(A_LOADED, "b", DEFINITION).world.services == LOADED.services;
  }

  lemma InsertsInTurn(w: World, config: map<string, ServiceConfig>, m: string, n: string, w1: World, w2: World)
    requires m in config && n in config
    requires InsertOne(w, m, config[m]) == Outcome(w1, true) && InsertOne(w1, n, config[n]) == Outcome(w2, true)
    ensures InsertAll(w, config, [m, n]) == Outcome(w2, true)
  {
    assert [m, n][..1] == [m] && [m][..0] == [];
    assert InsertAll(w, config, []) == Outcome(w, true);
    assert InsertAll(w, config, [m]) == Outcome(w1, true);
  }

  const A_RUNNING := LOADED.(services := map[0 := Example(0, Running(5), NoAction),
                                             1 := Example(1, Stopped(NeverStarted), NoAction)],
                             pids := map[5 := 0], history := Then(Origin, Forked(0, 5, ["s"], None, DEFINITION, 0)))

  lemma StartsInTurn(w: World, i: nat, j: nat, answers: map<nat, Answer>)
    ensures StartAll(w, [i, j], answers) == StartOne(StartOne(w, i, Ask(answers, i)), j, Ask(answers, j))
  {
    assert [i, j][..1] == [i] && [i][..0] == [];
    assert StartAll(w, [], answers) == w;
    assert StartAll(w, [i], answers) == StartOne(w, i, Ask(answers, i));
  }

  lemma ExampleStartsA()
    ensures StartOne(LOADED, 0, Answer(true, 5, 0)) == A_RUNNING
  {
    assert StartOne(LOADED, 0, Answer(true, 5, 0)).services == A_RUNNING.services;
  }

  lemma ExampleStartsB()
    ensures StartOne(A_RUNNING, 1, Answer(true, 7, 0)) == RUNNING
  {
    assert StartOne(A_RUNNING, 1, Answer(true, 7, 0)).services == RUNNING.services;
    assert StartOne(A_RUNNING, 1, Answer(true, 7, 0)).pids == RUNNING.pids;
  }

  lemma BootedWithTwo(config: map<string, ServiceConfig>, m: string, n: string, w1: World, loaded: World,
                      i: nat, j: nat, answers: map<nat, Answer>)
    requires m != n && config.Keys == {m, n}
    requires InsertOne(Blank(0, map[]), m, config[m]) == Outcome(w1, true)
    requires InsertOne(w1, n, config[n]) == Outcome(loaded, true)
    requires i != j && loaded.services.Keys == {i, j} && Admissible(loaded, answers)
    ensures Booted(StartOne(StartOne(loaded, i, Ask(answers, i)), j, Ask(answers, j)))
  {
    InsertsInTurn(Blank(0, map[]), config, m, n, w1, loaded);
    StartsInTurn(loaded, i, j, answers);
    assert Enumerates([m, n], config.Keys) && Enumerates([i, j], loaded.services.Keys);
    assert Boots(StartAll(loaded, [i, j], answers), 0, map[], config, [m, n], [i, j], answers);
  }

  lemma ExampleAdmissible()
    ensures Admissible(LOADED, FIRST_STARTS) && LOADED.services.Keys == {0, 1}
  {
    assert Alive(LOADED.history) == map[];
  }

  lemma ExampleBoots()
    ensures Booted(RUNNING)
  {
    ExampleLoads();
    ExampleAdmissible();
    BootedWithTwo(CONFIG, "a", "b", A_LOADED, LOADED, 0, 1, FIRST_STARTS);
    ExampleStartsA();
    ExampleStartsB();
  }

  lemma BootedReachable(b: World)
    requires Booted(b)
    ensures Reachable(b)
  {
    assert Feasible(b, []) && Run(b, []) == b;
  }

  lemma OneEvent(w: World, e: Event)
    requires Possible(w, e)
    ensures Feasible(w, [e]) && Run(w, [e]) == Step(w, e)
  {
    var es := [e];
    assert es[..|es| - 1] == [];
    assert Feasible(w, []) && Run(w, []) == w;
  }

  lemma ReachableStep(w: World, e: Event)
    requires Reachable(w) && Possible(w, e)
    ensures Reachable(Step(w, e))
  {
    var b, es :| Booted(b) && Feasible(b, es) && w == Run(b, es);
    OneEvent(w, e);
    RunAppend(b, es, [e]);
    assert Run(b, es + [e]) == Step(w, e);
  }

  // ---------------------------------------------------------------- events that concern "a" only

  lemma PutFirst(w: World, a: Service)
    requires w.services.Keys == {0, 1}
    ensures Put(w, 0, a) == w.(services := map[0 := a, 1 := w.services[1]])
  {
    assert w.services[0 := a] == map[0 := a, 1 := w.services[1]];
  }

  ghost predicate Leads(w: World, e: Event, w': World) {
    Possible(w, e) && Step(w, e) == w'
  }

  lemma LeadsOn(w: World, e: Event, w': World)
    requires Reachable(w) && Leads(w, e, w')
    ensures Reachable(w')
  {
    ReachableStep(w, e);
  }

  /** `w2` is `w` after the process of "a" has ended and was reaped. */
  ghost predicate LeadsByReap(w: World, exit: ExitReason, w2: World) {
    && Leads(w, Reported(5, Ended(exit)), w.(waitable := map[5 := Ended(exit)]))
    && Leads(w.(waitable := map[5 := Ended(exit)]), ChildSignal([5], false), w2)
  }

  lemma ReapsOnly(w: World, pid: nat, w': World)
    requires w.exit.Looping? && w.waitable.Keys == {pid}
    requires ReapOne(w, pid) == w' && LeaveIfDone(w') == w'
    ensures Leads(w, ChildSignal([pid], false), w')
  {
    assert [pid][..0] == [];
    assert ReapAll(w, []) == w;
    assert ReapAll(w, [pid]) == ReapOne(w, pid);
  }

  lemma Ends(w: World, pid: nat, exit: ExitReason)
    requires w.exit.Looping? && w.waitable == map[]
    ensures Leads(w, Reported(pid, Ended(exit)), w.(waitable := map[pid := Ended(exit)]))
  {
  }

  lemma StaysIn(w: World)
    requires 1 in w.services && !w.services[1].IsStopped()
    ensures LeaveIfDone(w) == w
  {
  }

  lemma ReapsFirst(a: Service, b: Service, phase: Phase, h: History, exit: ExitReason, w2: World)
    requires a.Pid() == Some(5) && Alive(h) == map[5 := 0, 7 := 1]
    requires w2 == ExampleWorld(a.(state := Stopped(ReasonFor(exit, a.state))), b, map[7 := 1], phase, map[],
                                Then(h, Reaped(0, 5, exit, 0)))
    ensures ReapOne(ExampleWorld(a, b, map[5 := 0, 7 := 1], phase, map[5 := Ended(exit)], h), 5) == w2
  {
    var w1 := ExampleWorld(a, b, map[5 := 0, 7 := 1], phase, map[5 := Ended(exit)], h);
    assert w1.services[0 := a.(state := Stopped(ReasonFor(exit, a.state)))] == w2.services;
    assert w1.pids - {5} == w2.pids && w1.waitable - {5} == w2.waitable;
  }

  /** The process of "a" ends and is reaped. */
  lemma FirstReaped(a: Service, b: Service, phase: Phase, h: History, exit: ExitReason, w: World, w2: World)
    requires a.Pid() == Some(5) && !b.IsStopped() && Alive(h) == map[5 := 0, 7 := 1]
    requires w == ExampleWorld(a, b, map[5 := 0, 7 := 1], phase, map[], h)
    requires w2 == ExampleWorld(a.(state := Stopped(ReasonFor(exit, a.state))), b, map[7 := 1], phase, map[],
                                Then(h, Reaped(0, 5, exit, 0)))
    ensures LeadsByReap(w, exit, w2)
  {
    ReapsFirst(a, b, phase, h, exit, w2);
    StaysIn(w2);
    ReapsOnly(w.(waitable := map[5 := Ended(exit)]), 5, w2);
    Ends(w, 5, exit);
  }

  lemma ReapedReachable(w: World, exit: ExitReason, w2: World)
    requires Reachable(w) && LeadsByReap(w, exit, w2)
    ensures Reachable(w2)
  {
    LeadsOn(w, Reported(5, Ended(exit)), w.(waitable := map[5 := Ended(exit)]));
    LeadsOn(w.(waitable := map[5 := Ended(exit)]), ChildSignal([5], false), w2);
  }

  lemma RunningReachable()
    ensures Reachable(RUNNING)
  {
    ExampleBoots();
    BootedReachable(RUNNING);
  }

  lemma TicksInTurn(w: World, answers: map<nat, Answer>, w1: World)
    requires TickOne(w, 0, 0, Ask(answers, 0)) == w1
    ensures TickAll(w, 0, [0, 1], answers) == TickOne(w1, 0, 1, Ask(answers, 1))
  {
    assert [0, 1][..1] == [0] && [0][..0] == [];
    assert TickAll(w, 0, [], answers) == w;
    assert TickAll(w, 0, [0], answers) == w1;
  }

  /** The timer ticks while "a" is stopped. */
  lemma FirstTicks(a: Service, b: Service, phase: Phase, h: History, answer: Answer, w: World)
    requires a.IsStopped() && !b.IsStopped() && Alive(h) == map[7 := 1] && answer.pid == 9
    requires b.state.Stopping? ==> b.state.deadline > 0
    requires w == ExampleWorld(a, b, map[7 := 1], phase, map[], h)
    ensures Leads(w, Timer([0, 1], map[0 := answer]), TickOne(w, 0, 0, answer))
  {
    var w1 := TickOne(w, 0, 0, answer);
    TicksInTurn(w, map[0 := answer], w1);
    TickOneAt(w, 0, 0, answer, 1);
    assert Entry(w1, 1) == Some(b);
    TickPasses(w1, 1, Ask(map[0 := answer], 1));
  }

  lemma TickPasses(w: World, id: nat, a: Answer)
    requires id in w.services && !w.services[id].IsStopped() && !Overdue(w.services[id], 0)
    ensures TickOne(w, 0, id, a) == w
  {
  }

  /** A reload whose configuration says of "b" what is already the case. */
  function Rereads(config: map<string, ServiceConfig>, answer: Answer): Event {
    Hangup(Some(config), [0, 1], ["a", "b"], if "a" in config then ["a", "b"] else ["b"], map["a" := answer])
  }

  lemma IndexOfTwo(a: Service, b: Service)
    requires a.name == "a" && b.name == "b"
    ensures Index(map[0 := a, 1 := b], [0, 1]) == map["a" := 0, "b" := 1]
  {
    var services := map[0 := a, 1 := b];
    assert [0, 1][..1] == [0] && [0][..0] == [];
    assert Index(services, []) == map[];
    assert Index(services, [0]) == map["a" := 0];
  }

  lemma TwoRemovals(w: World, config: map<string, ServiceConfig>, answers: map<string, Answer>)
    requires "b" in config
    ensures RemoveAll(w, config, map["a" := 0, "b" := 1], ["a", "b"], answers) ==
            RemoveOne(w, config, "a", 0, Ask(answers, "a"))
  {
    var ids := map["a" := 0, "b" := 1];
    assert ["a", "b"][..1] == ["a"] && ["a"][..0] == [];
    assert RemoveAll(w, config, ids, [], answers) == Outcome(w, true);
    assert RemoveAll(w, config, ids, ["a"], answers) == RemoveOne(w, config, "a", 0, Ask(answers, "a"));
  }

  lemma OneApplied(w: World, config: map<string, ServiceConfig>, answers: map<string, Answer>)
    requires config.Keys == {"b"} && 1 in w.services && w.services[1].config == config["b"]
    ensures ApplyAll(w, config, map["a" := 0, "b" := 1], ["b"], answers) == Outcome(w, true)
  {
    assert ["b"][..0] == [];
    assert ApplyAll(w, config, map["a" := 0, "b" := 1], [], answers) == Outcome(w, true);
  }

  lemma TwoApplied(w: World, config: map<string, ServiceConfig>, answers: map<string, Answer>)
    requires config.Keys == {"a", "b"} && 1 in w.services && w.services[1].config == config["b"]
    ensures ApplyAll(w, config, map["a" := 0, "b" := 1], ["a", "b"], answers) ==
            ReviseOne(w, 0, config["a"], Ask(answers, "a"))
  {
    var ids := map["a" := 0, "b" := 1];
    assert ["a", "b"][..1] == ["a"] && ["a"][..0] == [];
    assert ApplyAll(w, config, ids, [], answers) == Outcome(w, true);
    assert ApplyAll(w, config, ids, ["a"], answers) == ReviseOne(w, 0, config["a"], Ask(answers, "a"));
  }

  lemma RereadsPossible(a: Service, h: History, config: map<string, ServiceConfig>, answer: Answer)
    requires a.name == "a" && "b" in config && config.Keys <= {"a", "b"}
    requires FreshPid(Both(a, h), answer.pid)
    ensures Possible(Both(a, h), Rereads(config, answer))
  {
    IndexOfTwo(a, Both(a, h).services[1]);
    assert "a" in config ==> config.Keys == {"a", "b"};
    assert "a" !in config ==> config.Keys == {"b"};
  }

  function Rereading(w: World, e: Event): Outcome
    requires Possible(w, e) && e.Hangup? && e.config.Some?
  {
    Reload(w, e.config.value, e.scan, e.removal, e.applied, e.byName)
  }

  lemma FirstReloaded(a: Service, h: History, config: map<string, ServiceConfig>, answer: Answer)
    requires a.name == "a" && "b" in config && config.Keys <= {"a", "b"} && config["b"] == DEFINITION
    requires FreshPid(Both(a, h), answer.pid)
    requires "a" !in config ==> RemoveOne(Both(a, h), config, "a", 0, answer).ok
    ensures var o := if "a" in config then ReviseOne(Both(a, h), 0, config["a"], answer)
                     else RemoveOne(Both(a, h), config, "a", 0, answer);
      Leads(Both(a, h), Rereads(config, answer), o.world) && Rereading(Both(a, h), Rereads(config, answer)) == o
  {
    var w := Both(a, h);
    var e := Rereads(config, answer);
    RereadsPossible(a, h, config, answer);
    IndexOfTwo(a, w.services[1]);
    TwoRemovals(w, config, e.byName);
    if "a" in config {
      assert config.Keys == {"a", "b"};
      TwoApplied(w, config, e.byName);
    } else {
      assert config.Keys == {"b"};
      OneApplied(RemoveOne(w, config, "a", 0, answer).world, config, e.byName);
    }
  }

  const STOPPED_A := Then(FORKED, StopSent(0, 5, SigTerm, 5000, 0, DUE))
  const REAPED_A := Then(STOPPED_A, Reaped(0, 5, Signaled(15), 0))
  const FAILS := Answer(false, 9, 0)
  const WORKS := Answer(true, 9, 0)
  const TICK := Timer([0, 1], map[0 := WORKS])
  const B_RUNNING := Example(1, Running(7), NoAction)

  // ---------------------------------------------------------------- a process that executes a rejected definition

  const REJECTED := DEFINITION.(command := "t", env := Some(map["K" := "\0"]))
  const STALE := Example(0, Running(5), NoAction).(argv := ["t"])
  const STALE_ENDED := Both(STALE.(state := Stopped(Success)), Then(FORKED, Reaped(0, 5, Exited(0), 0)))

  lemma RejectedHalfWay()
    ensures Argv(REJECTED) == Some(["t"]) && Envp(REJECTED) == None && Argv(DEFINITION) == Some(["s"])
  {
    ExampleBuilds();
    var c := REJECTED;
    assert c.command == "t" && c.args == [] && [c.command] + c.args == ["t"] && !HasNul("t");
    assert "K" in c.env.value && c.env.value["K"] == "\0" && "\0"[0] == '\0';
  }

  const REREAD_REJECTED := Rereads(CONFIG["a" := REJECTED], FAILS)

  lemma StaleSteps()
    ensures Leads(RUNNING, REREAD_REJECTED, Both(STALE, FORKED))
  {
    RejectedHalfWay();
    FirstReloaded(Example(0, Running(5), NoAction), FORKED, CONFIG["a" := REJECTED], FAILS);
    PutFirst(RUNNING, STALE);
  }

  lemma StaleEnds()
    ensures LeadsByReap(Both(STALE, FORKED), Exited(0), STALE_ENDED)
  {
    FirstReaped(STALE, B_RUNNING, Serving, FORKED, Exited(0), Both(STALE, FORKED), STALE_ENDED);
  }

  lemma StaleReachable()
    ensures Reachable(Both(STALE, FORKED)) && Reachable(STALE_ENDED)
  {
    RunningReachable();
    StaleSteps();
    LeadsOn(RUNNING, REREAD_REJECTED, Both(STALE, FORKED));
    StaleEnds();
    ReapedReachable(Both(STALE, FORKED), Exited(0), STALE_ENDED);
  }

  const REJECTED_EXECUTED := TickOne(STALE_ENDED, 0, 0, WORKS)

  lemma RejectedArgvSteps()
    ensures Leads(STALE_ENDED, TICK, REJECTED_EXECUTED)
    ensures LatestFork(REJECTED_EXECUTED.history, 0) == Some(Forked(0, 9, ["t"], None, DEFINITION, 0))
    ensures !ArgvAgrees(STALE_ENDED) && !ArgvFaithful(REJECTED_EXECUTED.history)
  {
    RejectedHalfWay();
    FirstTicks(STALE_ENDED.services[0], B_RUNNING, Serving, STALE_ENDED.history, WORKS, STALE_ENDED);
    assert !Agrees(STALE_ENDED.services[0]);
  }

  /**
   "Every process executes the argv of its definition" does not hold: a reload rejects a new definition
   because of its environment, the running process ends by itself, and the next tick, taking `on_exit`,
   forks the command of the definition that was rejected, under the one that was kept.
   */
  lemma RejectedArgvExecuted()
    ensures Leads(RUNNING, REREAD_REJECTED, Both(STALE, FORKED)) && Leads(STALE_ENDED, TICK, REJECTED_EXECUTED)
    ensures Reachable(STALE_ENDED) && Reachable(REJECTED_EXECUTED)
    ensures LatestFork(REJECTED_EXECUTED.history, 0) == Some(Forked(0, 9, ["t"], None, DEFINITION, 0))
    ensures Argv(DEFINITION) == Some(["s"])
    ensures !ArgvAgrees(STALE_ENDED) && !ArgvFaithful(REJECTED_EXECUTED.history)
  {
    StaleSteps();
    StaleReachable();
    RejectedArgvSteps();
    RejectedHalfWay();
    LeadsOn(STALE_ENDED, TICK, REJECTED_EXECUTED);
  }

  // ---------------------------------------------------------------- a process stopped by another definition

  const QUICK := DEFINITION.(stopSignal := SigInt, stopTimeoutMs := 1)
  const QUICK_STOP := StopSent(0, 5, SigInt, 1, 0, 1_000_000)
  const QUICKLY := Both(Example(0, Stopping(5, 1_000_000), Restart).(config := QUICK), Then(FORKED, QUICK_STOP))
  const REREAD_QUICK := Rereads(CONFIG["a" := QUICK], WORKS)

  /** Definitions that differ from the first one only in how they stop a process can be built. */
  lemma SameCommand(c: ServiceConfig)
    requires c.command == "s" && c.args == [] && c.env == None
    ensures Argv(c) == Some(["s"]) && Envp(c) == Some(None) && Buildable(c)
  {
    assert [c.command] + c.args == ["s"] && !HasNul("s");
  }

  lemma QuickRevises()
    ensures ReviseOne(RUNNING, 0, QUICK, WORKS) == Outcome(QUICKLY, true)
  {
    SameCommand(QUICK);
    var s := Example(0, Running(5), NoAction).(config := QUICK);
    assert UpdateConfig(RUNNING.services[0], QUICK) == (s, true);
    PutFirst(RUNNING, QUICKLY.services[0]);
  }

  lemma QuickSteps()
    ensures Leads(RUNNING, REREAD_QUICK, QUICKLY)
  {
    QuickRevises();
    FirstReloaded(Example(0, Running(5), NoAction), FORKED, CONFIG["a" := QUICK], WORKS);
  }

  lemma QuickMisfits()
    ensures LatestFork(QUICKLY.history, 0) == Some(Forked(0, 5, ["s"], None, DEFINITION, 0))
    ensures LatestStop(QUICKLY.history, 0) == Some(QUICK_STOP)
    ensures !StopsFit(QUICKLY.history)
  {
  }

  /**
   "The running process continues with the old config until it exits" does not hold of how it is
   stopped: forked for a definition with SIGTERM and 5 seconds, it gets SIGINT and 1 millisecond.
   */
  lemma StoppedByOtherDefinition()
    ensures Leads(RUNNING, REREAD_QUICK, QUICKLY) && Reachable(QUICKLY)
    ensures LatestFork(QUICKLY.history, 0) == Some(Forked(0, 5, ["s"], None, DEFINITION, 0))
    ensures LatestStop(QUICKLY.history, 0) == Some(QUICK_STOP)
    ensures !StopsFit(QUICKLY.history)
  {
    RunningReachable();
    QuickSteps();
    QuickMisfits();
    LeadsOn(RUNNING, REREAD_QUICK, QUICKLY);
  }

  // ---------------------------------------------------------------- an old process that a reload leaves running

  const CHANGED := CONFIG["a" := DEFINITION.(stopTimeoutMs := 1)]
  const OLD_LEFT := Both(Example(0, Running(5), Restart).(config := CHANGED["a"]), FORKED)

  lemma OldRevises()
    ensures ReviseOne(RUNNING, 0, CHANGED["a"], FAILS) == Outcome(OLD_LEFT, false)
  {
    SameCommand(CHANGED["a"]);
    var s := Example(0, Running(5), NoAction).(config := CHANGED["a"]);
    assert UpdateConfig(RUNNING.services[0], CHANGED["a"]) == (s, true);
    PutFirst(RUNNING, OLD_LEFT.services[0]);
  }

  lemma OldSteps()
    ensures Leads(RUNNING, Rereads(CHANGED, FAILS), OLD_LEFT)
  {
    OldRevises();
    FirstReloaded(Example(0, Running(5), NoAction), FORKED, CHANGED, FAILS);
  }

  lemma OldStays()
    ensures Leads(OLD_LEFT, Rereads(CHANGED, WORKS), OLD_LEFT) && Rereading(OLD_LEFT, Rereads(CHANGED, WORKS)).ok
  {
    FirstReloaded(OLD_LEFT.services[0], FORKED, CHANGED, WORKS);
  }

  /**
   A reload fails to stop the process of a changed service. Repeated, it returns Ok and does nothing, and
   the process forked for the old definition runs on under the new one.
   */
  lemma OldProcessKept()
    ensures Leads(RUNNING, Rereads(CHANGED, FAILS), OLD_LEFT) && Reachable(OLD_LEFT)
    ensures Leads(OLD_LEFT, Rereads(CHANGED, WORKS), OLD_LEFT) && Rereading(OLD_LEFT, Rereads(CHANGED, WORKS)).ok
    ensures OLD_LEFT.services[0].state.Running? && OLD_LEFT.services[0].config == CHANGED["a"]
    ensures LatestFork(OLD_LEFT.history, 0) == Some(Forked(0, 5, ["s"], None, DEFINITION, 0))
    ensures DEFINITION != CHANGED["a"]
  {
    RunningReachable();
    OldSteps();
    OldStays();
    OldFacts();
    LeadsOn(RUNNING, Rereads(CHANGED, FAILS), OLD_LEFT);
  }

  lemma OldFacts()
    ensures OLD_LEFT.services[0].state.Running? && OLD_LEFT.services[0].config == CHANGED["a"]
    ensures LatestFork(OLD_LEFT.history, 0) == Some(Forked(0, 5, ["s"], None, DEFINITION, 0))
    ensures DEFINITION != CHANGED["a"]
  {
    assert CHANGED["a"].stopTimeoutMs != DEFINITION.stopTimeoutMs;
  }

  // ---------------------------------------------------------------- a removal that a later reload does not undo

  const REMOVING := Both(Example(0, Stopping(5, DUE), Remove), STOPPED_A)
  const REREAD_WITHOUT := Rereads(map["b" := DEFINITION], WORKS)
  const REREAD_SAME := Rereads(CONFIG, WORKS)

  lemma RemovingRetires()
    ensures RemoveOne(RUNNING, map["b" := DEFINITION], "a", 0, WORKS) == Outcome(REMOVING, true)
  {
    PutFirst(RUNNING, REMOVING.services[0]);
  }

  lemma RemovingSteps()
    ensures Leads(RUNNING, REREAD_WITHOUT, REMOVING)
  {
    RemovingRetires();
    FirstReloaded(Example(0, Running(5), NoAction), FORKED, map["b" := DEFINITION], WORKS);
  }

  lemma RemovingStays()
    ensures Leads(REMOVING, REREAD_SAME, REMOVING)
  {
    FirstReloaded(Example(0, Stopping(5, DUE), Remove), STOPPED_A, CONFIG, WORKS);
  }

  /**
   A service taken out of the configuration and put back unchanged, while it is stopping, is still to be
   removed: the second reload changes nothing.
   */
  lemma RemovalOutlivesReload()
    ensures Reachable(REMOVING) && Leads(REMOVING, REREAD_SAME, REMOVING)
    ensures REREAD_SAME.config == Some(CONFIG) && REMOVING.services[0].name in CONFIG
    ensures REMOVING.services[0].pending == Remove
  {
    RunningReachable();
    RemovingSteps();
    RemovingStays();
    LeadsOn(RUNNING, REREAD_WITHOUT, REMOVING);
  }

  // ---------------------------------------------------------------- running with something pending

  const PENDING := Both(Example(0, Stopped(SupervisorTerminated(Signaled(15))), Restart), REAPED_A)
  const RESTARTING := Both(Example(0, Stopping(5, DUE), Restart), STOPPED_A)
  const ASK_RESTART := Command(0, RestartOp, WORKS)
  const ASK_IN_VAIN := Command(0, RestartOp, FAILS)
  const STUCK := Both(Example(0, Running(5), Restart), FORKED)
  const CHANGED_STUCK := ReviseOne(PENDING, 0, CHANGED["a"], WORKS).world

  lemma RestartSteps()
    ensures Leads(RUNNING, ASK_RESTART, RESTARTING)
  {
    PutFirst(RUNNING, RESTARTING.services[0]);
  }

  lemma StuckSteps()
    ensures Leads(RUNNING, ASK_IN_VAIN, STUCK)
  {
    PutFirst(RUNNING, STUCK.services[0]);
  }

  lemma PendingSteps()
    ensures LeadsByReap(RESTARTING, Signaled(15), PENDING)
  {
    FirstReaped(RESTARTING.services[0], B_RUNNING, Serving, STOPPED_A, Signaled(15), RESTARTING, PENDING);
  }

  lemma PendingReachable()
    ensures Reachable(RESTARTING) && Reachable(PENDING)
  {
    RunningReachable();
    RestartSteps();
    LeadsOn(RUNNING, ASK_RESTART, RESTARTING);
    PendingSteps();
    ReapedReachable(RESTARTING, Signaled(15), PENDING);
  }

  lemma ChangedSteps()
    ensures Leads(PENDING, Rereads(CHANGED, WORKS), CHANGED_STUCK)
    ensures 0 in CHANGED_STUCK.services && CHANGED_STUCK.services[0].state == Running(9)
    ensures CHANGED_STUCK.services[0].pending == Restart
  {
    SameCommand(CHANGED["a"]);
    FirstReloaded(PENDING.services[0], REAPED_A, CHANGED, WORKS);
  }

  /** A reload that starts a stopped, changed service leaves the pending restart in force. */
  lemma RunningWithRestartPending()
    ensures Reachable(PENDING) && Leads(PENDING, Rereads(CHANGED, WORKS), CHANGED_STUCK) && Reachable(CHANGED_STUCK)
    ensures 0 in CHANGED_STUCK.services && CHANGED_STUCK.services[0].state == Running(9)
    ensures CHANGED_STUCK.services[0].pending == Restart
  {
    PendingReachable();
    ChangedSteps();
    LeadsOn(PENDING, Rereads(CHANGED, WORKS), CHANGED_STUCK);
  }

  /** A Restart command whose stop signal cannot be sent leaves the service running, with the restart pending. */
  lemma RestartCommandStuck()
    ensures Reachable(RUNNING) && Leads(RUNNING, ASK_IN_VAIN, STUCK) && Reachable(STUCK)
    ensures STUCK.services[0].state.Running? && STUCK.services[0].pending == Restart
  {
    RunningReachable();
    StuckSteps();
    LeadsOn(RUNNING, ASK_IN_VAIN, STUCK);
  }

  // ---------------------------------------------------------------- restarts lost and unexpected

  const TICK_IN_VAIN := Timer([0, 1], map[0 := FAILS])
  const LOST := Both(Example(0, Stopped(SupervisorTerminated(Signaled(15))), NoAction), REAPED_A)

  lemma LostIsTicked()
    ensures TickOne(PENDING, 0, 0, FAILS) == LOST
  {
    var s := Example(0, Stopped(SupervisorTerminated(Signaled(15))), Restart);
    DropsFirst(s, REAPED_A, FAILS);
  }

  lemma DropsFirst(s: Service, h: History, a: Answer)
    requires RestartDue(s) && !a.ok && a.elapsed == 0
    ensures TickOne(Both(s, h), 0, 0, a) == Both(s.(pending := NoAction), h)
  {
    TickDrops(Both(s, h), 0, a);
    PutFirst(Both(s, h), s.(pending := NoAction));
  }

  lemma PendingTicks(a: Answer)
    requires a.pid == 9
    ensures Leads(PENDING, Timer([0, 1], map[0 := a]), TickOne(PENDING, 0, 0, a))
  {
    FirstTicks(PENDING.services[0], B_RUNNING, Serving, REAPED_A, a, PENDING);
  }

  lemma LostSteps()
    ensures Leads(PENDING, TICK_IN_VAIN, LOST)
  {
    LostIsTicked();
    PendingTicks(FAILS);
  }

  lemma TickDrops(w: World, id: nat, a: Answer)
    requires id in w.services && RestartDue(w.services[id]) && !a.ok && a.elapsed == 0
    ensures TickOne(w, 0, id, a) == Put(w, id, w.services[id].(pending := NoAction))
  {
  }

  /** An explicit restart whose fork fails is forgotten: after the tick nothing is due any more. */
  lemma RestartLost()
    ensures Reachable(PENDING) && RestartDue(PENDING.services[0])
    ensures Leads(PENDING, TICK_IN_VAIN, LOST) && Reachable(LOST) && !RestartDue(LOST.services[0])
  {
    PendingReachable();
    LostSteps();
    LeadsOn(PENDING, TICK_IN_VAIN, LOST);
  }

  const STOPPING := Both(Example(0, Stopping(5, DUE), NoAction), STOPPED_A)
  const CRASHED := Both(Example(0, Stopped(Crashed(11)), NoAction), Then(STOPPED_A, Reaped(0, 5, Signaled(11), 0)))
  const ASK_STOP := Command(0, Stop, WORKS)
  const REVIVED := TickOne(CRASHED, 0, 0, WORKS)

  lemma StopSteps()
    ensures Leads(RUNNING, ASK_STOP, STOPPING)
  {
    PutFirst(RUNNING, STOPPING.services[0]);
  }

  lemma CrashSteps()
    ensures LeadsByReap(STOPPING, Signaled(11), CRASHED)
  {
    FirstReaped(STOPPING.services[0], B_RUNNING, Serving, STOPPED_A, Signaled(11), STOPPING, CRASHED);
  }

  lemma RevivedSteps()
    ensures Leads(CRASHED, TICK, REVIVED) && Forks(REVIVED.history, 0) == Forks(CRASHED.history, 0) + 1
  {
    FirstTicks(CRASHED.services[0], B_RUNNING, Serving, CRASHED.history, WORKS, CRASHED);
  }

  /** A service that was asked to stop and answered by crashing is started again, by its `on_exit`. */
  lemma RestartedAfterStop()
    ensures Reachable(STOPPING) && Reachable(CRASHED) && Leads(CRASHED, TICK, REVIVED) && Reachable(REVIVED)
    ensures Forks(REVIVED.history, 0) == Forks(CRASHED.history, 0) + 1
  {
    RunningReachable();
    StopSteps();
    LeadsOn(RUNNING, ASK_STOP, STOPPING);
    CrashSteps();
    ReapedReachable(STOPPING, Signaled(11), CRASHED);
    RevivedSteps();
    LeadsOn(CRASHED, TICK, REVIVED);
  }

  // ---------------------------------------------------------------- a restart after shutdown was requested

  const STOPPED_B := Then(STOPPED_A, StopSent(1, 7, SigTerm, 5000, 0, DUE))
  const B_STOPPING := Example(1, Stopping(7, DUE), NoAction)
  const CLOSING := ExampleWorld(Example(0, Stopping(5, DUE), Restart), B_STOPPING,
                                map[5 := 0, 7 := 1], ShuttingDown, map[], STOPPED_B)
  const HALF := ExampleWorld(Example(0, Stopped(SupervisorTerminated(Signaled(15))), Restart), B_STOPPING,
                             map[7 := 1], ShuttingDown, map[], Then(STOPPED_B, Reaped(0, 5, Signaled(15), 0)))
  const ASK_SHUTDOWN := Terminate([0, 1], map[1 := WORKS])

  lemma StopsInTurn(w: World, answers: map<nat, Answer>, w1: World, w2: World)
    requires StopOne(w, 0, Ask(answers, 0)) == w1 && StopOne(w1, 1, Ask(answers, 1)) == w2
    ensures StopAll(w, [0, 1], answers) == w2
  {
    assert [0, 1][..1] == [0] && [0][..0] == [];
    assert StopAll(w, [], answers) == w;
    assert StopAll(w, [0], answers) == w1;
  }

  lemma ClosingStops()
    ensures StopAll(RESTARTING.(phase := ShuttingDown), [0, 1], map[1 := WORKS]) == CLOSING
    ensures LeaveIfDone(CLOSING) == CLOSING
  {
    var w := RESTARTING.(phase := ShuttingDown);
    StopPasses(w, 0, Answer(false, 0, 0));
    ClosingStopsB();
    StopsInTurn(w, map[1 := WORKS], w, CLOSING);
    StaysIn(CLOSING);
  }

  lemma StopPasses(w: World, id: nat, a: Answer)
    requires id in w.services && w.services[id].state.Stopping?
    ensures StopOne(w, id, a) == w
  {
    assert w.services[id := w.services[id]] == w.services;
  }

  lemma ClosingStopsB()
    ensures StopOne(RESTARTING.(phase := ShuttingDown), 1, WORKS) == CLOSING
  {
    assert RESTARTING.services[1 := B_STOPPING] == CLOSING.services;
  }

  lemma ClosingPossible()
    ensures Possible(RESTARTING, ASK_SHUTDOWN)
  {
    assert Alive(STOPPED_A) == map[5 := 0, 7 := 1];
  }

  lemma ClosingSteps()
    ensures Leads(RESTARTING, ASK_SHUTDOWN, CLOSING)
  {
    ClosingStops();
    ClosingPossible();
  }

  lemma HalfIsNext()
    ensures LeadsByReap(CLOSING, Signaled(15), HALF)
  {
    FirstReaped(CLOSING.services[0], B_STOPPING, ShuttingDown, STOPPED_B, Signaled(15), CLOSING, HALF);
  }

  lemma HalfReachable()
    ensures Reachable(HALF)
  {
    PendingReachable();
    ClosingSteps();
    LeadsOn(RESTARTING, ASK_SHUTDOWN, CLOSING);
    HalfIsNext();
    ReapedReachable(CLOSING, Signaled(15), HALF);
  }

  const HALF_REVIVED := TickOne(HALF, 0, 0, WORKS)

  lemma HalfSteps()
    ensures Leads(HALF, TICK, HALF_REVIVED)
    ensures Forks(HALF_REVIVED.history, 0) == Forks(HALF.history, 0) + 1
    ensures 0 in HALF_REVIVED.services && HALF_REVIVED.services[0].state == Running(9)
  {
    FirstTicks(HALF.services[0], B_STOPPING, ShuttingDown, HALF.history, WORKS, HALF);
  }

  lemma NewLife(w: World, w': World, id: nat)
    requires id in w.services && w.services[id].IsStopped()
    requires id in w'.services && !w'.services[id].IsStopped()
    ensures !(Live(w') <= Live(w))
  {
    assert id in Live(w') && id !in Live(w);
  }

  /**
   Shutdown was requested and a service had already stopped, yet the next tick forks it again: a
   restart asked for before the shutdown is still pending, and the tick does not look at the phase.
   */
  lemma RestartAfterShutdown()
    ensures Reachable(HALF) && HALF.phase.ShuttingDown? && Leads(HALF, TICK, HALF_REVIVED) && Reachable(HALF_REVIVED)
    ensures Forks(HALF_REVIVED.history, 0) == Forks(HALF.history, 0) + 1
    ensures !(Live(HALF_REVIVED) <= Live(HALF))
  {
    HalfReachable();
    HalfSteps();
    NewLife(HALF, HALF_REVIVED, 0);
    LeadsOn(HALF, TICK, HALF_REVIVED);
  }

  // ---------------------------------------------------------------- a shutdown that waits without end

  const HUNG := ExampleWorld(Example(0, Running(5), NoAction), B_STOPPING, map[5 := 0, 7 := 1], ShuttingDown, map[],
                             Then(FORKED, StopSent(1, 7, SigTerm, 5000, 0, DUE)))

  lemma HungStops()
    ensures StopAll(RUNNING.(phase := ShuttingDown), [0, 1], map[1 := WORKS]) == HUNG
    ensures LeaveIfDone(HUNG) == HUNG
  {
    var w := RUNNING.(phase := ShuttingDown);
    HungFails();
    HungStopsB();
    StopsInTurn(w, map[1 := WORKS], w, HUNG);
    StaysIn(HUNG);
  }

  lemma HungFails()
    ensures StopOne(RUNNING.(phase := ShuttingDown), 0, Answer(false, 0, 0)) == RUNNING.(phase := ShuttingDown)
  {
    PutFirst(RUNNING.(phase := ShuttingDown), RUNNING.services[0]);
  }

  lemma HungStopsB()
    ensures StopOne(RUNNING.(phase := ShuttingDown), 1, WORKS) == HUNG
  {
    assert RUNNING.services[1 := B_STOPPING] == HUNG.services;
  }

  lemma HungSteps()
    ensures Leads(RUNNING, ASK_SHUTDOWN, HUNG)
  {
    HungStops();
    HungPossible();
  }

  lemma HungPossible()
    ensures Possible(RUNNING, ASK_SHUTDOWN)
  {
    assert Alive(FORKED) == map[5 := 0, 7 := 1];
  }

  lemma HungReachable()
    ensures Leads(RUNNING, ASK_SHUTDOWN, HUNG) && Reachable(HUNG)
  {
    RunningReachable();
    HungSteps();
    LeadsOn(RUNNING, ASK_SHUTDOWN, HUNG);
  }

  lemma HungFacts()
    ensures HUNG.phase.ShuttingDown? && HUNG.exit.Looping? && Kills(HUNG.history, 0) == 0
    ensures Entry(HUNG, 0) == Some(Example(0, Running(5), NoAction))
  {
  }

  /**
   One stop signal of the shutdown request fails, and shutdown waits for that service: as long as its
   process does not end and no command is sent for it, no event stops, kills or drops it.
   */
  lemma ShutdownHangs(es: seq<Event>)
    requires Feasible(HUNG, es) && AllLeftAlone(HUNG, es, 0)
    ensures Leads(RUNNING, ASK_SHUTDOWN, HUNG) && Reachable(HUNG)
    ensures Entry(Run(HUNG, es), 0) == Some(Example(0, Running(5), NoAction))
    ensures Kills(Run(HUNG, es).history, 0) == 0 && !Run(HUNG, es).exit.ExitedOk?
  {
    HungReachable();
    HungFacts();
    ShutdownWaitsFor(HUNG, es, 0, Example(0, Running(5), NoAction));
  }

  lemma ShutdownWaitsFor(w: World, es: seq<Event>, id: nat, s: Service)
    requires Reachable(w) && Feasible(w, es) && AllLeftAlone(w, es, id)
    requires w.phase.ShuttingDown? && w.exit.Looping? && Entry(w, id) == Some(s) && s.state.Running?
    ensures Entry(Run(w, es), id) == Some(s)
    ensures Kills(Run(w, es).history, id) == Kills(w.history, id) && !Run(w, es).exit.ExitedOk?
  {
    ReachableInv(w);
    assert id in w.services;
    ShutdownWaits(w, es, id);
  }
}
