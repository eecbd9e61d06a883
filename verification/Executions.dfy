/**
 What processes execute. Every fork takes over the record of its service as the event leaves it; the
 environment always is that of the definition, and argv is unless a reload stops half way through
 taking over a definition.
 */
module Executions {
  import opened Types
  import opened Histories
  import opened Steps
  import opened Invariants
  import opened Lifecycles
  import opened Reloads
  import opened Runs

  // ---------------------------------------------------------------- forks and stop signals follow the record

  /** `id` runs in a process that was forked since `w` and executes what the record of `id` says. */
  ghost predicate ExecutesRecord(w: World, w': World, id: nat) {
    && id in w'.services && w'.services[id].state.Running?
    && StartedAs(w, w', id, w'.services[id], w'.services[id].state.pid)
  }

  /** `id` is stopping, after the signal and with the timeout that the record of `id` says. */
  ghost predicate StopsAsRecorded(w: World, w': World, id: nat) {
    && id in w'.services && w'.services[id].state.Stopping?
    && var s := w'.services[id];
    && var e := LatestStop(w'.history, id);
    && e.Some? && w.clock <= e.value.at <= w'.clock
    && e.value == StopSent(id, s.state.pid, s.config.stopSignal, s.config.stopTimeoutMs, e.value.at, s.state.deadline)
    && s.state.deadline == e.value.at + 1_000_000 * s.config.stopTimeoutMs
  }

  ghost predicate ActsOnRecord(w: World, w': World, id: nat) {
    && (Forks(w'.history, id) != Forks(w.history, id) ==> ExecutesRecord(w, w', id))
    && (Stops(w'.history, id) != Stops(w.history, id) ==> StopsAsRecorded(w, w', id))
  }

  lemma MoveOnRecord(w: World, e: Event, w': World, id: nat)
    requires LocalStep(w, e, w', id) && !e.Hangup? && w.clock <= w'.clock
    ensures ActsOnRecord(w, w', id)
  {
    assert id in w'.services <==> Entry(w', id).Some?;
  }

  lemma ReloadOnRecord(w: World, config: map<string, ServiceConfig>, answers: map<string, Answer>,
                       retired: seq<string>, applied: seq<string>, news: seq<string>, w': World, id: nat)
    requires ReloadsPartly(w, config, answers, retired, applied, news, w', id)
    ensures ActsOnRecord(w, w', id)
  {
    assert id in w'.services <==> Entry(w', id).Some?;
  }

  /**
   Whatever event starts a process of a service, reloads that fail later included, the process executes
   the argv, the environment and the definition that the event leaves in the record; and whatever event
   sends a stop signal, signal and deadline are those of the definition it leaves in the record.
   */
  lemma StepOnRecord(w: World, e: Event, id: nat)
    requires Inv(w) && Possible(w, e)
    ensures ActsOnRecord(w, Step(w, e), id)
  {
    StepAt(w, e, id);
    StepGrows(w, e);
    if !e.Hangup? {
      MoveOnRecord(w, e, Step(w, e), id);
    } else if w.phase.Serving? && e.config.Some? {
      var done := AppliedNames(w, e.config.value, e.scan, e.applied, e.byName);
      PartialReloadAt(w, e.config.value, e.scan, e.removal, e.applied, e.byName, id);
      ReloadOnRecord(w, e.config.value, e.byName, RetiredNames(w, e.config.value, e.scan, e.removal, e.byName), done,
                     Newcomers(done, Index(w.services, e.scan)), Step(w, e), id);
    }
  }

  // ---------------------------------------------------------------- argv

  ghost predicate Agrees(s: Service) {
    Spells(s.argv, s.config)
  }

  /** The argv to exec with is, for every service, the one its definition describes. */
  ghost predicate ArgvAgrees(w: World) {
    forall id | id in w.services :: Agrees(w.services[id])
  }

  /** `update_config` would take over the argv of `c`, another one than now, and then reject `c`. */
  predicate HalfRejected(s: Service, c: ServiceConfig) {
    Argv(c).Some? && Envp(c).None? && Argv(c) != Argv(s.config)
  }

  /** The reload gets to a definition it rejects half way. */
  ghost predicate StopsHalfWay(w: World, config: map<string, ServiceConfig>, done: seq<string>) {
    exists id :: id in w.services && w.services[id].name in config && w.services[id].name in done &&
                 HalfRejected(w.services[id], config[w.services[id].name])
  }

  lemma AgreesAfterReload(w: World, config: map<string, ServiceConfig>, answers: map<string, Answer>,
                          retired: seq<string>, done: seq<string>, news: seq<string>, w': World, id: nat)
    requires ReloadsPartly(w, config, answers, retired, done, news, w', id)
    requires id in w.services ==> Agrees(w.services[id])
    ensures id in w.services && w.services[id].name in config && w.services[id].name in done &&
            HalfRejected(w.services[id], config[w.services[id].name]) <==>
            id in w'.services && !Agrees(w'.services[id])
  {
    assert id in w'.services <==> Entry(w', id).Some?;
    if id in w.services {
      SpellsOnly(w.services[id].argv, w.services[id].config);
    }
    if id in w'.services {
      SpellsOnly(w'.services[id].argv, w'.services[id].config);
    }
  }

  /**
   A reload, successful or not, keeps every argv in agreement with its definition exactly when it does
   not get to a definition whose argv is new and accepted and whose environment is rejected.
   */
  lemma ReloadAgreesIff(w: World, config: map<string, ServiceConfig>, scan: seq<nat>, removal: seq<string>,
                        applied: seq<string>, answers: map<string, Answer>)
    requires Inv(w) && ArgvAgrees(w) && ReloadOrders(w, config, scan, removal, applied)
    ensures ArgvAgrees(Reload(w, config, scan, removal, applied, answers).world) <==>
            !StopsHalfWay(w, config, AppliedNames(w, config, scan, applied, answers))
  {
    var w' := Reload(w, config, scan, removal, applied, answers).world;
    var retired := RetiredNames(w, config, scan, removal, answers);
    var done := AppliedNames(w, config, scan, applied, answers);
    forall id
      ensures id in w.services && w.services[id].name in config && w.services[id].name in done &&
              HalfRejected(w.services[id], config[w.services[id].name]) <==>
              id in w'.services && !Agrees(w'.services[id])
    {
      PartialReloadAt(w, config, scan, removal, applied, answers, id);
      AgreesAfterReload(w, config, answers, retired, done, Newcomers(done, Index(w.services, scan)), w', id);
    }
  }

  ghost predicate HalfRejects(w: World, e: Event)
    requires Inv(w) && Possible(w, e)
  {
    e.Hangup? && w.phase.Serving? && e.config.Some? &&
    StopsHalfWay(w, e.config.value, AppliedNames(w, e.config.value, e.scan, e.applied, e.byName))
  }

  lemma MoveAgrees(w: World, e: Event, w': World, id: nat)
    requires LocalStep(w, e, w', id) && !e.Hangup?
    requires id in w.services ==> Agrees(w.services[id])
    ensures id in w'.services ==> Agrees(w'.services[id])
  {
    assert id in w'.services <==> Entry(w', id).Some?;
    assert id in w.services <==> Entry(w, id).Some?;
  }

  /** No other event disturbs the agreement. */
  lemma StepAgreesIff(w: World, e: Event)
    requires Inv(w) && Possible(w, e) && ArgvAgrees(w)
    ensures ArgvAgrees(Step(w, e)) <==> !HalfRejects(w, e)
  {
    if !e.Hangup? {
      forall id | id in Step(w, e).services ensures Agrees(Step(w, e).services[id]) {
        StepAt(w, e, id);
        MoveAgrees(w, e, Step(w, e), id);
      }
    } else if w.phase.Serving? && e.config.Some? {
      ReloadAgreesIff(w, e.config.value, e.scan, e.removal, e.applied, e.byName);
    }
  }

  // ---------------------------------------------------------------- over runs

  /** Every fork so far executes the argv that the definition then in force describes. */
  ghost predicate ArgvFaithful(h: History) {
    h.Then? ==> ArgvFaithful(h.past) && (h.last.Forked? ==> Spells(h.last.argv, h.last.definition))
  }

  ghost predicate OneFaithfulFork(h: History, h': History, id: nat) {
    Forks(h', id) != Forks(h, id) ==>
      && Forks(h', id) == Forks(h, id) + 1
      && LatestFork(h', id).Some?
      && var f := LatestFork(h', id).value;
      f.Forked? && Spells(f.argv, f.definition)
  }

  lemma {:induction false} FaithfulGrows(h: History, h': History)
    requires StageOf(h, h') && ArgvFaithful(h) && forall id :: OneFaithfulFork(h, h', id)
    ensures ArgvFaithful(h')
  {
    if h != h' {
      forall id ensures OneFaithfulFork(h, h'.past, id) {
        SameLatestFork(h, h'.past, id);
        assert OneFaithfulFork(h, h', id);
      }
      FaithfulGrows(h, h'.past);
      if h'.last.Forked? {
        SameLatestFork(h, h'.past, h'.last.id);
        assert OneFaithfulFork(h, h', h'.last.id);
      }
    }
  }

  lemma MoveFaithful(w: World, e: Event, w': World, id: nat)
    requires LocalStep(w, e, w', id) && !e.Hangup?
    ensures StartsAt(w, e, id) && !Agrees(w.services[id]) <==> !OneFaithfulFork(w.history, w'.history, id)
  {
  }

  lemma ReloadFaithful(w: World, config: map<string, ServiceConfig>, answers: map<string, Answer>,
                       retired: seq<string>, applied: seq<string>, news: seq<string>, w': World, id: nat)
    requires ReloadsPartly(w, config, answers, retired, applied, news, w', id)
    ensures OneFaithfulFork(w.history, w'.history, id)
  {
    if LatestFork(w'.history, id).Some? && LatestFork(w'.history, id).value.Forked? {
      ArgvSpelled(LatestFork(w'.history, id).value.definition);
    }
  }

  lemma {:induction false} FaithfulEarlier(h: History, h': History)
    requires StageOf(h, h') && ArgvFaithful(h')
    ensures ArgvFaithful(h)
  {
    if h != h' {
      FaithfulEarlier(h, h'.past);
    }
  }

  lemma {:induction false} LatestFaithful(h: History, id: nat)
    requires ArgvFaithful(h) && LatestFork(h, id).Some?
    ensures var f := LatestFork(h, id).value; f.Forked? && Spells(f.argv, f.definition)
  {
    if !(h.last.Forked? && h.last.id == id) {
      LatestFaithful(h.past, id);
    }
  }

  /** A tick or a command starts a service whose argv is not that of its definition. */
  ghost predicate StartsStale(w: World, e: Event) {
    exists id :: StartsAt(w, e, id) && !Agrees(w.services[id])
  }

  lemma StepForksFaithful(w: World, e: Event, id: nat)
    requires Inv(w) && Possible(w, e)
    ensures StartsAt(w, e, id) && !Agrees(w.services[id]) <==> !OneFaithfulFork(w.history, Step(w, e).history, id)
  {
    if !e.Hangup? {
      StepAt(w, e, id);
      MoveFaithful(w, e, Step(w, e), id);
    } else if w.phase.Serving? && e.config.Some? {
      var done := AppliedNames(w, e.config.value, e.scan, e.applied, e.byName);
      PartialReloadAt(w, e.config.value, e.scan, e.removal, e.applied, e.byName, id);
      ReloadFaithful(w, e.config.value, e.byName, RetiredNames(w, e.config.value, e.scan, e.removal, e.byName), done,
                     Newcomers(done, Index(w.services, e.scan)), Step(w, e), id);
    }
  }

  lemma UnfaithfulFork(w: World, e: Event, id: nat)
    requires Inv(w) && Possible(w, e) && StartsAt(w, e, id) && !Agrees(w.services[id])
    ensures !ArgvFaithful(Step(w, e).history)
  {
    StepAt(w, e, id);
    if ArgvFaithful(Step(w, e).history) {
      LatestFaithful(Step(w, e).history, id);
    }
  }

  /**
   What an event forks executes the argv of its definition, except exactly when a tick or a command
   starts a service whose argv is stale. No reload forks anything else, not even one that fails.
   */
  lemma StepFaithfulIff(w: World, e: Event)
    requires Inv(w) && Possible(w, e) && ArgvFaithful(w.history)
    ensures ArgvFaithful(Step(w, e).history) <==> !StartsStale(w, e)
  {
    if id :| StartsAt(w, e, id) && !Agrees(w.services[id]) {
      UnfaithfulFork(w, e, id);
    } else {
      forall id ensures OneFaithfulFork(w.history, Step(w, e).history, id) {
        StepForksFaithful(w, e, id);
      }
      StepGrows(w, e);
      FaithfulGrows(w.history, Step(w, e).history);
    }
  }

  lemma {:induction false} StartAllAgrees(w: World, order: seq<nat>, answers: map<nat, Answer>)
    requires ArgvAgrees(w) && ArgvFaithful(w.history)
    ensures ArgvAgrees(StartAll(w, order, answers)) && ArgvFaithful(StartAll(w, order, answers).history)
  {
    if order != [] {
      StartAllAgrees(w, order[..|order| - 1], answers);
    }
  }

  lemma {:induction false} InsertAllAgrees(w: World, config: map<string, ServiceConfig>, order: seq<string>)
    requires ArgvAgrees(w) && w.history.Origin? && forall n | n in order :: n in config
    ensures ArgvAgrees(InsertAll(w, config, order).world) && InsertAll(w, config, order).world.history.Origin?
  {
    if order != [] {
      SplitLast(order);
      InsertAllAgrees(w, config, order[..|order| - 1]);
      ArgvSpelled(config[order[|order| - 1]]);
    }
  }

  lemma BootAgrees(b: World)
    requires Booted(b)
    ensures ArgvAgrees(b) && ArgvFaithful(b.history)
  {
    var clock, waitable, config, inserted, started, answers :|
      Boots(b, clock, waitable, config, inserted, started, answers);
    InsertAllAgrees(Blank(clock, waitable), config, inserted);
    StartAllAgrees(InsertAll(Blank(clock, waitable), config, inserted).world, started, answers);
  }

  /** No reload of the run stops half way through a definition. */
  ghost predicate NeverHalfRejects(b: World, es: seq<Event>)
    requires Inv(b) && Feasible(b, es)
  {
    es == [] ||
    (NeverHalfRejects(b, es[..|es| - 1]) &&
     (RunInv(b, es[..|es| - 1]); !HalfRejects(Run(b, es[..|es| - 1]), es[|es| - 1])))
  }

  /** Argv and definition agree after every event of the run. */
  ghost predicate AgreesThroughout(b: World, es: seq<Event>)
    requires Feasible(b, es)
  {
    ArgvAgrees(Run(b, es)) && (es != [] ==> AgreesThroughout(b, es[..|es| - 1]))
  }

  /**
   In a run from startup, every service always is about to execute what its definition describes if
   and only if no reload stops half way through a definition; and then every process that was ever
   forked executes the argv and the environment of the definition it was forked for.
   */
  lemma {:induction false} ArgvAgreesIff(b: World, es: seq<Event>)
    requires Booted(b) && Inv(b) && Feasible(b, es)
    ensures AgreesThroughout(b, es) <==> NeverHalfRejects(b, es)
    ensures NeverHalfRejects(b, es) ==> ArgvFaithful(Run(b, es).history)
  {
    if es == [] {
      BootAgrees(b);
    } else {
      var v, e := Run(b, es[..|es| - 1]), es[|es| - 1];
      ArgvAgreesIff(b, es[..|es| - 1]);
      RunInv(b, es[..|es| - 1]);
      if AgreesThroughout(b, es[..|es| - 1]) {
        StepAgreesIff(v, e);
        StepFaithfulIff(v, e);
      }
    }
  }

  /** No tick and no command of the run starts a service whose argv is stale. */
  ghost predicate NeverStartsStale(b: World, es: seq<Event>)
    requires Feasible(b, es)
  {
    es == [] || (NeverStartsStale(b, es[..|es| - 1]) && !StartsStale(Run(b, es[..|es| - 1]), es[|es| - 1]))
  }

  /** Every process a run forks executes the argv of its definition if and only if no stale service is started. */
  lemma {:induction false} ArgvFaithfulIff(b: World, es: seq<Event>)
    requires Booted(b) && Feasible(b, es)
    ensures ArgvFaithful(Run(b, es).history) <==> NeverStartsStale(b, es)
  {
    BootAgrees(b);
    if es != [] {
      var v, e := Run(b, es[..|es| - 1]), es[|es| - 1];
      ArgvFaithfulIff(b, es[..|es| - 1]);
      BootInv(b);
      RunInv(b, es[..|es| - 1]);
      StepGrows(v, e);
      if ArgvFaithful(v.history) {
        StepFaithfulIff(v, e);
      } else if ArgvFaithful(Run(b, es).history) {
        FaithfulEarlier(v.history, Run(b, es).history);
      }
    }
  }

  // ---------------------------------------------------------------- the process that runs now

  /** A running service executes the argv, the environment and the definition of its record. */
  ghost predicate RunsRecord(h: History, id: nat, s: Service) {
    s.state.Running? ==>
      var f := LatestFork(h, id);
      f.Some? && f.value == Forked(id, s.state.pid, s.argv, s.envp, s.config, f.value.at)
  }

  ghost predicate AllRunRecords(w: World) {
    forall id | id in w.services :: RunsRecord(w.history, id, w.services[id])
  }

  /** Taking over `c` leaves the old process running: its stop signal fails, or `c` is rejected half way. */
  predicate LeavesOldProcess(s: Service, c: ServiceConfig, a: Answer) {
    && s.state.Running? && s.config != c && Argv(c).Some?
    && if Envp(c).Some? then !a.ok else Argv(c).value != s.argv
  }

  ghost predicate ReloadLeavesOld(w: World, config: map<string, ServiceConfig>, answers: map<string, Answer>,
                                  done: seq<string>)
  {
    exists id :: id in w.services && LeavesOldAt(w.services[id], config, answers, done)
  }

  predicate LeavesOldAt(s: Service, config: map<string, ServiceConfig>, answers: map<string, Answer>,
                        done: seq<string>)
  {
    s.name in config && s.name in done && LeavesOldProcess(s, config[s.name], Ask(answers, s.name))
  }

  lemma ReloadRunsRecord(w: World, config: map<string, ServiceConfig>, answers: map<string, Answer>,
                         retired: seq<string>, done: seq<string>, news: seq<string>, w': World, id: nat)
    requires ReloadsPartly(w, config, answers, retired, done, news, w', id)
    requires id in w.services ==> RunsRecord(w.history, id, w.services[id])
    ensures id in w.services && LeavesOldAt(w.services[id], config, answers, done) <==>
            id in w'.services && !RunsRecord(w'.history, id, w'.services[id])
  {
    assert id in w'.services <==> Entry(w', id).Some?;
  }

  lemma MoveRunsRecord(w: World, e: Event, w': World, id: nat)
    requires LocalStep(w, e, w', id) && !e.Hangup?
    requires id in w.services ==> RunsRecord(w.history, id, w.services[id])
    ensures id in w'.services ==> RunsRecord(w'.history, id, w'.services[id])
  {
    assert id in w'.services <==> Entry(w', id).Some?;
    assert id in w.services <==> Entry(w, id).Some?;
  }

  ghost predicate LeavesOld(w: World, e: Event)
    requires Inv(w) && Possible(w, e)
  {
    e.Hangup? && w.phase.Serving? && e.config.Some? &&
    ReloadLeavesOld(w, e.config.value, e.byName, AppliedNames(w, e.config.value, e.scan, e.applied, e.byName))
  }

  /**
   Every event keeps running services on the definition of their record, except exactly a reload that
   gets to a changed, running service whose stop signal fails, or whose definition it rejects half way.
   */
  lemma StepRunsRecordIff(w: World, e: Event)
    requires Inv(w) && Possible(w, e) && AllRunRecords(w)
    ensures AllRunRecords(Step(w, e)) <==> !LeavesOld(w, e)
  {
    var w' := Step(w, e);
    if !e.Hangup? {
      forall id | id in w'.services ensures RunsRecord(w'.history, id, w'.services[id]) {
        StepAt(w, e, id);
        MoveRunsRecord(w, e, w', id);
      }
    } else if w.phase.Serving? && e.config.Some? {
      var done := AppliedNames(w, e.config.value, e.scan, e.applied, e.byName);
      forall id
        ensures id in w.services && LeavesOldAt(w.services[id], e.config.value, e.byName, done) <==>
                id in w'.services && !RunsRecord(w'.history, id, w'.services[id])
      {
        PartialReloadAt(w, e.config.value, e.scan, e.removal, e.applied, e.byName, id);
        var retired := RetiredNames(w, e.config.value, e.scan, e.removal, e.byName);
        ReloadRunsRecord(w, e.config.value, e.byName, retired, done,
                         Newcomers(done, Index(w.services, e.scan)), w', id);
      }
    }
  }

  lemma {:induction false} StartAllRunRecords(w: World, order: seq<nat>, answers: map<nat, Answer>)
    requires AllRunRecords(w)
    ensures AllRunRecords(StartAll(w, order, answers))
  {
    if order != [] {
      StartAllRunRecords(w, order[..|order| - 1], answers);
    }
  }

  lemma BootRunRecords(b: World)
    requires Booted(b)
    ensures AllRunRecords(b)
  {
    var clock, waitable, config, inserted, started, answers :|
      Boots(b, clock, waitable, config, inserted, started, answers);
    InsertAllInv(Blank(clock, waitable), config, inserted);
    StartAllRunRecords(InsertAll(Blank(clock, waitable), config, inserted).world, started, answers);
  }

  ghost predicate NeverLeavesOld(b: World, es: seq<Event>)
    requires Inv(b) && Feasible(b, es)
  {
    es == [] ||
    (NeverLeavesOld(b, es[..|es| - 1]) &&
     (RunInv(b, es[..|es| - 1]); !LeavesOld(Run(b, es[..|es| - 1]), es[|es| - 1])))
  }

  ghost predicate RunRecordsThroughout(b: World, es: seq<Event>)
    requires Feasible(b, es)
  {
    AllRunRecords(Run(b, es)) && (es != [] ==> RunRecordsThroughout(b, es[..|es| - 1]))
  }

  /** In a run from startup, running processes execute their records throughout iff no reload leaves an old one. */
  lemma {:induction false} RunsRecordIff(b: World, es: seq<Event>)
    requires Booted(b) && Inv(b) && Feasible(b, es)
    ensures RunRecordsThroughout(b, es) <==> NeverLeavesOld(b, es)
  {
    if es == [] {
      BootRunRecords(b);
    } else {
      RunsRecordIff(b, es[..|es| - 1]);
      RunInv(b, es[..|es| - 1]);
      if RunRecordsThroughout(b, es[..|es| - 1]) {
        StepRunsRecordIff(Run(b, es[..|es| - 1]), es[|es| - 1]);
      }
    }
  }

  /** What a faithful history says of a single process. */
  lemma {:induction false} FaithfulStage(past: History, fork: Effect, h: History)
    requires ArgvFaithful(h) && Disciplined(h) && StageOf(Then(past, fork), h) && fork.Forked?
    ensures Spells(fork.argv, fork.definition) && fork.envp == fork.definition.env
  {
    if Then(past, fork) != h {
      FaithfulStage(past, fork, h.past);
    }
  }

  /** Definitions whose environments are all acceptable cannot be rejected half way. */
  lemma SoundReload(w: World, e: Event)
    requires Inv(w) && Possible(w, e)
    requires e.Hangup? && e.config.Some? ==> forall n | n in e.config.value :: Envp(e.config.value[n]).Some?
    ensures !HalfRejects(w, e)
  {
  }

  ghost predicate SoundEnvironments(es: seq<Event>) {
    forall e | e in es && e.Hangup? && e.config.Some? :: forall n | n in e.config.value :: Envp(e.config.value[n]).Some?
  }

  /** So if no configuration ever read holds a NUL in an environment, everything executes its own definition. */
  lemma {:induction false} SoundRun(b: World, es: seq<Event>)
    requires Booted(b) && Inv(b) && Feasible(b, es) && SoundEnvironments(es)
    ensures NeverHalfRejects(b, es)
    ensures AgreesThroughout(b, es) && ArgvFaithful(Run(b, es).history)
  {
    if es != [] {
      SplitLast(es);
      SoundRun(b, es[..|es| - 1]);
      RunInv(b, es[..|es| - 1]);
      SoundReload(Run(b, es[..|es| - 1]), es[|es| - 1]);
    }
    ArgvAgreesIff(b, es);
  }
}
