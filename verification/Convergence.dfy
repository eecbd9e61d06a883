/** What reload is for: a second one changes nothing, its orders do not matter, and it converges. */
module Convergence {
  import opened Types
  import opened Histories
  import opened Steps
  import opened Invariants
  import opened Lifecycles
  import opened Reloads
  import opened Runs

  // ---------------------------------------------------------------- idempotence

  /** The registry already is what the configuration asks for, up to services on their way out. */
  ghost predicate Matches(w: World, config: map<string, ServiceConfig>) {
    && (forall id | id in w.services && w.services[id].name in config ::
          w.services[id].config == config[w.services[id].name])
    && (forall id | id in w.services && w.services[id].name !in config ::
          w.services[id].state.Stopping? && w.services[id].pending == Remove)
    && (forall n | n in config :: n in Names(w.services))
  }

  lemma MatchesAt(w: World, config: map<string, ServiceConfig>, answers: map<string, Answer>, news: seq<string>,
                  w': World, id: nat)
    requires ReloadsTo(w, config, answers, news, w', id) && id in w'.services
    ensures var s := w'.services[id];
      if s.name in config then s.config == config[s.name] else s.state.Stopping? && s.pending == Remove
    ensures id in w.services ==> w'.services[id].name == w.services[id].name
    ensures id !in w.services ==> w.nextId <= id < w'.nextId && w'.services[id].name == news[id - w.nextId]
  {
    assert Entry(w', id) == Some(w'.services[id]);
  }

  lemma ReloadMatches(w: World, config: map<string, ServiceConfig>, scan: seq<nat>, removal: seq<string>,
                      applied: seq<string>, answers: map<string, Answer>)
    requires Inv(w) && ReloadOrders(w, config, scan, removal, applied)
    requires Reload(w, config, scan, removal, applied, answers).ok
    ensures Matches(Reload(w, config, scan, removal, applied, answers).world, config)
  {
    var w' := Reload(w, config, scan, removal, applied, answers).world;
    var ids := Index(w.services, scan);
    var news := Newcomers(applied, ids);
    IndexExact(w, scan);
    forall id | id in w'.services
      ensures var s := w'.services[id];
        if s.name in config then s.config == config[s.name] else s.state.Stopping? && s.pending == Remove
    {
      ReloadAt(w, config, scan, removal, applied, answers, id);
      MatchesAt(w, config, answers, news, w', id);
    }
    forall n | n in config ensures n in Names(w'.services) {
      var id := NamePresent(w, config, scan, removal, applied, answers, n);
    }
  }

  /** The id under which a configured name is found after a successful reload. */
  lemma NameHasId(w: World, config: map<string, ServiceConfig>, ids: map<string, nat>, applied: seq<string>, n: string)
    returns (id: nat)
    requires Identified(w) && Indexes(ids, w.services) && Enumerates(applied, config.Keys) && n in config
    ensures if n in Names(w.services) then id in w.services && w.services[id].name == n
            else w.nextId <= id < w.nextId + |Newcomers(applied, ids)| && Newcomers(applied, ids)[id - w.nextId] == n
  {
    assert n in ids <==> n in Names(w.services) by {
      NewcomersSize(w, config, ids, applied);
    }
    if n in ids {
      id := ids[n];
    } else {
      var news := Newcomers(applied, ids);
      assert n in news by {
        NewcomersAre(applied, ids);
      }
      var k :| 0 <= k < |news| && news[k] == n;
      id := w.nextId + k;
    }
  }

  lemma NameAt(w: World, config: map<string, ServiceConfig>, answers: map<string, Answer>, news: seq<string>,
               w': World, id: nat, n: string)
    requires ReloadsTo(w, config, answers, news, w', id) && n in config
    requires id in w.services ==> w.services[id].name == n
    requires id !in w.services ==> w.nextId <= id < w.nextId + |news| && news[id - w.nextId] == n
    ensures id in w'.services && w'.services[id].name == n
    ensures id !in w.services ==> Buildable(config[n]) && w'.services[id] == Launched(id, n, config[n], Ask(answers, n))
  {
    assert id in w'.services <==> Entry(w', id).Some?;
  }

  /** Every configured name is in the registry after a successful reload; new names got new ids. */
  lemma NamePresent(w: World, config: map<string, ServiceConfig>, scan: seq<nat>, removal: seq<string>,
                    applied: seq<string>, answers: map<string, Answer>, n: string) returns (id: nat)
    requires Inv(w) && ReloadOrders(w, config, scan, removal, applied) && n in config
    requires Reload(w, config, scan, removal, applied, answers).ok
    ensures var w' := Reload(w, config, scan, removal, applied, answers).world;
      && id in w'.services && w'.services[id].name == n
      && (if n in Names(w.services) then id in w.services && w.services[id].name == n
          else id >= w.nextId && Buildable(config[n]) && w'.services[id] == Launched(id, n, config[n], Ask(answers, n)))
  {
    var w' := Reload(w, config, scan, removal, applied, answers).world;
    var ids := Index(w.services, scan);
    IndexExact(w, scan);
    id := NameHasId(w, config, ids, applied, n);
    ReloadAt(w, config, scan, removal, applied, answers, id);
    NameAt(w, config, answers, Newcomers(applied, ids), w', id, n);
  }

  lemma {:induction false} IdleRemoval(w: World, config: map<string, ServiceConfig>, ids: map<string, nat>,
                                       order: seq<string>, answers: map<string, Answer>)
    requires Indexes(ids, w.services) && Matches(w, config) && forall n | n in order :: n in ids
    ensures RemoveAll(w, config, ids, order, answers) == Outcome(w, true)
  {
    if order != [] {
      var last := |order| - 1;
      SplitLast(order);
      IdleRemoval(w, config, ids, order[..last], answers);
      var id := ids[order[last]];
      if order[last] !in config {
        assert w.services[id].(pending := Remove) == w.services[id];
        assert w.services[id := w.services[id]] == w.services;
      }
    }
  }

  lemma {:induction false} IdleApply(w: World, config: map<string, ServiceConfig>, ids: map<string, nat>,
                                     order: seq<string>, answers: map<string, Answer>)
    requires Indexes(ids, w.services) && Matches(w, config) && forall n | n in order :: n in config
    ensures ApplyAll(w, config, ids, order, answers) == Outcome(w, true)
  {
    if order != [] {
      var last := |order| - 1;
      SplitLast(order);
      IdleApply(w, config, ids, order[..last], answers);
      assert order[last] in Names(w.services);
    }
  }

  /**
   Reload is idempotent: after one that returned `Ok`, a second with the same configuration changes
   nothing at all, makes no kernel call, and succeeds, whatever the orders and the answers.
   */
  lemma ReloadIdempotent(w: World, config: map<string, ServiceConfig>,
                         scan: seq<nat>, removal: seq<string>, applied: seq<string>, answers: map<string, Answer>,
                         scan': seq<nat>, removal': seq<string>, applied': seq<string>, answers': map<string, Answer>)
    requires Inv(w) && Admissible(w, answers) && ReloadOrders(w, config, scan, removal, applied)
    requires Reload(w, config, scan, removal, applied, answers).ok
    requires ReloadOrders(Reload(w, config, scan, removal, applied, answers).world, config, scan', removal', applied')
    ensures var w' := Reload(w, config, scan, removal, applied, answers).world;
      Reload(w', config, scan', removal', applied', answers') == Outcome(w', true)
  {
    var w' := Reload(w, config, scan, removal, applied, answers).world;
    ReloadInv(w, config, scan, removal, applied, answers);
    ReloadMatches(w, config, scan, removal, applied, answers);
    IndexExact(w', scan');
    IdleRemoval(w', config, Index(w'.services, scan'), removal', answers');
    IdleApply(w', config, Index(w'.services, scan'), applied', answers');
  }

  // ---------------------------------------------------------------- order independence

  /** The same but for the id and the time at which a stop signal was sent. */
  ghost predicate Alike(s: Service, t: Service) {
    && s.name == t.name && s.config == t.config && s.argv == t.argv && s.envp == t.envp && s.pending == t.pending
    && (if s.state.Stopping? then t.state.Stopping? && t.state.pid == s.state.pid else t.state == s.state)
  }

  /** By name, `w2` holds everything `w1` does; services older than `since` under the same id. */
  ghost predicate ShowsAll(w1: World, w2: World, since: nat) {
    forall id | id in w1.services ::
      exists j :: j in w2.services && Alike(w1.services[id], w2.services[j]) && (id < since ==> j == id)
  }

  lemma OldAlike(w: World, config: map<string, ServiceConfig>, answers: map<string, Answer>,
                 news1: seq<string>, news2: seq<string>, w1: World, w2: World, id: nat)
    requires ReloadsTo(w, config, answers, news1, w1, id) && ReloadsTo(w, config, answers, news2, w2, id)
    requires id in w.services && id in w1.services
    ensures id in w2.services && Alike(w1.services[id], w2.services[id])
  {
    assert Entry(w1, id) == Some(w1.services[id]);
    assert Entry(w2, id).Some? <==> id in w2.services;
  }

  lemma NewAt(w: World, config: map<string, ServiceConfig>, answers: map<string, Answer>, news: seq<string>,
              w1: World, id: nat)
    requires ReloadsTo(w, config, answers, news, w1, id) && id !in w.services && id in w1.services
    ensures w.nextId <= id < w.nextId + |news|
    ensures var n := news[id - w.nextId];
      n in config && Buildable(config[n]) && w1.services[id] == Launched(id, n, config[n], Ask(answers, n))
  {
    assert Entry(w1, id) == Some(w1.services[id]);
  }

  lemma NewNames(w: World, config: map<string, ServiceConfig>, ids: map<string, nat>, applied: seq<string>)
    requires Indexes(ids, w.services) && Enumerates(applied, config.Keys)
    ensures forall n | n in Newcomers(applied, ids) :: n in config && n !in Names(w.services)
  {
    NewcomersAre(applied, ids);
    NewcomersSize(w, config, ids, applied);
  }

  /** Under which id one outcome of a reload has what another has under `id`. */
  lemma ShownAgain(w: World, config: map<string, ServiceConfig>, answers: map<string, Answer>,
                   scan1: seq<nat>, removal1: seq<string>, applied1: seq<string>,
                   scan2: seq<nat>, removal2: seq<string>, applied2: seq<string>, id: nat)
    returns (j: nat)
    requires Inv(w)
    requires ReloadOrders(w, config, scan1, removal1, applied1) && ReloadOrders(w, config, scan2, removal2, applied2)
    requires Reload(w, config, scan1, removal1, applied1, answers).ok
    requires Reload(w, config, scan2, removal2, applied2, answers).ok
    requires id in Reload(w, config, scan1, removal1, applied1, answers).world.services
    ensures var w1 := Reload(w, config, scan1, removal1, applied1, answers).world;
      var w2 := Reload(w, config, scan2, removal2, applied2, answers).world;
      j in w2.services && Alike(w1.services[id], w2.services[j]) && (id < w.nextId ==> j == id)
  {
    var w1 := Reload(w, config, scan1, removal1, applied1, answers).world;
    var w2 := Reload(w, config, scan2, removal2, applied2, answers).world;
    var ids1, ids2 := Index(w.services, scan1), Index(w.services, scan2);
    ReloadAt(w, config, scan1, removal1, applied1, answers, id);
    if id in w.services {
      j := id;
      ReloadAt(w, config, scan2, removal2, applied2, answers, id);
      OldAlike(w, config, answers, Newcomers(applied1, ids1), Newcomers(applied2, ids2), w1, w2, id);
    } else {
      var news := Newcomers(applied1, ids1);
      IndexExact(w, scan1);
      NewNames(w, config, ids1, applied1);
      NewAt(w, config, answers, news, w1, id);
      var n := news[id - w.nextId];
      assert n in news;
      j := NamePresent(w, config, scan2, removal2, applied2, answers, n);
    }
  }

  /**
   The outcome of a reload, by name, does not depend on any iteration order: presence, definition,
   kind of state, pid and pending action are the same, and so is whether it succeeds.
   */
  lemma ReloadOrderIrrelevant(w: World, config: map<string, ServiceConfig>, answers: map<string, Answer>,
                              scan1: seq<nat>, removal1: seq<string>, applied1: seq<string>,
                              scan2: seq<nat>, removal2: seq<string>, applied2: seq<string>)
    requires Inv(w)
    requires ReloadOrders(w, config, scan1, removal1, applied1) && ReloadOrders(w, config, scan2, removal2, applied2)
    ensures Reload(w, config, scan1, removal1, applied1, answers).ok ==
            Reload(w, config, scan2, removal2, applied2, answers).ok
    ensures Reload(w, config, scan1, removal1, applied1, answers).ok ==>
      var w1 := Reload(w, config, scan1, removal1, applied1, answers).world;
      var w2 := Reload(w, config, scan2, removal2, applied2, answers).world;
      w1.nextId == w2.nextId && ShowsAll(w1, w2, w.nextId)
  {
    ReloadOkIff(w, config, scan1, removal1, applied1, answers);
    ReloadOkIff(w, config, scan2, removal2, applied2, answers);
    var o1 := Reload(w, config, scan1, removal1, applied1, answers);
    var o2 := Reload(w, config, scan2, removal2, applied2, answers);
    if o1.ok {
      var ids1, ids2 := Index(w.services, scan1), Index(w.services, scan2);
      IndexExact(w, scan1);
      IndexExact(w, scan2);
      NewcomersSize(w, config, ids1, applied1);
      NewcomersSize(w, config, ids2, applied2);
      ReloadAt(w, config, scan1, removal1, applied1, answers, 0);
      ReloadAt(w, config, scan2, removal2, applied2, answers, 0);
      forall id | id in o1.world.services
        ensures exists j :: j in o2.world.services && Alike(o1.world.services[id], o2.world.services[j]) &&
                            (id < w.nextId ==> j == id)
      {
        var j := ShownAgain(w, config, answers, scan1, removal1, applied1, scan2, removal2, applied2, id);
      }
    }
  }

  // ---------------------------------------------------------------- convergence

  /** Nothing is stopping, nothing is pending, and no `on_exit` is owed. */
  ghost predicate Quiescent(w: World) {
    forall id | id in w.services ::
      var s := w.services[id];
      !s.state.Stopping? && s.pending == NoAction && (s.state.Stopped? ==> DueAction(s) == NoAction)
  }

  /** The service runs the definition `c`, in a process forked since `w` that executes that definition. */
  ghost predicate RunsAfresh(w: World, w': World, id: nat, c: ServiceConfig) {
    && id in w'.services && w'.services[id].state.Running? && w'.services[id].pending == NoAction
    && w'.services[id].config == c
    && Spells(w'.services[id].argv, c) && w'.services[id].envp == c.env
    && Forks(w'.history, id) == Forks(w.history, id) + 1
    && var f := LatestFork(w'.history, id);
    && f.Some? && f.value == Forked(id, w'.services[id].state.pid, w'.services[id].argv, c.env, c, f.value.at)
  }

  /** What becomes of service `id`: gone, untouched, or running its new definition afresh. */
  ghost predicate SettlesTo(w: World, config: map<string, ServiceConfig>, news: seq<string>, w': World, id: nat) {
    if id in w.services && w.services[id].name !in config then
      id !in w'.services
    else if id in w.services then
      && id in w'.services && w'.services[id].name == w.services[id].name
      && if w.services[id].config == config[w.services[id].name]
         then w'.services[id] == w.services[id] && SameStarts(w, w', id)
         else RunsAfresh(w, w', id, config[w.services[id].name])
    else if w.nextId <= id < w.nextId + |news| then
      && id in w'.services && w'.services[id].name == news[id - w.nextId] && w'.services[id].name in config
      && RunsAfresh(w, w', id, config[w'.services[id].name])
    else
      id !in w'.services
  }

  // ------------------------------------------------ what follows a reload

  /**
   An event that leaves reload its way: time passes, children change status, the timer ticks and what
   it has to start does start, and only processes that were asked to stop end. No order is imposed.
   */
  ghost predicate Undisturbing(v: World, e: Event) {
    match e
    case Reported(_, _) => true
    case Elapsed(_) => true
    case ChildSignal(order, failed) =>
      !failed && forall id | id in v.services && Ending(v, id, order).Some? :: v.services[id].state.Stopping?
    case Timer(_, answers) =>
      forall id | id in v.services && RestartDue(v.services[id]) :: Ask(answers, id).ok
    case _ => false
  }

  ghost predicate Undisturbed(v: World, es: seq<Event>)
    requires Feasible(v, es)
  {
    es == [] || (Undisturbed(v, es[..|es| - 1]) && Undisturbing(Run(v, es[..|es| - 1]), es[|es| - 1]))
  }

  /** `s` was stopped by the reload that left it, and its process has since been reaped. */
  predicate ReapedFrom(s: Service, t: Service) {
    t.state.Stopped? && t == s.(state := t.state)
  }

  /**
   Where service `id` is on its way from state `w1`, in which a reload left it: still as it was left;
   reaped, with its pending action kept; or done, that is removed or started again.
   */
  ghost predicate Settling(w1: World, v: World, id: nat) {
    if id !in w1.services then id !in v.services && SameStarts(w1, v, id)
    else
      var s := w1.services[id];
      || (Entry(v, id) == Some(s) && SameStarts(w1, v, id))
      || (s.state.Stopping? && s.pending != NoAction && SameStarts(w1, v, id) &&
          if id in v.services then ReapedFrom(s, v.services[id]) else s.pending == Remove)
      || (s.state.Stopping? && s.pending == Restart && RestartedFrom(w1, v, id, s))
  }

  ghost predicate RestartedFrom(w1: World, v: World, id: nat, s: Service) {
    && id in v.services && v.services[id].state.Running?
    && v.services[id] == s.(state := v.services[id].state, pending := NoAction)
    && StartedAs(w1, v, id, s, v.services[id].state.pid)
  }

  /** As reload leaves a service: a stopping one is to be removed or restarted, and nothing else is due. */
  predicate LeftByReload(s: Service) {
    if s.state.Stopping? then s.pending in {Remove, Restart}
    else s.pending == NoAction && (s.state.Stopped? ==> DueAction(s) == NoAction)
  }

  lemma SettlingMove(w1: World, v: World, e: Event, v': World, id: nat)
    requires Settling(w1, v, id) && (id in w1.services ==> LeftByReload(w1.services[id]))
    requires Undisturbing(v, e) && LocalStep(v, e, v', id) && w1.clock <= v.clock <= v'.clock
    ensures Settling(w1, v', id)
  {
    assert id in v'.services <==> Entry(v', id).Some?;
  }

  lemma {:induction false} SettlingRun(w1: World, es: seq<Event>, id: nat)
    requires Inv(w1) && Feasible(w1, es) && Undisturbed(w1, es)
    requires id in w1.services ==> LeftByReload(w1.services[id])
    ensures Settling(w1, Run(w1, es), id)
  {
    if es != [] {
      var init, last := es[..|es| - 1], es[|es| - 1];
      SettlingRun(w1, init, id);
      RunInv(w1, init);
      RunGrows(w1, init);
      StepGrows(Run(w1, init), last);
      StepAt(Run(w1, init), last, id);
      SettlingMove(w1, Run(w1, init), last, Run(w1, es), id);
    }
  }

  /** Nothing is stopping and nothing is pending. */
  ghost predicate AtRest(v: World) {
    forall id | id in v.services :: !v.services[id].state.Stopping? && v.services[id].pending == NoAction
  }

  lemma LeftAt(w: World, config: map<string, ServiceConfig>, answers: map<string, Answer>, news: seq<string>,
               w1: World, id: nat)
    requires Quiescent(w) && ReloadsTo(w, config, answers, news, w1, id)
    ensures id in w1.services ==> LeftByReload(w1.services[id])
  {
    assert id in w1.services <==> Entry(w1, id).Some?;
  }

  /** A service that has come to rest has settled. */
  lemma RestIsSettled(w: World, config: map<string, ServiceConfig>, answers: map<string, Answer>, news: seq<string>,
                      w1: World, v: World, id: nat)
    requires Quiescent(w) && ReloadsTo(w, config, answers, news, w1, id) && Settling(w1, v, id)
    requires id in v.services ==> !v.services[id].state.Stopping? && v.services[id].pending == NoAction
    ensures SettlesTo(w, config, news, v, id)
  {
    assert id in w1.services <==> Entry(w1, id).Some?;
    assert id in v.services <==> Entry(v, id).Some?;
  }

  /** The registry, by name, is the configuration; what is new or changed runs, the rest is untouched. */
  ghost predicate Converged(w: World, config: map<string, ServiceConfig>, w': World) {
    && Names(w'.services) == config.Keys
    && forall id | id in w'.services :: ConvergedAt(w, config, w', id)
  }

  ghost predicate ConvergedAt(w: World, config: map<string, ServiceConfig>, w': World, id: nat)
    requires id in w'.services
  {
    var s := w'.services[id];
    && s.name in config && s.config == config[s.name]
    && if id in w.services && w.services[id].config == s.config
       then s == w.services[id] && SameStarts(w, w', id)
       else RunsAfresh(w, w', id, s.config)
  }

  lemma SettledConvergesAt(w: World, config: map<string, ServiceConfig>, news: seq<string>, w': World, id: nat)
    requires SettlesTo(w, config, news, w', id) && id in w'.services
    ensures ConvergedAt(w, config, w', id)
  {
  }

  lemma SettledName(w: World, config: map<string, ServiceConfig>, ids: map<string, nat>, applied: seq<string>,
                    w': World, n: string)
    requires Inv(w) && Indexes(ids, w.services) && Enumerates(applied, config.Keys) && n in config
    requires forall id :: SettlesTo(w, config, Newcomers(applied, ids), w', id)
    ensures n in Names(w'.services)
  {
    var id := NameHasId(w, config, ids, applied, n);
    assert SettlesTo(w, config, Newcomers(applied, ids), w', id);
    assert id in w'.services && w'.services[id].name == n;
  }

  lemma SettledIsConverged(w: World, config: map<string, ServiceConfig>, ids: map<string, nat>, applied: seq<string>,
                           w': World)
    requires Inv(w) && Indexes(ids, w.services) && Enumerates(applied, config.Keys)
    requires forall id :: SettlesTo(w, config, Newcomers(applied, ids), w', id)
    ensures Converged(w, config, w')
  {
    forall id | id in w'.services ensures ConvergedAt(w, config, w', id) {
      SettledConvergesAt(w, config, Newcomers(applied, ids), w', id);
    }
    forall n | n in config ensures n in Names(w'.services) {
      SettledName(w, config, ids, applied, w', n);
    }
  }

  /** A successful reload of a quiescent state; `ReloadOkIff` says when it is successful. */
  ghost predicate Reloaded(w: World, reload: Event) {
    && Inv(w) && Quiescent(w) && w.phase.Serving?
    && reload.Hangup? && reload.config.Some? && Possible(w, reload)
    && Reload(w, reload.config.value, reload.scan, reload.removal, reload.applied, reload.byName).ok
  }

  lemma ReloadedAt(w: World, reload: Event, es: seq<Event>, id: nat)
    requires Reloaded(w, reload) && Feasible(Step(w, reload), es) && Undisturbed(Step(w, reload), es)
    ensures Inv(Step(w, reload))
    ensures ReloadsTo(w, reload.config.value, reload.byName, Newcomers(reload.applied, Index(w.services, reload.scan)),
                      Step(w, reload), id)
    ensures Settling(Step(w, reload), Run(Step(w, reload), es), id)
  {
    var config := reload.config.value;
    StepInv(w, reload);
    ReloadAt(w, config, reload.scan, reload.removal, reload.applied, reload.byName, id);
    LeftAt(w, config, reload.byName, Newcomers(reload.applied, Index(w.services, reload.scan)), Step(w, reload), id);
    SettlingRun(Step(w, reload), es, id);
  }

  lemma RestIsConverged(w: World, reload: Event, es: seq<Event>)
    requires Reloaded(w, reload) && Feasible(Step(w, reload), es) && Undisturbed(Step(w, reload), es)
    requires AtRest(Run(Step(w, reload), es))
    ensures Converged(w, reload.config.value, Run(Step(w, reload), es))
  {
    var config := reload.config.value;
    var ids := Index(w.services, reload.scan);
    var w1 := Step(w, reload);
    var v := Run(w1, es);
    IndexExact(w, reload.scan);
    forall id ensures SettlesTo(w, config, Newcomers(reload.applied, ids), v, id) {
      ReloadedAt(w, reload, es, id);
      RestIsSettled(w, config, reload.byName, Newcomers(reload.applied, ids), w1, v, id);
    }
    SettledIsConverged(w, config, ids, reload.applied, v);
  }

  lemma ConvergedIsRest(w: World, config: map<string, ServiceConfig>, v: World)
    requires Quiescent(w) && Converged(w, config, v)
    ensures AtRest(v)
  {
    forall id | id in v.services ensures !v.services[id].state.Stopping? && v.services[id].pending == NoAction {
      assert ConvergedAt(w, config, v, id);
    }
  }

  /**
   Reload converges. Let a reload of a quiescent state succeed, and let anything follow in which only
   processes asked to stop end, at whatever times and reported in whatever groups, and the timer ticks
   at whatever times. The registry is the new configuration exactly when nothing is stopping and
   nothing is pending any more.
   */
  lemma ReloadConvergesIff(w: World, reload: Event, es: seq<Event>)
    requires Reloaded(w, reload) && Feasible(Step(w, reload), es) && Undisturbed(Step(w, reload), es)
    ensures Converged(w, reload.config.value, Run(Step(w, reload), es)) <==> AtRest(Run(Step(w, reload), es))
  {
    if AtRest(Run(Step(w, reload), es)) {
      RestIsConverged(w, reload, es);
    } else if Converged(w, reload.config.value, Run(Step(w, reload), es)) {
      ConvergedIsRest(w, reload.config.value, Run(Step(w, reload), es));
    }
  }

  lemma TickBringsRest(w1: World, v: World, tick: Event, v': World, id: nat)
    requires Settling(w1, v, id) && (id in w1.services ==> LeftByReload(w1.services[id]))
    requires tick.Timer? && Undisturbing(v, tick) && LocalStep(v, tick, v', id)
    requires id in v.services ==> !v.services[id].state.Stopping?
    ensures id in v'.services ==> !v'.services[id].state.Stopping? && v'.services[id].pending == NoAction
  {
    assert id in v'.services <==> Entry(v', id).Some?;
  }

  /** ... and one more tick suffices once every process that was asked to stop has been reaped. */
  lemma ReloadConverges(w: World, reload: Event, es: seq<Event>, tick: Event)
    requires Reloaded(w, reload) && Feasible(Step(w, reload), es) && Undisturbed(Step(w, reload), es)
    requires forall id | id in Run(Step(w, reload), es).services ::
               !Run(Step(w, reload), es).services[id].state.Stopping?
    requires tick.Timer? && Possible(Run(Step(w, reload), es), tick) && Undisturbing(Run(Step(w, reload), es), tick)
    ensures Converged(w, reload.config.value, Step(Run(Step(w, reload), es), tick))
  {
    var w1 := Step(w, reload);
    var v := Run(w1, es);
    var news := Newcomers(reload.applied, Index(w.services, reload.scan));
    var longer := es + [tick];
    assert longer[..|longer| - 1] == es;
    assert Run(w1, longer) == Step(v, tick);
    forall id | id in Step(v, tick).services
      ensures !Step(v, tick).services[id].state.Stopping? && Step(v, tick).services[id].pending == NoAction
    {
      ReloadedAt(w, reload, es, id);
      LeftAt(w, reload.config.value, reload.byName, news, w1, id);
      RunInv(w1, es);
      StepAt(v, tick, id);
      TickBringsRest(w1, v, tick, Step(v, tick), id);
    }
    RestIsConverged(w, reload, longer);
  }

  /**
   The quiescent start is needed: a service named again, unchanged, while its removal is pending
   keeps that pending action through a successful reload, and so still goes away.
   */
  lemma PendingRemovalSurvives(w: World, config: map<string, ServiceConfig>, scan: seq<nat>, removal: seq<string>,
                               applied: seq<string>, answers: map<string, Answer>, id: nat)
    requires Inv(w) && ReloadOrders(w, config, scan, removal, applied)
    requires Reload(w, config, scan, removal, applied, answers).ok
    requires id in w.services && w.services[id].name in config && w.services[id].pending == Remove
    ensures var w' := Reload(w, config, scan, removal, applied, answers).world;
      && id in w'.services
      && (w'.services[id].pending == Remove <==>
            w.services[id].config == config[w.services[id].name] || w.services[id].IsStopped())
  {
    ReloadAt(w, config, scan, removal, applied, answers, id);
  }

  /**
   "A running service has nothing pending" is not kept either: a successful reload that starts a
   stopped, changed service leaves it running with the pending action it had.
   */
  lemma StartedWithPendingIff(w: World, config: map<string, ServiceConfig>, scan: seq<nat>, removal: seq<string>,
                              applied: seq<string>, answers: map<string, Answer>)
    requires Inv(w) && ReloadOrders(w, config, scan, removal, applied)
    requires Reload(w, config, scan, removal, applied, answers).ok
    requires forall id | id in w.services && w.services[id].state.Running? :: w.services[id].pending == NoAction
    ensures var w' := Reload(w, config, scan, removal, applied, answers).world;
      (forall id | id in w'.services && w'.services[id].state.Running? :: w'.services[id].pending == NoAction) <==>
      (forall id | id in w.services && w.services[id].IsStopped() && w.services[id].name in config &&
                   w.services[id].config != config[w.services[id].name] :: w.services[id].pending == NoAction)
  {
    var w' := Reload(w, config, scan, removal, applied, answers).world;
    var news := Newcomers(applied, Index(w.services, scan));
    forall id ensures ReloadsTo(w, config, answers, news, w', id) {
      ReloadAt(w, config, scan, removal, applied, answers, id);
    }
    if id :| id in w.services && w.services[id].IsStopped() && w.services[id].name in config &&
             w.services[id].config != config[w.services[id].name] && w.services[id].pending != NoAction {
      StartedFrom(w, config, answers, news, w', id);
    }
    if id :| id in w'.services && w'.services[id].state.Running? && w'.services[id].pending != NoAction {
      StartedFrom(w, config, answers, news, w', id);
    }
  }

  lemma StartedFrom(w: World, config: map<string, ServiceConfig>, answers: map<string, Answer>,
                    news: seq<string>, w': World, id: nat)
    requires ReloadsTo(w, config, answers, news, w', id)
    ensures (id in w.services && w.services[id].IsStopped() && w.services[id].name in config &&
             w.services[id].config != config[w.services[id].name]) ==>
              id in w'.services && w'.services[id].state.Running? && w'.services[id].pending == w.services[id].pending
    ensures (id in w'.services && w'.services[id].state.Running? && w'.services[id].pending != NoAction &&
             (id in w.services && w.services[id].state.Running? ==> w.services[id].pending == NoAction)) ==>
              id in w.services && w.services[id].IsStopped() && w.services[id].name in config &&
              w.services[id].config != config[w.services[id].name] && w.services[id].pending != NoAction
  {
    assert id in w'.services <==> Entry(w', id).Some?;
  }
}
