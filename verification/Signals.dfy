/**
 Under which definition a process is stopped. A reload takes over a changed definition before it stops
 the process that was forked for the old one, so signal and timeout may be those of another definition
 than the process runs.
 */
module Signals {
  import opened Types
  import opened Histories
  import opened Steps
  import opened Invariants
  import opened Lifecycles
  import opened Reloads
  import opened Runs
  import opened Executions

  /** The two definitions stop a process alike. */
  predicate StopsAlike(c: ServiceConfig, d: ServiceConfig) {
    c.stopSignal == d.stopSignal && c.stopTimeoutMs == d.stopTimeoutMs
  }

  // ---------------------------------------------------------------- who is sent a stop signal, and how

  /** The definition under which the shutdown request or a command sends `id` its stop signal, if it does. */
  function SentDirectly(w: World, e: Event, id: nat): Option<ServiceConfig> {
    if id !in w.services || !w.services[id].state.Running? then None
    else
      var s := w.services[id];
      match e
      case Terminate(_, answers) => if w.phase.Serving? && Ask(answers, id).ok then Some(s.config) else None
      case Command(target, op, a) =>
        if target == id && a.ok && (op == Stop || (op == RestartOp && s.pending == NoAction)) then Some(s.config)
        else None
      case _ => None
  }

  /** ... and by a reload that got to the names in `retired` and `done`. */
  function SentByReload(s: Service, config: map<string, ServiceConfig>, answers: map<string, Answer>,
                        retired: seq<string>, done: seq<string>): Option<ServiceConfig>
  {
    if !s.state.Running? || !Ask(answers, s.name).ok then None
    else if s.name !in config then if s.name in retired then Some(s.config) else None
    else if s.name in done && s.config != config[s.name] && Buildable(config[s.name]) then Some(config[s.name])
    else None
  }

  /** The definition under which `e` sends the process of service `id` its stop signal, if it does. */
  ghost function SentUnder(w: World, e: Event, id: nat): Option<ServiceConfig>
    requires Inv(w) && Possible(w, e)
  {
    if !e.Hangup? then SentDirectly(w, e, id)
    else if w.phase.ShuttingDown? || e.config.None? || id !in w.services then None
    else SentByReload(w.services[id], e.config.value, e.byName,
                      RetiredNames(w, e.config.value, e.scan, e.removal, e.byName),
                      AppliedNames(w, e.config.value, e.scan, e.applied, e.byName))
  }

  ghost predicate SignalsTo(w: World, under: Option<ServiceConfig>, w': World, id: nat) {
    if under.None? then SameStops(w, w', id)
    else
      && id in w.services && w.services[id].state.Running?
      && Stops(w'.history, id) == Stops(w.history, id) + 1
      && Forks(w'.history, id) == Forks(w.history, id)
      && var c := under.value;
      && var stop := LatestStop(w'.history, id);
      && stop.Some?
      && stop.value == StopSent(id, w.services[id].state.pid, c.stopSignal, c.stopTimeoutMs, stop.value.at,
                                stop.value.at + 1_000_000 * c.stopTimeoutMs)
  }

  lemma MoveSignals(w: World, e: Event, w': World, id: nat)
    requires LocalStep(w, e, w', id) && !e.Hangup?
    ensures SignalsTo(w, SentDirectly(w, e, id), w', id)
  {
  }

  lemma ReloadSignals(w: World, config: map<string, ServiceConfig>, answers: map<string, Answer>,
                      retired: seq<string>, done: seq<string>, news: seq<string>, w': World, id: nat)
    requires ReloadsPartly(w, config, answers, retired, done, news, w', id)
    ensures var under := if id in w.services then SentByReload(w.services[id], config, answers, retired, done)
                         else None;
      SignalsTo(w, under, w', id)
  {
  }

  /** The stop signals of an event are exactly those `SentUnder` says: to whom, which, and with what deadline. */
  lemma StepSignals(w: World, e: Event, id: nat)
    requires Inv(w) && Possible(w, e)
    ensures SignalsTo(w, SentUnder(w, e, id), Step(w, e), id)
  {
    if !e.Hangup? {
      StepAt(w, e, id);
      MoveSignals(w, e, Step(w, e), id);
    } else if w.phase.Serving? && e.config.Some? {
      var done := AppliedNames(w, e.config.value, e.scan, e.applied, e.byName);
      PartialReloadAt(w, e.config.value, e.scan, e.removal, e.applied, e.byName, id);
      ReloadSignals(w, e.config.value, e.byName, RetiredNames(w, e.config.value, e.scan, e.removal, e.byName), done,
                    Newcomers(done, Index(w.services, e.scan)), Step(w, e), id);
    }
  }

  // ---------------------------------------------------------------- the history

  /** `stop` is the signal, with the timeout, of the definition that `fork` was made for. */
  predicate Fitting(fork: Option<Effect>, stop: Effect) {
    && stop.StopSent? && fork.Some? && fork.value.Forked?
    && fork.value.definition.stopSignal == stop.signal && fork.value.definition.stopTimeoutMs == stop.timeoutMs
  }

  /** Every process got the stop signal, with the timeout, of the definition it was forked for. */
  ghost predicate StopsFit(h: History) {
    h.Then? ==> StopsFit(h.past) && (h.last.StopSent? ==> Fitting(LatestFork(h.past, h.last.id), h.last))
  }

  ghost predicate OneFittingStop(h: History, h': History, id: nat) {
    Stops(h', id) != Stops(h, id) ==>
      && Stops(h', id) == Stops(h, id) + 1 && Forks(h', id) == Forks(h, id)
      && LatestStop(h', id).Some? && Fitting(LatestFork(h, id), LatestStop(h', id).value)
  }

  lemma {:induction false} StopsGrow(h: History, h': History, id: nat)
    requires StageOf(h, h')
    ensures Stops(h, id) <= Stops(h', id)
  {
    if h != h' {
      StopsGrow(h, h'.past, id);
    }
  }

  lemma FittingBefore(h: History, h': History, id: nat)
    requires StageOf(h, h') && h != h' && OneFittingStop(h, h', id)
    ensures OneFittingStop(h, h'.past, id)
    ensures h'.last.StopSent? && h'.last.id == id ==> Fitting(LatestFork(h'.past, id), h'.last)
  {
    StopsGrow(h, h'.past, id);
    SameLatestFork(h, h'.past, id);
  }

  lemma {:induction false} FittingGrows(h: History, h': History)
    requires StageOf(h, h') && StopsFit(h) && forall id :: OneFittingStop(h, h', id)
    ensures StopsFit(h')
  {
    if h != h' {
      forall id
        ensures OneFittingStop(h, h'.past, id)
        ensures h'.last.StopSent? && h'.last.id == id ==> Fitting(LatestFork(h'.past, id), h'.last)
      {
        FittingBefore(h, h', id);
      }
      FittingGrows(h, h'.past);
    }
  }

  lemma {:induction false} FittingEarlier(h: History, h': History)
    requires StageOf(h, h') && StopsFit(h')
    ensures StopsFit(h)
  {
    if h != h' {
      FittingEarlier(h, h'.past);
    }
  }

  lemma {:induction false} LatestFits(h: History, h': History, id: nat)
    requires StageOf(h, h') && StopsFit(h') && Forks(h', id) == Forks(h, id) && Stops(h', id) != Stops(h, id)
    ensures LatestStop(h', id).Some? && Fitting(LatestFork(h, id), LatestStop(h', id).value)
  {
    SameLatestFork(h, h'.past, id);
    if !(h'.last.StopSent? && h'.last.id == id) {
      LatestFits(h, h'.past, id);
    }
  }

  // ---------------------------------------------------------------- stopped as it was started

  /** `e` sends a stop signal under a definition that stops otherwise than the one the process was forked for. */
  ghost predicate Misfits(w: World, e: Event, id: nat)
    requires Inv(w) && Possible(w, e)
  {
    && SentUnder(w, e, id).Some?
    && (PresentProcess(w, id);
        !StopsAlike(SentUnder(w, e, id).value, LatestFork(w.history, id).value.definition))
  }

  ghost predicate SomeMisfit(w: World, e: Event)
    requires Inv(w) && Possible(w, e)
  {
    exists id :: Misfits(w, e, id)
  }

  lemma StepFits(w: World, e: Event, id: nat)
    requires Inv(w) && Possible(w, e)
    ensures Misfits(w, e, id) <==> !OneFittingStop(w.history, Step(w, e).history, id)
  {
    StepSignals(w, e, id);
    if SentUnder(w, e, id).Some? {
      PresentProcess(w, id);
    }
  }

  lemma MisfitShows(w: World, e: Event, id: nat)
    requires Inv(w) && Possible(w, e) && Misfits(w, e, id)
    ensures !StopsFit(Step(w, e).history)
  {
    StepSignals(w, e, id);
    StepFits(w, e, id);
    StepGrows(w, e);
    if StopsFit(Step(w, e).history) {
      LatestFits(w.history, Step(w, e).history, id);
    }
  }

  /** What an event sends fits the definition that the process was forked for, except exactly in a misfit. */
  lemma StepFitsIff(w: World, e: Event)
    requires Inv(w) && Possible(w, e) && StopsFit(w.history)
    ensures StopsFit(Step(w, e).history) <==> !SomeMisfit(w, e)
  {
    if id :| Misfits(w, e, id) {
      MisfitShows(w, e, id);
    } else {
      forall id ensures OneFittingStop(w.history, Step(w, e).history, id) {
        StepFits(w, e, id);
      }
      StepGrows(w, e);
      FittingGrows(w.history, Step(w, e).history);
    }
  }

  lemma {:induction false} StartAllFits(w: World, order: seq<nat>, answers: map<nat, Answer>)
    requires StopsFit(w.history)
    ensures StopsFit(StartAll(w, order, answers).history)
  {
    if order != [] {
      StartAllFits(w, order[..|order| - 1], answers);
    }
  }

  lemma BootFits(b: World)
    requires Booted(b)
    ensures StopsFit(b.history)
  {
    var clock, waitable, config, inserted, started, answers :|
      Boots(b, clock, waitable, config, inserted, started, answers);
    InsertAllInv(Blank(clock, waitable), config, inserted);
    StartAllFits(InsertAll(Blank(clock, waitable), config, inserted).world, started, answers);
  }

  ghost predicate NeverMisfits(b: World, es: seq<Event>)
    requires Inv(b) && Feasible(b, es)
  {
    es == [] ||
    (NeverMisfits(b, es[..|es| - 1]) &&
     (RunInv(b, es[..|es| - 1]); !SomeMisfit(Run(b, es[..|es| - 1]), es[|es| - 1])))
  }

  /** Every process of a run is stopped by the definition it was forked for iff no event stops one by another. */
  lemma {:induction false} StopsFitIff(b: World, es: seq<Event>)
    requires Booted(b) && Inv(b) && Feasible(b, es)
    ensures StopsFit(Run(b, es).history) <==> NeverMisfits(b, es)
  {
    BootFits(b);
    if es != [] {
      var v, e := Run(b, es[..|es| - 1]), es[|es| - 1];
      StopsFitIff(b, es[..|es| - 1]);
      RunInv(b, es[..|es| - 1]);
      StepGrows(v, e);
      if StopsFit(v.history) {
        StepFitsIff(v, e);
      } else if StopsFit(Run(b, es).history) {
        FittingEarlier(v.history, Run(b, es).history);
      }
    }
  }

  // ---------------------------------------------------------------- where it goes wrong: a reload

  /** A running service is to be stopped as the definition its process was forked for says. */
  ghost predicate Own(h: History, id: nat, s: Service) {
    s.state.Running? ==>
      var f := LatestFork(h, id);
      f.Some? && f.value.Forked? && StopsAlike(s.config, f.value.definition)
  }

  ghost predicate AllOwn(w: World) {
    forall id | id in w.services :: Own(w.history, id, w.services[id])
  }

  /** The reload takes over, for a running service, a definition that stops it in another way. */
  predicate ChangesStopAt(s: Service, config: map<string, ServiceConfig>, done: seq<string>) {
    && s.state.Running? && s.name in config && s.name in done
    && Buildable(config[s.name]) && !StopsAlike(config[s.name], s.config)
  }

  ghost predicate ChangesStop(w: World, e: Event)
    requires Inv(w) && Possible(w, e)
  {
    && e.Hangup? && w.phase.Serving? && e.config.Some?
    && exists id :: id in w.services &&
                    ChangesStopAt(w.services[id], e.config.value,
                                  AppliedNames(w, e.config.value, e.scan, e.applied, e.byName))
  }

  /** As far as `id` goes: it is still to be stopped, or was stopped, as its process was started. */
  ghost predicate OwnAt(h: History, w': World, id: nat) {
    && (id in w'.services ==> Own(w'.history, id, w'.services[id]))
    && OneFittingStop(h, w'.history, id)
  }

  lemma MoveOwn(w: World, e: Event, w': World, id: nat)
    requires LocalStep(w, e, w', id) && !e.Hangup?
    requires id in w.services ==> Own(w.history, id, w.services[id])
    ensures OwnAt(w.history, w', id)
  {
    assert id in w'.services <==> Entry(w', id).Some?;
    assert id in w.services <==> Entry(w, id).Some?;
  }

  lemma ReloadOwn(w: World, config: map<string, ServiceConfig>, answers: map<string, Answer>,
                  retired: seq<string>, done: seq<string>, news: seq<string>, w': World, id: nat)
    requires ReloadsPartly(w, config, answers, retired, done, news, w', id)
    requires id in w.services ==> Own(w.history, id, w.services[id])
    ensures OwnAt(w.history, w', id) <==> !(id in w.services && ChangesStopAt(w.services[id], config, done))
  {
    assert id in w'.services <==> Entry(w', id).Some?;
  }

  lemma StepOwnAt(w: World, e: Event, id: nat)
    requires Inv(w) && Possible(w, e)
    requires id in w.services ==> Own(w.history, id, w.services[id])
    ensures !(e.Hangup? && w.phase.Serving? && e.config.Some?) ==> OwnAt(w.history, Step(w, e), id)
    ensures e.Hangup? && w.phase.Serving? && e.config.Some? ==>
      (OwnAt(w.history, Step(w, e), id) <==>
       !(id in w.services && ChangesStopAt(w.services[id], e.config.value,
                                           AppliedNames(w, e.config.value, e.scan, e.applied, e.byName))))
  {
    if !e.Hangup? {
      StepAt(w, e, id);
      MoveOwn(w, e, Step(w, e), id);
    } else if w.phase.Serving? && e.config.Some? {
      var done := AppliedNames(w, e.config.value, e.scan, e.applied, e.byName);
      PartialReloadAt(w, e.config.value, e.scan, e.removal, e.applied, e.byName, id);
      ReloadOwn(w, e.config.value, e.byName, RetiredNames(w, e.config.value, e.scan, e.removal, e.byName), done,
                Newcomers(done, Index(w.services, e.scan)), Step(w, e), id);
    }
  }

  lemma AllOwnAt(w: World, e: Event)
    requires Inv(w) && Possible(w, e) && AllOwn(w)
    ensures (forall id :: OwnAt(w.history, Step(w, e), id)) <==> !ChangesStop(w, e)
  {
    forall id
      ensures !(e.Hangup? && w.phase.Serving? && e.config.Some?) ==> OwnAt(w.history, Step(w, e), id)
      ensures e.Hangup? && w.phase.Serving? && e.config.Some? ==>
        (OwnAt(w.history, Step(w, e), id) <==>
         !(id in w.services && ChangesStopAt(w.services[id], e.config.value,
                                             AppliedNames(w, e.config.value, e.scan, e.applied, e.byName))))
    {
      StepOwnAt(w, e, id);
    }
  }

  /** All processes are, and always were, stopped as the definitions they were forked for say. */
  ghost predicate StopsOwn(w: World) {
    AllOwn(w) && StopsFit(w.history)
  }

  lemma OwnAtAll(w: World, e: Event)
    requires Inv(w) && Possible(w, e) && StopsOwn(w)
    ensures StopsOwn(Step(w, e)) <==> forall id :: OwnAt(w.history, Step(w, e), id)
  {
    var w' := Step(w, e);
    StepFitsIff(w, e);
    forall id ensures Misfits(w, e, id) <==> !OneFittingStop(w.history, w'.history, id) {
      StepFits(w, e, id);
    }
    if StopsOwn(w') {
      forall id ensures OwnAt(w.history, w', id) {
        assert !Misfits(w, e, id);
      }
    } else if forall id :: OwnAt(w.history, w', id) {
      assert AllOwn(w') by {
        assert forall id | id in w'.services :: OwnAt(w.history, w', id);
      }
      forall id ensures !Misfits(w, e, id) {
        assert OwnAt(w.history, w', id);
      }
      assert false;
    }
  }

  /**
   Every event stops processes as the definitions they were forked for say, and leaves the running ones
   to be stopped so, except exactly a reload that takes over, for a running service, a definition with
   another stop signal or timeout: whether or not it then manages to stop it.
   */
  lemma StepStopsOwnIff(w: World, e: Event)
    requires Inv(w) && Possible(w, e) && StopsOwn(w)
    ensures StopsOwn(Step(w, e)) <==> !ChangesStop(w, e)
  {
    AllOwnAt(w, e);
    OwnAtAll(w, e);
  }

  ghost predicate NeverChangesStop(b: World, es: seq<Event>)
    requires Inv(b) && Feasible(b, es)
  {
    es == [] ||
    (NeverChangesStop(b, es[..|es| - 1]) &&
     (RunInv(b, es[..|es| - 1]); !ChangesStop(Run(b, es[..|es| - 1]), es[|es| - 1])))
  }

  ghost predicate StopsOwnThroughout(b: World, es: seq<Event>)
    requires Feasible(b, es)
  {
    StopsOwn(Run(b, es)) && (es != [] ==> StopsOwnThroughout(b, es[..|es| - 1]))
  }

  lemma BootOwn(b: World)
    requires Booted(b)
    ensures StopsOwn(b)
  {
    BootFits(b);
    BootRunRecords(b);
    forall id | id in b.services ensures Own(b.history, id, b.services[id]) {
      assert RunsRecord(b.history, id, b.services[id]);
    }
  }

  /** The same over runs from startup. */
  lemma {:induction false} StopsOwnIff(b: World, es: seq<Event>)
    requires Booted(b) && Inv(b) && Feasible(b, es)
    ensures StopsOwnThroughout(b, es) <==> NeverChangesStop(b, es)
  {
    if es == [] {
      BootOwn(b);
    } else {
      StopsOwnIff(b, es[..|es| - 1]);
      RunInv(b, es[..|es| - 1]);
      if StopsOwnThroughout(b, es[..|es| - 1]) {
        StepStopsOwnIff(Run(b, es[..|es| - 1]), es[|es| - 1]);
      }
    }
  }
}
