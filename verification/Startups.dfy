/** What startup does, spelled out: which services there are afterwards, and which of them run. */
module Startups {
  import opened Types
  import opened Histories
  import opened Steps
  import opened Invariants
  import opened Lifecycles
  import opened Reloads

  /** No string of the definition that becomes a C string holds a NUL. */
  ghost predicate Acceptable(c: ServiceConfig) {
    && '\0' !in c.command && (forall i | 0 <= i < |c.args| :: '\0' !in c.args[i])
    && (c.env.Some? ==> forall k | k in c.env.value :: '\0' !in k && '\0' !in c.env.value[k])
  }

  lemma AcceptableIff(c: ServiceConfig)
    ensures Acceptable(c) <==> Buildable(c)
  {
    ArgvSpelled(c);
    EnvpSpelled(c);
  }

  /** Every definition can be built, and there are ids for all of them. */
  ghost predicate Startable(config: map<string, ServiceConfig>) {
    (forall n | n in config :: Acceptable(config[n])) && |config| <= 0xFFFF_FFFF_FFFF_FFFF
  }

  /** Service `id` as startup leaves it: it has its definition, and runs it if its fork succeeded. */
  ghost predicate StartedUpAt(b: World, clock: nat, name: string, c: ServiceConfig, answers: map<nat, Answer>,
                              id: nat)
  {
    && id in b.services
    && var s := b.services[id];
    && s == Service(id, name, c, s.argv, c.env, s.state, NoAction) && Spells(s.argv, c)
    && if id in answers && answers[id].ok then
         && s.state == Running(answers[id].pid)
         && Forks(b.history, id) == 1
         && var f := LatestFork(b.history, id);
         && f.Some? && clock <= f.value.at <= b.clock
         && f.value == Forked(id, answers[id].pid, s.argv, c.env, c, f.value.at)
       else
         s.state == Stopped(NeverStarted) && Forks(b.history, id) == 0
  }

  /** The registry is the configuration, numbered in the order of insertion, and every service was started. */
  ghost predicate StartedUp(b: World, clock: nat, config: map<string, ServiceConfig>, inserted: seq<string>,
                            answers: map<nat, Answer>)
  {
    && b.phase == Serving && b.exit == Looping && b.nextId == |inserted|
    && (set id | id in b.services :: b.services[id].name) == config.Keys
    && (forall id: nat :: id in b.services <==> id < |inserted|)
    && forall id | id in b.services ::
         inserted[id] in config && StartedUpAt(b, clock, inserted[id], config[inserted[id]], answers, id)
  }

  // ---------------------------------------------------------------- the first loop

  ghost predicate InsertedAs(w: World, clock: nat, waitable: map<nat, WaitStatus>, config: map<string, ServiceConfig>,
                             order: seq<string>)
    requires forall n | n in order :: n in config
  {
    && w == Blank(clock, waitable).(services := w.services, nextId := |order|)
    && (forall id: nat :: id in w.services <==> id < |order|)
    && forall id: nat | id < |order| ::
         Buildable(config[order[id]]) && w.services[id] == NewService(id, order[id], config[order[id]])
  }

  lemma InsertsOneMore(w: World, clock: nat, waitable: map<nat, WaitStatus>, config: map<string, ServiceConfig>,
                       order: seq<string>)
    requires order != [] && (forall n | n in order :: n in config)
    requires forall n | n in order[..|order| - 1] :: n in config
    requires InsertedAs(w, clock, waitable, config, order[..|order| - 1])
    requires Buildable(config[order[|order| - 1]]) && |order| <= U64_MAX
    ensures var n := order[|order| - 1];
      InsertedAs(InsertOne(w, n, config[n]).world, clock, waitable, config, order)
  {
  }

  lemma {:induction false} InsertAllAt(clock: nat, waitable: map<nat, WaitStatus>, config: map<string, ServiceConfig>,
                                       order: seq<string>)
    requires forall n | n in order :: n in config
    ensures var o := InsertAll(Blank(clock, waitable), config, order);
      && (o.ok <==> (forall n | n in order :: Buildable(config[n])) && |order| <= U64_MAX)
      && (o.ok ==> InsertedAs(o.world, clock, waitable, config, order))
  {
    if order != [] {
      var last := |order| - 1;
      SplitLast(order);
      InsertAllAt(clock, waitable, config, order[..last]);
      var o := InsertAll(Blank(clock, waitable), config, order[..last]);
      if o.ok && Buildable(config[order[last]]) && |order| <= U64_MAX {
        InsertsOneMore(o.world, clock, waitable, config, order);
      }
    }
  }

  // ---------------------------------------------------------------- the second loop

  ghost predicate LaunchedAt(w: World, here: bool, a: Answer, w': World, id: nat) {
    && (if here && id in w.services && a.ok
        then Entry(w', id) == Some(w.services[id].(state := Running(a.pid))) &&
             StartedAs(w, w', id, w.services[id], a.pid)
        else Entry(w', id) == Entry(w, id) && SameStarts(w, w', id))
    && SameFrame(w, w') && w.clock <= w'.clock
  }

  lemma StartOneAt(w: World, x: nat, a: Answer, id: nat)
    ensures LaunchedAt(w, x == id, a, StartOne(w, x, a), id)
  {
  }

  lemma {:induction false} StartAllAt(w: World, order: seq<nat>, answers: map<nat, Answer>, id: nat)
    requires NoDuplicates(order)
    ensures LaunchedAt(w, id in order, Ask(answers, id), StartAll(w, order, answers), id)
  {
    if order != [] {
      var last := |order| - 1;
      SplitLast(order);
      StartAllAt(w, order[..last], answers, id);
      StartOneAt(StartAll(w, order[..last], answers), order[last], Ask(answers, order[last]), id);
    }
  }

  // ---------------------------------------------------------------- the whole of startup

  lemma LaunchedIsStarted(w: World, clock: nat, waitable: map<nat, WaitStatus>, config: map<string, ServiceConfig>,
                          inserted: seq<string>, answers: map<nat, Answer>, b: World, id: nat)
    requires (forall n | n in inserted :: n in config) && InsertedAs(w, clock, waitable, config, inserted)
    requires LaunchedAt(w, id in w.services, Ask(answers, id), b, id)
    ensures id in b.services <==> id < |inserted|
    ensures id < |inserted| ==> StartedUpAt(b, clock, inserted[id], config[inserted[id]], answers, id)
  {
    assert id in b.services <==> Entry(b, id).Some?;
    if id < |inserted| {
      ArgvSpelled(config[inserted[id]]);
      EnvpSpelled(config[inserted[id]]);
    }
  }

  lemma NamesAreConfigured(b: World, clock: nat, config: map<string, ServiceConfig>, inserted: seq<string>,
                           answers: map<nat, Answer>)
    requires Enumerates(inserted, config.Keys)
    requires forall id: nat :: id in b.services <==> id < |inserted|
    requires forall id: nat | id < |inserted| :: StartedUpAt(b, clock, inserted[id], config[inserted[id]], answers, id)
    ensures (set id | id in b.services :: b.services[id].name) == config.Keys
  {
    var names := set id | id in b.services :: b.services[id].name;
    forall n | n in config ensures n in names {
      var id: nat :| id < |inserted| && inserted[id] == n;
      assert id in b.services && b.services[id].name == n;
    }
    forall n | n in names ensures n in config {
      var id :| id in b.services && b.services[id].name == n;
      assert StartedUpAt(b, clock, inserted[id], config[inserted[id]], answers, id);
    }
  }

  /** After startup the registry is the configuration, and every service whose fork succeeded runs its definition. */
  lemma StartupOutcome(b: World, clock: nat, waitable: map<nat, WaitStatus>, config: map<string, ServiceConfig>,
                       inserted: seq<string>, started: seq<nat>, answers: map<nat, Answer>)
    requires Boots(b, clock, waitable, config, inserted, started, answers)
    ensures StartedUp(b, clock, config, inserted, answers)
  {
    var w := InsertAll(Blank(clock, waitable), config, inserted).world;
    InsertAllAt(clock, waitable, config, inserted);
    StartAllAt(w, started, answers, 0);
    forall id: nat
      ensures id in b.services <==> id < |inserted|
      ensures id < |inserted| ==> StartedUpAt(b, clock, inserted[id], config[inserted[id]], answers, id)
    {
      StartAllAt(w, started, answers, id);
      LaunchedIsStarted(w, clock, waitable, config, inserted, answers, b, id);
    }
    NamesAreConfigured(b, clock, config, inserted, answers);
  }

  /** Startup gets to the event loop exactly when every definition can be built and the ids suffice. */
  lemma StartupOkIff(clock: nat, waitable: map<nat, WaitStatus>, config: map<string, ServiceConfig>,
                     inserted: seq<string>)
    requires Enumerates(inserted, config.Keys)
    ensures InsertAll(Blank(clock, waitable), config, inserted).ok <==> Startable(config)
  {
    InsertAllAt(clock, waitable, config, inserted);
    SizeOfDistinct(inserted);
    assert Elements(inserted) == config.Keys;
    assert |config| == |config.Keys|;
    forall n | n in config ensures Acceptable(config[n]) <==> Buildable(config[n]) {
      AcceptableIff(config[n]);
    }
  }

  /** In particular, every run begins with exactly the configured services. */
  lemma BootedOutcome(b: World)
    requires Booted(b)
    ensures exists clock: nat, config: map<string, ServiceConfig>, inserted: seq<string>, answers: map<nat, Answer> ::
              Enumerates(inserted, config.Keys) && Startable(config) && StartedUp(b, clock, config, inserted, answers)
  {
    var clock, waitable, config, inserted, started, answers :|
      Boots(b, clock, waitable, config, inserted, started, answers);
    StartupOutcome(b, clock, waitable, config, inserted, started, answers);
    StartupOkIff(clock, waitable, config, inserted);
  }
}
