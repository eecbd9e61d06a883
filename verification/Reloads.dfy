/**
 Reload without its loops: when it succeeds, what it makes of every service, and that neither the
 iteration orders nor a second reload matter.
 */
module Reloads {
  import opened Types
  import opened Histories
  import opened Steps
  import opened Invariants
  import opened Lifecycles

  // ---------------------------------------------------------------- one service

  /** Service `id` is as it was, and nothing was done to its process. */
  ghost predicate Untouched(w: World, w': World, id: nat) {
    Entry(w', id) == Entry(w, id) && SameStarts(w, w', id) && SameStops(w, w', id)
  }

  /** What a reload makes of a service the configuration no longer names, also when the call fails. */
  ghost predicate RetiresTo(w: World, w': World, id: nat, s: Service, a: Answer, r: Option<Service>) {
    && SameStarts(w, w', id)
    && match s.state
       case Stopped(_) => r == None && SameStops(w, w', id)
       case _ => r.Some? && StopsTo(w, w', id, s.(pending := Remove), a, r.value)
  }

  /** What a reload makes of a service whose definition changed to `c`, also when it is rejected or a call fails. */
  ghost predicate RevisesTo(w: World, w': World, id: nat, s: Service, c: ServiceConfig, a: Answer, s': Service) {
    if Argv(c).None? then s' == s && SameStarts(w, w', id) && SameStops(w, w', id)
    else if Envp(c).None? then s' == s.(argv := Argv(c).value) && SameStarts(w, w', id) && SameStops(w, w', id)
    else
      var u := s.(config := c, argv := Argv(c).value, envp := Envp(c).value);
      match s.state
      case Stopped(_) =>
        && SameStops(w, w', id)
        && if a.ok then s' == u.(state := Running(a.pid)) && StartedAs(w, w', id, u, a.pid)
           else s' == u && SameStarts(w, w', id)
      case _ => SameStarts(w, w', id) && StopsTo(w, w', id, u.(pending := Restart), a, s')
  }

  /** A service the configuration newly names. */
  function Launched(id: nat, name: string, c: ServiceConfig, a: Answer): Service
    requires Buildable(c)
  {
    NewService(id, name, c).(state := Running(a.pid))
  }

  ghost predicate LaunchesTo(w: World, w': World, id: nat, name: string, c: ServiceConfig, a: Answer) {
    && Buildable(c) && Entry(w', id) == Some(Launched(id, name, c, a))
    && StartedAs(w, w', id, NewService(id, name, c), a.pid) && SameStops(w, w', id)
  }

  /** The kernel call that reload needs for a service in this state succeeds, if there is one. */
  predicate RetireOk(s: Service, a: Answer) {
    s.state.Running? ==> a.ok
  }

  predicate ReviseOk(s: Service, c: ServiceConfig, a: Answer) {
    s.config != c ==> Buildable(c) && (!s.state.Stopping? ==> a.ok)
  }

  predicate LaunchOk(id: nat, c: ServiceConfig, a: Answer) {
    id < U64_MAX && Buildable(c) && a.ok
  }

  // ---------------------------------------------------------------- the removal loop

  ghost predicate RemovesTo(w: World, config: map<string, ServiceConfig>, names: seq<string>,
                            answers: map<string, Answer>, w': World, id: nat)
  {
    if id in w.services && w.services[id].name in names && w.services[id].name !in config
    then RetiresTo(w, w', id, w.services[id], Ask(answers, w.services[id].name), Entry(w', id))
    else Untouched(w, w', id)
  }

  lemma RemoveOneAt(w: World, config: map<string, ServiceConfig>, name: string, x: nat, a: Answer, id: nat)
    requires x in w.services ==> w.services[x].name == name
    ensures var o := RemoveOne(w, config, name, x, a);
      && o.world.nextId == w.nextId && w.clock <= o.world.clock
      && (o.ok <==> x in w.services && name !in config ==> RetireOk(w.services[x], a))
      && (id != x || x !in w.services || name in config ==> Untouched(w, o.world, id))
      && (x in w.services && name !in config ==> RetiresTo(w, o.world, x, w.services[x], a, Entry(o.world, x)))
  {
  }

  ghost predicate RemovalOk(w: World, config: map<string, ServiceConfig>, ids: map<string, nat>,
                            names: seq<string>, answers: map<string, Answer>)
    requires Indexes(ids, w.services)
  {
    forall n | n in names && n in ids && n !in config :: RetireOk(w.services[ids[n]], Ask(answers, n))
  }

  /** The names the removal loop gets to: all up to and including the first whose call fails. */
  ghost function Retired(w: World, config: map<string, ServiceConfig>, ids: map<string, nat>,
                         order: seq<string>, answers: map<string, Answer>): seq<string>
    requires Indexes(ids, w.services)
  {
    if order == [] || RemovalOk(w, config, ids, order[..|order| - 1], answers) then order
    else Retired(w, config, ids, order[..|order| - 1], answers)
  }

  lemma RetiredAll(w: World, config: map<string, ServiceConfig>, ids: map<string, nat>,
                   order: seq<string>, answers: map<string, Answer>)
    requires Indexes(ids, w.services) && RemovalOk(w, config, ids, order, answers)
    ensures Retired(w, config, ids, order, answers) == order
  {
    if order != [] {
      SplitLast(order);
    }
  }

  lemma RemovesOneMore(w: World, config: map<string, ServiceConfig>, order: seq<string>,
                       answers: map<string, Answer>, v: World, w': World, x: nat, id: nat)
    requires order != [] && NoDuplicates(order)
    requires x in w.services && w.services[x].name == order[|order| - 1]
    requires id in w.services && w.services[id].name == order[|order| - 1] ==> id == x
    requires RemovesTo(w, config, order[..|order| - 1], answers, v, id) && w.clock <= v.clock <= w'.clock
    requires id != x || w.services[x].name in config ==> Untouched(v, w', id)
    requires id == x && w.services[x].name !in config ==>
               x in v.services && RetiresTo(v, w', x, v.services[x], Ask(answers, order[|order| - 1]), Entry(w', x))
    ensures RemovesTo(w, config, order, answers, w', id)
  {
    SplitLast(order);
  }

  /** The removal loop, service by service, and whether it succeeds. */
  lemma {:induction false} RemoveAllAt(w: World, config: map<string, ServiceConfig>, ids: map<string, nat>,
                                       order: seq<string>, answers: map<string, Answer>, id: nat)
    requires Indexes(ids, w.services) && NoDuplicates(order) && forall n | n in order :: n in ids
    ensures var o := RemoveAll(w, config, ids, order, answers);
      && (o.ok <==> RemovalOk(w, config, ids, order, answers))
      && RemovesTo(w, config, Retired(w, config, ids, order, answers), answers, o.world, id)
      && o.world.nextId == w.nextId && w.clock <= o.world.clock
  {
    if order != [] {
      var last := |order| - 1;
      var n := order[last];
      SplitLast(order);
      RemoveAllAt(w, config, ids, order[..last], answers, id);
      RemoveAllAt(w, config, ids, order[..last], answers, ids[n]);
      var o := RemoveAll(w, config, ids, order[..last], answers);
      if o.ok {
        RetiredAll(w, config, ids, order[..last], answers);
        assert Entry(o.world, ids[n]) == Entry(w, ids[n]);
        RemoveOneAt(o.world, config, n, ids[n], Ask(answers, n), id);
        RemovesOneMore(w, config, order, answers, o.world, RemoveAll(w, config, ids, order, answers).world, ids[n], id);
      }
    }
  }

  // ---------------------------------------------------------------- the configuration loop

  /** The names in `order` that no service has yet, in that order. */
  function Newcomers(order: seq<string>, ids: map<string, nat>): seq<string> {
    if order == [] then []
    else
      var last := |order| - 1;
      Newcomers(order[..last], ids) + if order[last] in ids then [] else [order[last]]
  }

  lemma {:induction false} NewcomersAre(order: seq<string>, ids: map<string, nat>)
    ensures forall n :: n in Newcomers(order, ids) <==> n in order && n !in ids
    ensures NoDuplicates(order) ==> NoDuplicates(Newcomers(order, ids))
  {
    if order != [] {
      SplitLast(order);
      NewcomersAre(order[..|order| - 1], ids);
    }
  }

  /** `ids` names the services that are still there, and every name to be applied it knows is there. */
  ghost predicate Linked(ids: map<string, nat>, w: World, names: seq<string>) {
    && (forall id | id in w.services :: w.services[id].name in ids && ids[w.services[id].name] == id && id < w.nextId)
    && (forall n | n in names && n in ids :: ids[n] in w.services && w.services[ids[n]].name == n)
  }

  function Min(a: nat, b: nat): nat {
    if a < b then a else b
  }

  /** All of `names` were gone through, at most the last of them in vain. */
  ghost predicate AppliesTo(w: World, config: map<string, ServiceConfig>, ids: map<string, nat>, names: seq<string>,
                            answers: map<string, Answer>, w': World, id: nat)
    requires forall n | n in names :: n in config
  {
    var news := Newcomers(names, ids);
    && w'.nextId == Min(w.nextId + |news|, U64_MAX)
    && if id in w.services then
         var s := w.services[id];
         && id in w'.services
         && if s.name in names && s.config != config[s.name]
            then RevisesTo(w, w', id, s, config[s.name], Ask(answers, s.name), w'.services[id])
            else Untouched(w, w', id)
       else if w.nextId <= id < w.nextId + |news| then
         var n := news[id - w.nextId];
         && n in names
         && if LaunchOk(id, config[n], Ask(answers, n)) then LaunchesTo(w, w', id, n, config[n], Ask(answers, n))
            else Untouched(w, w', id)
       else Untouched(w, w', id)
  }

  lemma ReviseOneAt(w: World, x: nat, c: ServiceConfig, a: Answer, id: nat)
    requires x in w.services
    ensures var o := ReviseOne(w, x, c, a);
      && (o.ok <==> ReviseOk(w.services[x], c, a))
      && o.world.nextId == w.nextId && w.clock <= o.world.clock
      && (id != x || w.services[x].config == c ==> Untouched(w, o.world, id))
      && x in o.world.services
      && (w.services[x].config != c ==> RevisesTo(w, o.world, x, w.services[x], c, a, o.world.services[x]))
  {
  }

  lemma AddOneAt(w: World, name: string, c: ServiceConfig, a: Answer, id: nat)
    requires w.nextId !in w.services
    ensures var o := AddOne(w, name, c, a);
      && (o.ok <==> LaunchOk(w.nextId, c, a))
      && o.world.nextId == (if w.nextId < U64_MAX then w.nextId + 1 else w.nextId) && w.clock <= o.world.clock
      && (if id == w.nextId && LaunchOk(id, c, a) then LaunchesTo(w, o.world, id, name, c, a)
          else Untouched(w, o.world, id))
  {
  }

  ghost predicate RevisionsOk(w: World, config: map<string, ServiceConfig>, ids: map<string, nat>,
                              names: seq<string>, answers: map<string, Answer>)
    requires Linked(ids, w, names) && forall n | n in names :: n in config
  {
    forall n | n in names && n in ids :: ReviseOk(w.services[ids[n]], config[n], Ask(answers, n))
  }

  ghost predicate AdditionsOk(w: World, config: map<string, ServiceConfig>, ids: map<string, nat>,
                              names: seq<string>, answers: map<string, Answer>)
    requires forall n | n in names :: n in config
  {
    && (forall n | n in names && n !in ids :: Buildable(config[n]) && Ask(answers, n).ok)
    && w.nextId + |Newcomers(names, ids)| <= U64_MAX
  }

  ghost predicate ApplyOk(w: World, config: map<string, ServiceConfig>, ids: map<string, nat>, names: seq<string>,
                          answers: map<string, Answer>)
    requires Linked(ids, w, names) && forall n | n in names :: n in config
  {
    RevisionsOk(w, config, ids, names, answers) && AdditionsOk(w, config, ids, names, answers)
  }

  /** The names the configuration loop gets to: all up to and including the first that fails. */
  ghost function Applied(w: World, config: map<string, ServiceConfig>, ids: map<string, nat>, order: seq<string>,
                         answers: map<string, Answer>): (r: seq<string>)
    requires Linked(ids, w, order) && forall n | n in order :: n in config
    ensures forall n | n in r :: n in order
  {
    if order == [] then []
    else
      assert forall n | n in order[..|order| - 1] :: n in order;
      if ApplyOk(w, config, ids, order[..|order| - 1], answers) then order
      else Applied(w, config, ids, order[..|order| - 1], answers)
  }

  lemma AppliedAll(w: World, config: map<string, ServiceConfig>, ids: map<string, nat>, order: seq<string>,
                   answers: map<string, Answer>)
    requires Linked(ids, w, order) && (forall n | n in order :: n in config)
    requires ApplyOk(w, config, ids, order, answers)
    ensures Applied(w, config, ids, order, answers) == order
  {
    if order != [] {
      SplitLast(order);
    }
  }

  lemma AppliedGoesOn(w: World, config: map<string, ServiceConfig>, ids: map<string, nat>, order: seq<string>,
                      answers: map<string, Answer>)
    requires order != [] && Linked(ids, w, order) && (forall n | n in order :: n in config)
    requires Linked(ids, w, order[..|order| - 1]) && forall n | n in order[..|order| - 1] :: n in config
    requires ApplyOk(w, config, ids, order[..|order| - 1], answers)
    ensures Applied(w, config, ids, order[..|order| - 1], answers) == order[..|order| - 1]
    ensures Applied(w, config, ids, order, answers) == order
  {
    AppliedAll(w, config, ids, order[..|order| - 1], answers);
  }

  lemma AppliedStops(w: World, config: map<string, ServiceConfig>, ids: map<string, nat>, order: seq<string>,
                     answers: map<string, Answer>)
    requires order != [] && Linked(ids, w, order) && (forall n | n in order :: n in config)
    requires Linked(ids, w, order[..|order| - 1]) && forall n | n in order[..|order| - 1] :: n in config
    requires !ApplyOk(w, config, ids, order[..|order| - 1], answers)
    ensures Applied(w, config, ids, order, answers) == Applied(w, config, ids, order[..|order| - 1], answers)
    ensures !ApplyOk(w, config, ids, order, answers)
  {
    SplitLast(order);
  }

  lemma ApplyOneOk(w: World, v: World, config: map<string, ServiceConfig>, ids: map<string, nat>,
                   order: seq<string>, answers: map<string, Answer>)
    requires order != [] && NoDuplicates(order) && (forall n | n in order :: n in config)
    requires Linked(ids, w, order) && Linked(ids, w, order[..|order| - 1])
    requires ApplyOk(w, config, ids, order[..|order| - 1], answers)
    requires var n := order[|order| - 1];
      if n in ids then ids[n] in v.services && v.services[ids[n]] == w.services[ids[n]]
      else v.nextId !in v.services && v.nextId == w.nextId + |Newcomers(order[..|order| - 1], ids)|
    ensures var n := order[|order| - 1];
      ApplyOne(v, ids, n, config[n], Ask(answers, n)).ok <==> ApplyOk(w, config, ids, order, answers)
  {
    var n := order[|order| - 1];
    SplitLast(order);
    if n in ids {
      ReviseOneAt(v, ids[n], config[n], Ask(answers, n), ids[n]);
    } else {
      AddOneAt(v, n, config[n], Ask(answers, n), 0);
    }
  }

  lemma RevisesOneMore(w: World, config: map<string, ServiceConfig>, ids: map<string, nat>, order: seq<string>,
                       answers: map<string, Answer>, v: World, w': World, x: nat, id: nat)
    requires order != [] && NoDuplicates(order) && (forall n | n in order :: n in config)
    requires Linked(ids, w, order) && order[|order| - 1] in ids && x == ids[order[|order| - 1]]
    requires AppliesTo(w, config, ids, order[..|order| - 1], answers, v, id) && w.clock <= v.clock <= w'.clock
    requires x in v.services && v.services[x] == w.services[x] && x in w'.services && w'.nextId == v.nextId
    requires var c := config[order[|order| - 1]];
      && (id != x || v.services[x].config == c ==> Untouched(v, w', id))
      && (v.services[x].config != c ==>
            RevisesTo(v, w', x, v.services[x], c, Ask(answers, order[|order| - 1]), w'.services[x]))
    ensures AppliesTo(w, config, ids, order, answers, w', id)
  {
    SplitLast(order);
  }

  lemma AddsOneMore(w: World, config: map<string, ServiceConfig>, ids: map<string, nat>, order: seq<string>,
                    answers: map<string, Answer>, v: World, w': World, id: nat)
    requires order != [] && NoDuplicates(order) && (forall n | n in order :: n in config)
    requires Linked(ids, w, order) && order[|order| - 1] !in ids
    requires AppliesTo(w, config, ids, order[..|order| - 1], answers, v, id) && w.clock <= v.clock <= w'.clock
    requires v.nextId !in v.services && v.nextId == w.nextId + |Newcomers(order[..|order| - 1], ids)| <= U64_MAX
    requires w'.nextId == if v.nextId < U64_MAX then v.nextId + 1 else v.nextId
    requires var n := order[|order| - 1];
      if id == v.nextId && LaunchOk(id, config[n], Ask(answers, n))
      then LaunchesTo(v, w', id, n, config[n], Ask(answers, n)) else Untouched(v, w', id)
    ensures AppliesTo(w, config, ids, order, answers, w', id)
  {
    SplitLast(order);
  }

  lemma AppliesOneMore(w: World, config: map<string, ServiceConfig>, ids: map<string, nat>, order: seq<string>,
                       answers: map<string, Answer>, v: World, id: nat)
    requires order != [] && NoDuplicates(order) && (forall n | n in order :: n in config)
    requires Linked(ids, w, order) && Linked(ids, w, order[..|order| - 1]) && w.clock <= v.clock
    requires ApplyOk(w, config, ids, order[..|order| - 1], answers)
    requires AppliesTo(w, config, ids, order[..|order| - 1], answers, v, id)
    requires AppliesTo(w, config, ids, order[..|order| - 1], answers, v,
                       if order[|order| - 1] in ids then ids[order[|order| - 1]] else v.nextId)
    ensures var n := order[|order| - 1];
      var o := ApplyOne(v, ids, n, config[n], Ask(answers, n));
      && (o.ok <==> ApplyOk(w, config, ids, order, answers))
      && AppliesTo(w, config, ids, order, answers, o.world, id)
      && w.clock <= o.world.clock
  {
    var n := order[|order| - 1];
    var w' := ApplyOne(v, ids, n, config[n], Ask(answers, n)).world;
    SplitLast(order);
    if n in ids {
      assert v.services[ids[n]] == w.services[ids[n]];
      ReviseOneAt(v, ids[n], config[n], Ask(answers, n), id);
      RevisesOneMore(w, config, ids, order, answers, v, w', ids[n], id);
    } else {
      assert v.nextId !in v.services;
      AddOneAt(v, n, config[n], Ask(answers, n), id);
      AddsOneMore(w, config, ids, order, answers, v, w', id);
    }
    ApplyOneOk(w, v, config, ids, order, answers);
  }

  /** The configuration loop, service by service, and whether it succeeds. */
  lemma {:induction false} ApplyAllAt(w: World, config: map<string, ServiceConfig>, ids: map<string, nat>,
                                      order: seq<string>, answers: map<string, Answer>, id: nat)
    requires Linked(ids, w, order) && NoDuplicates(order) && (forall n | n in order :: n in config)
    requires w.nextId <= U64_MAX
    ensures var o := ApplyAll(w, config, ids, order, answers);
      && (o.ok <==> ApplyOk(w, config, ids, order, answers))
      && AppliesTo(w, config, ids, Applied(w, config, ids, order, answers), answers, o.world, id)
      && w.clock <= o.world.clock
  {
    if order != [] {
      var last := |order| - 1;
      var n := order[last];
      SplitLast(order);
      ApplyAllAt(w, config, ids, order[..last], answers, id);
      var o := ApplyAll(w, config, ids, order[..last], answers);
      if o.ok {
        AppliedGoesOn(w, config, ids, order, answers);
        ApplyAllAt(w, config, ids, order[..last], answers, if n in ids then ids[n] else o.world.nextId);
        AppliesOneMore(w, config, ids, order, answers, o.world, id);
      } else {
        AppliedStops(w, config, ids, order, answers);
      }
    }
  }

  // ---------------------------------------------------------------- the whole reload

  function Names(services: map<nat, Service>): set<string> {
    set id | id in services :: services[id].name
  }

  /** Every stop signal for a service to be removed can be sent. */
  ghost predicate RetiresOk(w: World, config: map<string, ServiceConfig>, answers: map<string, Answer>) {
    forall id | id in w.services && w.services[id].name !in config ::
      RetireOk(w.services[id], Ask(answers, w.services[id].name))
  }

  /** Every changed definition can be taken over, and its service stopped or started. */
  ghost predicate RevisesOk(w: World, config: map<string, ServiceConfig>, answers: map<string, Answer>) {
    forall id | id in w.services && w.services[id].name in config ::
      ReviseOk(w.services[id], config[w.services[id].name], Ask(answers, w.services[id].name))
  }

  /** Every new service can be built, numbered and started. */
  ghost predicate AddsOk(w: World, config: map<string, ServiceConfig>, answers: map<string, Answer>) {
    && (forall n | n in config && n !in Names(w.services) :: Buildable(config[n]) && Ask(answers, n).ok)
    && w.nextId + |config.Keys - Names(w.services)| <= U64_MAX
  }

  /** The condition, free of any order, under which a reload returns `Ok`. */
  ghost predicate Succeeds(w: World, config: map<string, ServiceConfig>, answers: map<string, Answer>) {
    RetiresOk(w, config, answers) && RevisesOk(w, config, answers) && AddsOk(w, config, answers)
  }

  /** What a successful reload makes of service `id`, given the ids the new names receive. */
  ghost predicate ReloadsTo(w: World, config: map<string, ServiceConfig>, answers: map<string, Answer>,
                            news: seq<string>, w': World, id: nat)
  {
    && w'.nextId == w.nextId + |news|
    && if id in w.services then
         var s := w.services[id];
         var a := Ask(answers, s.name);
         if s.name !in config then RetireOk(s, a) && RetiresTo(w, w', id, s, a, Entry(w', id))
         else
           && id in w'.services
           && if s.config != config[s.name]
              then ReviseOk(s, config[s.name], a) && RevisesTo(w, w', id, s, config[s.name], a, w'.services[id])
              else Untouched(w, w', id)
       else if w.nextId <= id < w.nextId + |news| then
         var n := news[id - w.nextId];
         n in config && LaunchesTo(w, w', id, n, config[n], Ask(answers, n))
       else Untouched(w, w', id)
  }

  /**
   What any reload makes of service `id`: the names in `retired` and `applied` were gone through, the
   last of them possibly in vain, and no other.
   */
  ghost predicate ReloadsPartly(w: World, config: map<string, ServiceConfig>, answers: map<string, Answer>,
                                retired: seq<string>, applied: seq<string>, news: seq<string>, w': World, id: nat)
  {
    && w'.nextId == Min(w.nextId + |news|, U64_MAX)
    && if id in w.services then
         var s := w.services[id];
         var a := Ask(answers, s.name);
         if s.name !in config && s.name in retired then RetiresTo(w, w', id, s, a, Entry(w', id))
         else if s.name in config && s.name in applied && s.config != config[s.name] then
           id in w'.services && RevisesTo(w, w', id, s, config[s.name], a, w'.services[id])
         else Untouched(w, w', id)
       else if w.nextId <= id < w.nextId + |news| then
         var n := news[id - w.nextId];
         && n in config && n in applied
         && if LaunchOk(id, config[n], Ask(answers, n)) then LaunchesTo(w, w', id, n, config[n], Ask(answers, n))
            else Untouched(w, w', id)
       else Untouched(w, w', id)
  }

  lemma {:induction false} SizeOfDistinct<T>(order: seq<T>)
    requires NoDuplicates(order)
    ensures |Elements(order)| == |order|
  {
    if order != [] {
      var last := |order| - 1;
      SplitLast(order);
      SizeOfDistinct(order[..last]);
      assert Elements(order) == Elements(order[..last]) + {order[last]};
    }
  }

  lemma NewcomersSize(w: World, config: map<string, ServiceConfig>, ids: map<string, nat>, applied: seq<string>)
    requires Indexes(ids, w.services) && Enumerates(applied, config.Keys)
    ensures ids.Keys == Names(w.services)
    ensures Elements(Newcomers(applied, ids)) == config.Keys - Names(w.services)
    ensures |Newcomers(applied, ids)| == |config.Keys - Names(w.services)|
  {
    NewcomersAre(applied, ids);
    SizeOfDistinct(Newcomers(applied, ids));
    forall n | n in ids ensures n in Names(w.services) {
      assert w.services[ids[n]].name == n;
    }
  }

  /** The names a reload gets to in its removal loop. */
  ghost function RetiredNames(w: World, config: map<string, ServiceConfig>, scan: seq<nat>, removal: seq<string>,
                              answers: map<string, Answer>): seq<string>
    requires Identified(w) && Enumerates(scan, w.services.Keys)
  {
    IndexExact(w, scan);
    Retired(w, config, Index(w.services, scan), removal, answers)
  }

  /** The names a reload gets to in its second loop. */
  ghost function AppliedNames(w: World, config: map<string, ServiceConfig>, scan: seq<nat>, applied: seq<string>,
                              answers: map<string, Answer>): seq<string>
    requires Identified(w) && Enumerates(scan, w.services.Keys) && Enumerates(applied, config.Keys)
  {
    IndexExact(w, scan);
    if RetiresOk(w, config, answers) then Applied(w, config, Index(w.services, scan), applied, answers) else []
  }

  /** After the removal loop the configured names are linked to their services, which it left alone. */
  lemma LinkedAfterRemoval(w: World, config: map<string, ServiceConfig>, ids: map<string, nat>,
                           removal: seq<string>, applied: seq<string>, answers: map<string, Answer>)
    requires Inv(w) && Indexes(ids, w.services) && Enumerates(removal, ids.Keys) && Enumerates(applied, config.Keys)
    ensures var v := RemoveAll(w, config, ids, removal, answers).world;
      && Linked(ids, v, applied) && v.nextId == w.nextId
      && forall n | n in config && n in ids :: ids[n] in v.services && v.services[ids[n]] == w.services[ids[n]]
  {
    var v := RemoveAll(w, config, ids, removal, answers).world;
    RemoveAllAt(w, config, ids, removal, answers, 0);
    forall id | id in v.services
      ensures v.services[id].name in ids && ids[v.services[id].name] == id && id < v.nextId
    {
      RemoveAllKeepsNames(w, config, ids, removal, answers);
    }
    forall n | n in config && n in ids ensures ids[n] in v.services && v.services[ids[n]] == w.services[ids[n]] {
      RemoveAllAt(w, config, ids, removal, answers, ids[n]);
      assert Entry(v, ids[n]) == Entry(w, ids[n]);
    }
  }

  /** What the second loop gets to does not depend on what the first did. */
  lemma {:induction false} AppliedAlike(w: World, v: World, config: map<string, ServiceConfig>, ids: map<string, nat>,
                                        order: seq<string>, answers: map<string, Answer>)
    requires Linked(ids, w, order) && Linked(ids, v, order) && (forall n | n in order :: n in config)
    requires v.nextId == w.nextId
    requires forall n | n in order && n in ids :: v.services[ids[n]] == w.services[ids[n]]
    ensures ApplyOk(v, config, ids, order, answers) <==> ApplyOk(w, config, ids, order, answers)
    ensures Applied(v, config, ids, order, answers) == Applied(w, config, ids, order, answers)
  {
    if order != [] {
      SplitLast(order);
      AppliedAlike(w, v, config, ids, order[..|order| - 1], answers);
    }
  }

  /** First the removal loop, then as much of the second as `applied` says. */
  lemma ReloadComposes(w: World, v: World, w': World, config: map<string, ServiceConfig>, ids: map<string, nat>,
                       retired: seq<string>, applied: seq<string>, answers: map<string, Answer>, id: nat)
    requires Linked(ids, v, applied) && w.clock <= v.clock <= w'.clock
    requires RemovesTo(w, config, retired, answers, v, id) && v.nextId == w.nextId
    requires forall n | n in applied :: n in config
    requires AppliesTo(v, config, ids, applied, answers, w', id)
    requires id in w.services ==> id < w.nextId
    ensures ReloadsPartly(w, config, answers, retired, applied, Newcomers(applied, ids), w', id)
  {
  }

  lemma RemovalIsPart(w: World, v: World, config: map<string, ServiceConfig>, retired: seq<string>,
                      answers: map<string, Answer>, id: nat)
    requires RemovesTo(w, config, retired, answers, v, id) && v.nextId == w.nextId <= U64_MAX
    ensures ReloadsPartly(w, config, answers, retired, [], [], v, id)
  {
  }

  /** The outcome of any reload, service by service: every name up to the first failure, and no other. */
  lemma PartialReloadAt(w: World, config: map<string, ServiceConfig>, scan: seq<nat>, removal: seq<string>,
                        applied: seq<string>, answers: map<string, Answer>, id: nat)
    requires Inv(w) && ReloadOrders(w, config, scan, removal, applied)
    ensures var done := AppliedNames(w, config, scan, applied, answers);
      ReloadsPartly(w, config, answers, RetiredNames(w, config, scan, removal, answers), done,
                    Newcomers(done, Index(w.services, scan)),
                    Reload(w, config, scan, removal, applied, answers).world, id)
  {
    var ids := Index(w.services, scan);
    IndexExact(w, scan);
    var v := RemoveAll(w, config, ids, removal, answers).world;
    var retired := Retired(w, config, ids, removal, answers);
    LinkedAfterRemoval(w, config, ids, removal, applied, answers);
    RemoveAllAt(w, config, ids, removal, answers, id);
    RemovalOkIff(w, config, ids, removal, answers);
    if RetiresOk(w, config, answers) {
      var done := Applied(v, config, ids, applied, answers);
      AppliedAlike(w, v, config, ids, applied, answers);
      ApplyAllAt(v, config, ids, applied, answers, id);
      var w' := Reload(w, config, scan, removal, applied, answers).world;
      ReloadComposes(w, v, w', config, ids, retired, done, answers, id);
    } else {
      RemovalIsPart(w, v, config, retired, answers, id);
    }
  }

  lemma WholeReload(w: World, config: map<string, ServiceConfig>, ids: map<string, nat>, removal: seq<string>,
                    applied: seq<string>, answers: map<string, Answer>, w': World, id: nat)
    requires Indexes(ids, w.services) && Enumerates(removal, ids.Keys) && Enumerates(applied, config.Keys)
    requires Succeeds(w, config, answers)
    requires ReloadsPartly(w, config, answers, removal, applied, Newcomers(applied, ids), w', id)
    ensures ReloadsTo(w, config, answers, Newcomers(applied, ids), w', id)
  {
    var news := Newcomers(applied, ids);
    NewcomersFit(w, config, ids, applied, answers);
    if id in w.services {
      assert w.services[id].name in removal;
    } else if w.nextId <= id < w.nextId + |news| {
      assert news[id - w.nextId] in news;
    }
  }

  lemma NewcomersFit(w: World, config: map<string, ServiceConfig>, ids: map<string, nat>, applied: seq<string>,
                     answers: map<string, Answer>)
    requires Indexes(ids, w.services) && Enumerates(applied, config.Keys) && AddsOk(w, config, answers)
    ensures w.nextId + |Newcomers(applied, ids)| <= U64_MAX
    ensures forall n | n in Newcomers(applied, ids) :: n in config && Buildable(config[n]) && Ask(answers, n).ok
  {
    NewcomersAre(applied, ids);
    NewcomersSize(w, config, ids, applied);
  }

  /** The outcome of a successful reload, service by service. */
  lemma ReloadAt(w: World, config: map<string, ServiceConfig>, scan: seq<nat>, removal: seq<string>,
                 applied: seq<string>, answers: map<string, Answer>, id: nat)
    requires Inv(w) && ReloadOrders(w, config, scan, removal, applied)
    requires Reload(w, config, scan, removal, applied, answers).ok
    ensures ReloadsTo(w, config, answers, Newcomers(applied, Index(w.services, scan)),
                      Reload(w, config, scan, removal, applied, answers).world, id)
  {
    var ids := Index(w.services, scan);
    IndexExact(w, scan);
    ReloadOkIff(w, config, scan, removal, applied, answers);
    RemovalOkIff(w, config, ids, removal, answers);
    RetiredAll(w, config, ids, removal, answers);
    LinkedBefore(w, config, ids, applied);
    RevisionsOkIff(w, w, config, ids, applied, answers);
    AdditionsOkIff(w, w, config, ids, applied, answers);
    AppliedAll(w, config, ids, applied, answers);
    PartialReloadAt(w, config, scan, removal, applied, answers, id);
    WholeReload(w, config, ids, removal, applied, answers,
                Reload(w, config, scan, removal, applied, answers).world, id);
  }

  lemma LinkedBefore(w: World, config: map<string, ServiceConfig>, ids: map<string, nat>, applied: seq<string>)
    requires Inv(w) && Indexes(ids, w.services) && Enumerates(applied, config.Keys)
    ensures Linked(ids, w, applied)
  {
  }

  lemma RemovalOkIff(w: World, config: map<string, ServiceConfig>, ids: map<string, nat>,
                     removal: seq<string>, answers: map<string, Answer>)
    requires Indexes(ids, w.services) && Enumerates(removal, ids.Keys)
    ensures RemovalOk(w, config, ids, removal, answers) <==> RetiresOk(w, config, answers)
  {
    if RemovalOk(w, config, ids, removal, answers) {
      forall id | id in w.services && w.services[id].name !in config
        ensures RetireOk(w.services[id], Ask(answers, w.services[id].name))
      {
        assert w.services[id].name in removal && ids[w.services[id].name] == id;
      }
    }
  }

  lemma RevisionsOkIff(w: World, v: World, config: map<string, ServiceConfig>, ids: map<string, nat>,
                       applied: seq<string>, answers: map<string, Answer>)
    requires Indexes(ids, w.services) && Linked(ids, v, applied) && Enumerates(applied, config.Keys)
    requires forall n | n in config && n in ids :: v.services[ids[n]] == w.services[ids[n]]
    ensures RevisionsOk(v, config, ids, applied, answers) <==> RevisesOk(w, config, answers)
  {
    if RevisionsOk(v, config, ids, applied, answers) {
      forall id | id in w.services && w.services[id].name in config
        ensures ReviseOk(w.services[id], config[w.services[id].name], Ask(answers, w.services[id].name))
      {
        assert w.services[id].name in applied && ids[w.services[id].name] == id;
      }
    }
  }

  lemma AdditionsOkIff(w: World, v: World, config: map<string, ServiceConfig>, ids: map<string, nat>,
                       applied: seq<string>, answers: map<string, Answer>)
    requires Indexes(ids, w.services) && Enumerates(applied, config.Keys) && v.nextId == w.nextId
    ensures AdditionsOk(v, config, ids, applied, answers) <==> AddsOk(w, config, answers)
  {
    NewcomersSize(w, config, ids, applied);
    SameNewNames(config, ids, Names(w.services), applied, answers);
  }

  lemma SameNewNames(config: map<string, ServiceConfig>, ids: map<string, nat>, names: set<string>,
                     applied: seq<string>, answers: map<string, Answer>)
    requires ids.Keys == names && Enumerates(applied, config.Keys)
    ensures (forall n | n in applied && n !in ids :: Buildable(config[n]) && Ask(answers, n).ok) <==>
            (forall n | n in config && n !in names :: Buildable(config[n]) && Ask(answers, n).ok)
  {
    if forall n | n in applied && n !in ids :: Buildable(config[n]) && Ask(answers, n).ok {
      forall n | n in config && n !in names ensures Buildable(config[n]) && Ask(answers, n).ok {
        assert n in applied && n !in ids;
      }
    }
  }

  /** The second loop succeeds, given the first did, exactly when its own calls do. */
  lemma ApplyStageOk(w: World, config: map<string, ServiceConfig>, ids: map<string, nat>, removal: seq<string>,
                     applied: seq<string>, answers: map<string, Answer>)
    requires Inv(w) && Indexes(ids, w.services) && Enumerates(removal, ids.Keys) && Enumerates(applied, config.Keys)
    requires RemoveAll(w, config, ids, removal, answers).ok
    ensures ApplyAll(RemoveAll(w, config, ids, removal, answers).world, config, ids, applied, answers).ok <==>
            RevisesOk(w, config, answers) && AddsOk(w, config, answers)
  {
    var v := RemoveAll(w, config, ids, removal, answers).world;
    LinkedAfterRemoval(w, config, ids, removal, applied, answers);
    ApplyAllAt(v, config, ids, applied, answers, 0);
    RevisionsOkIff(w, v, config, ids, applied, answers);
    AdditionsOkIff(w, v, config, ids, applied, answers);
  }

  /** A reload returns `Ok` exactly when no call it has to make fails, whatever the orders. */
  lemma ReloadOkIff(w: World, config: map<string, ServiceConfig>, scan: seq<nat>, removal: seq<string>,
                    applied: seq<string>, answers: map<string, Answer>)
    requires Inv(w) && ReloadOrders(w, config, scan, removal, applied)
    ensures Reload(w, config, scan, removal, applied, answers).ok <==> Succeeds(w, config, answers)
  {
    var ids := Index(w.services, scan);
    IndexExact(w, scan);
    RemoveAllAt(w, config, ids, removal, answers, 0);
    RemovalOkIff(w, config, ids, removal, answers);
    if RemoveAll(w, config, ids, removal, answers).ok {
      ApplyStageOk(w, config, ids, removal, applied, answers);
    }
  }
}
