/** A worker's partition: entities in memory, entities in the archive, and behavior handles. */
module Partition {
  import opened Common
  import opened Entity

  datatype BehaviorTarget = OnWorker | OnEntity(name: EntityName)

  datatype Handle = Handle(behavior: string)

  datatype Instancing =
    | PerEntityWithAllComponents(comps: seq<CompName>)
    | PerEntityWithAnyComponent(comps: seq<CompName>)
    | OtherInstancing

  datatype BehaviorModel = BehaviorModel(name: string, targets: seq<Instancing>, synced: bool)

  datatype Config = Config(autoArchive: bool, archiveAfterSecs: nat, createToArchive: bool)

  datatype PartError = ArchiveDisabled | NoSuchEntity

  datatype PartState = PartState(
    entities: Entities, archive: Option<Entities>,
    behaviors: map<BehaviorTarget, seq<Handle>>, config: Config)
  {
    /** Every stored entity, wherever it is kept. */
    function Stored(): Entities {
      (if archive.Some? then archive.value else map[]) + entities
    }

    function HandlesOf(n: EntityName): seq<Handle> {
      if OnEntity(n) in behaviors then behaviors[OnEntity(n)] else []
    }
  }

  // ----- what the operations do -----

  predicate Applies(i: Instancing, e: Entity) {
    match i
    case PerEntityWithAllComponents(comps) => forall c :: c in comps ==> c in e.components
    case PerEntityWithAnyComponent(comps) => exists c :: c in comps && c in e.components
    case OtherInstancing => false
  }

  predicate BoundTo(b: BehaviorModel, e: Entity) {
    exists i :: i in b.targets && Applies(i, e)
  }

  /** A behavior is bound by any of its targets: one that asks for all of its components, all of which
      the entity has, or one that asks for any, one of which it has. */
  lemma BoundToMeans(b: BehaviorModel, e: Entity)
    ensures BoundTo(b, e)
       <==> exists i :: i in b.targets
                        && ((i.PerEntityWithAllComponents? && ToSet(i.comps) <= ToSet(e.components))
                            || (i.PerEntityWithAnyComponent? && ToSet(i.comps) * ToSet(e.components) != {}))
  {
    forall i | i in b.targets
      ensures Applies(i, e) <==> (i.PerEntityWithAllComponents? && ToSet(i.comps) <= ToSet(e.components))
                                 || (i.PerEntityWithAnyComponent? && ToSet(i.comps) * ToSet(e.components) != {})
    {
      AppliesMeans(i, e);
    }
  }

  lemma AppliesMeans(i: Instancing, e: Entity)
    ensures Applies(i, e) <==> (i.PerEntityWithAllComponents? && ToSet(i.comps) <= ToSet(e.components))
                               || (i.PerEntityWithAnyComponent? && ToSet(i.comps) * ToSet(e.components) != {})
  {
    assert forall c :: c in e.components <==> c in ToSet(e.components);
    match i
    case PerEntityWithAllComponents(comps) =>
      assert forall c :: c in comps <==> c in ToSet(comps);
    case PerEntityWithAnyComponent(comps) =>
      var both := ToSet(comps) * ToSet(e.components);
      assert forall c :: c in both <==> c in comps && c in e.components;
    case OtherInstancing =>
  }

  /** The handles of the synced behaviors the model binds to the entity, in model order. */
  function Spawned(model: seq<BehaviorModel>, e: Entity): seq<Handle> {
    if model == [] then []
    else
      Spawned(model[..|model| - 1], e)
      + (var b := model[|model| - 1]; if BoundTo(b, e) && b.synced then [Handle(b.name)] else [])
  }

  function WithHandles(s: PartState, n: EntityName, hs: seq<Handle>): PartState {
    if hs == [] then s else s.(behaviors := s.behaviors[OnEntity(n) := s.HandlesOf(n) + hs])
  }

  function Bound(s: PartState, n: EntityName, h: Handle): PartState {
    s.(behaviors := s.behaviors[OnEntity(n) := s.HandlesOf(n) + [h]])
  }

  lemma SpawnedSnoc(model: seq<BehaviorModel>, i: nat, e: Entity)
    requires i < |model|
    ensures Spawned(model[..i + 1], e)
         == if BoundTo(model[i], e) && model[i].synced then Spawned(model[..i], e) + [Handle(model[i].name)]
            else Spawned(model[..i], e)
  {
    assert model[..i + 1][..i] == model[..i];
  }

  lemma WithHandlesSnoc(s: PartState, n: EntityName, hs: seq<Handle>, h: Handle)
    ensures var t := WithHandles(s, n, hs);
            WithHandles(s, n, hs + [h]) == Bound(t, n, h)
  {
    assert s.HandlesOf(n) + (hs + [h]) == s.HandlesOf(n) + hs + [h];
    assert hs + [h] != [];
    if hs == [] {
      assert s.HandlesOf(n) + (hs + [h]) == s.HandlesOf(n) + [h];
    } else {
      var m := s.behaviors;
      assert m[OnEntity(n) := s.HandlesOf(n) + hs][OnEntity(n) := s.HandlesOf(n) + hs + [h]]
          == m[OnEntity(n) := s.HandlesOf(n) + hs + [h]];
    }
  }

  lemma NoHandles(s: PartState, n: EntityName)
    ensures WithHandles(s, n, []) == s
  {
  }

  function Add(s: PartState, n: EntityName, e: Entity, model: seq<BehaviorModel>): (PartState, Result<(), PartError>) {
    var t := WithHandles(s, n, Spawned(model, e));
    if !s.config.createToArchive then (t.(entities := s.entities[n := e]), Success(()))
    else if s.archive.None? then (t, Failure(ArchiveDisabled))
    else (t.(archive := Some(s.archive.value[n := e])), Success(()))
  }

  function Get(s: PartState, n: EntityName, now: nat): (PartState, Result<Entity, PartError>) {
    if n in s.entities then
      var e := s.entities[n].Accessed(now);
      (s.(entities := s.entities[n := e]), Success(e))
    else (s, Failure(NoSuchEntity))
  }

  function Remove(s: PartState, n: EntityName): (PartState, Result<(), PartError>) {
    var t := s.(behaviors := s.behaviors - {OnEntity(n)});
    if n in s.entities then (t.(entities := s.entities - {n}), Success(()))
    else if s.archive.None? then (t, Failure(ArchiveDisabled))
    else (t.(archive := Some(s.archive.value - {n})), Success(()))
  }

  /** Not accessed for longer than the threshold; an entity never accessed stays. */
  predicate Idle(e: Entity, now: nat, after: nat) {
    e.meta.lastAccess.Some? && e.meta.lastAccess.value + after < now
  }

  function IdleNames(s: PartState, now: nat): set<EntityName> {
    set n | n in s.entities && Idle(s.entities[n], now, s.config.archiveAfterSecs)
  }

  /** The chore with an archive present. */
  function Chore(s: PartState, now: nat): PartState
    requires s.archive.Some?
  {
    if !s.config.autoArchive then s
    else
      var idle := IdleNames(s, now);
      StoredAway(s, idle)
  }

  /** No access lies in the future of the clock reading. */
  ghost predicate ClockAhead(s: PartState, now: nat) {
    forall n :: n in s.entities && s.entities[n].meta.lastAccess.Some? ==> s.entities[n].meta.lastAccess.value <= now
  }

  // ----- the partition as the worker holds it -----

  class Partition {
    var entities: Entities
    var archive: Option<Entities>
    var behaviors: map<BehaviorTarget, seq<Handle>>
    var config: Config

    constructor (config: Config, enableArchive: bool)
      ensures State() == PartState(map[], if enableArchive then Some(map[]) else None, map[], config)
    {
      entities := map[];
      archive := if enableArchive then Some(map[]) else None;
      behaviors := map[];
      this.config := config;
    }

    function State(): PartState
      reads this
    {
      PartState(entities, archive, behaviors, config)
    }

    method GetEntity(n: EntityName, now: nat) returns (r: Result<Entity, PartError>)
      modifies this
      ensures (State(), r) == Get(old(State()), n, now)
    {
      if n in entities {
        entities := entities[n := entities[n].Accessed(now)];
        return Success(entities[n]);
      }
      return Failure(NoSuchEntity);
    }

    method AddEntity(n: EntityName, e: Entity, model: seq<BehaviorModel>) returns (r: Result<(), PartError>)
      modifies this
      ensures (State(), r) == Add(old(State()), n, e, model)
    {
      hide WithHandles, BoundTo;
      assert model[..0] == [];
      NoHandles(State(), n);
      for i := 0 to |model|
        invariant State() == WithHandles(old(State()), n, Spawned(model[..i], e))
        invariant entities == old(entities) && archive == old(archive) && config == old(config)
      {
        var b := model[i];
        SpawnedSnoc(model, i, e);
        if BoundTo(b, e) && b.synced {
          var handle := Handle(b.name);
          WithHandlesSnoc(old(State()), n, Spawned(model[..i], e), handle);
          ghost var before := State();
          if OnEntity(n) in behaviors {
            behaviors := behaviors[OnEntity(n) := behaviors[OnEntity(n)] + [handle]];
          } else {
            behaviors := behaviors[OnEntity(n) := [handle]];
          }
          assert before.HandlesOf(n) == [] ==> before.HandlesOf(n) + [handle] == [handle];
          assert State() == Bound(before, n, handle);
        }
      }
      assert model[..|model|] == model;
      if config.createToArchive {
        if archive.None? { return Failure(ArchiveDisabled); }
        archive := Some(archive.value[n := e]);
      } else {
        entities := entities[n := e];
      }
      return Success(());
    }

    method RemoveEntity(n: EntityName) returns (r: Result<(), PartError>)
      modifies this
      ensures (State(), r) == Remove(old(State()), n)
    {
      behaviors := map t | t in behaviors && t != OnEntity(n) :: behaviors[t];
      assert behaviors == old(behaviors) - {OnEntity(n)};
      if n in entities {
        entities := entities - {n};
        return Success(());
      }
      if archive.None? { return Failure(ArchiveDisabled); }
      archive := Some(archive.value - {n});
      return Success(());
    }

    method CollectIdle(now: nat) returns (names: seq<EntityName>)
      requires ClockAhead(State(), now)
      ensures NoDup(names) && ToSet(names) == IdleNames(State(), now)
    {
      names := [];
      var todo := entities.Keys;
      while todo != {}
        invariant todo <= entities.Keys
        invariant NoDup(names)
        invariant ToSet(names) == set n | n in entities && n !in todo && Idle(entities[n], now, config.archiveAfterSecs)
      {
        var n :| n in todo;
        todo := todo - {n};
        var lastAccess := entities[n].meta.lastAccess;
        if lastAccess.Some? && now - lastAccess.value > config.archiveAfterSecs {
          ToSetConcat(names, [n]);
          NoDupConcat(names, [n]);
          names := names + [n];
        }
      }
    }

    /** Without an archive this fails at the first name and has already dropped that entity. */
    method MoveToArchive(names: seq<EntityName>) returns (r: Result<(), PartError>)
      requires NoDup(names) && forall n :: n in names ==> n in entities
      modifies this
      ensures old(archive).Some? ==> r.Success? && State() == StoredAway(old(State()), ToSet(names))
      ensures old(archive).None? ==>
                if names == [] then r.Success? && State() == old(State())
                else r == Failure(ArchiveDisabled) && State() == Dropped(old(State()), names[0])
    {
      hide ToSet, StoredAway;
      ghost var start := State();
      assert names[..0] == [];
      StoredAwayNone(start);
      for i := 0 to |names|
        invariant archive.Some? == start.archive.Some?
        invariant start.archive.None? ==> i == 0 && State() == start
        invariant start.archive.Some? ==> State() == StoredAway(start, ToSet(names[..i]))
      {
        var n := names[i];
        assert names[..i + 1] == names[..i] + [n];
        assert n !in names[..i] && n in start.entities;
        ToSetSnoc(names[..i], n);
        if start.archive.Some? { StoreAwayOne(start, ToSet(names[..i]), n); }
        var e := entities[n];
        entities := entities - {n};
        if archive.None? { return Failure(ArchiveDisabled); }
        archive := Some(archive.value[n := e]);
      }
      assert names[..|names|] == names;
      return Success(());
    }

    /** The archive chore. Without an archive it fails at the first idle entity and has already
        dropped that entity from memory. */
    method ArchiveEntities(now: nat) returns (r: Result<nat, PartError>)
      requires ClockAhead(State(), now)
      modifies this
      ensures old(archive).Some? ==>
                State() == Chore(old(State()), now)
                && r == Success(if config.autoArchive then |IdleNames(old(State()), now)| else 0)
      ensures old(archive).None? ==>
                var idle := if old(config).autoArchive then IdleNames(old(State()), now) else {};
                if idle == {} then r == Success(0) && State() == old(State())
                else r == Failure(ArchiveDisabled)
                     && exists n :: n in idle && State() == Dropped(old(State()), n)
    {
      if !config.autoArchive { return Success(0); }
      var toArchive := CollectIdle(now);
      CountNames(toArchive);
      assert forall n :: n in toArchive ==> n in ToSet(toArchive);
      assert forall n :: n in IdleNames(State(), now) ==> n in entities;
      hide StoredAway, Idle, IdleNames;
      var moved := MoveToArchive(toArchive);
      if moved.Failure? {
        assert toArchive[0] in IdleNames(old(State()), now);
        return Failure(moved.error);
      }
      return Success(|toArchive|);
    }
  }

  function Dropped(s: PartState, n: EntityName): PartState {
    s.(entities := s.entities - {n})
  }

  /** The given names moved from memory to the archive. */
  function StoredAway(s: PartState, names: set<EntityName>): PartState
    requires s.archive.Some?
  {
    s.(entities := s.entities - names,
       archive := Some(s.archive.value + (map n | n in s.entities && n in names :: s.entities[n])))
  }

  lemma ToSetSnoc(s: seq<EntityName>, n: EntityName)
    ensures ToSet(s + [n]) == ToSet(s) + {n}
    ensures n in ToSet(s) <==> n in s
  {
  }

  lemma StoredAwayNone(s: PartState)
    ensures s.archive.Some? ==> StoredAway(s, ToSet([])) == s
  {
    assert s.entities - ToSet([]) == s.entities;
    if s.archive.Some? {
      assert s.archive.value + (map n | n in s.entities && n in ToSet([]) :: s.entities[n]) == s.archive.value;
    }
  }

  lemma StoreAwayOne(s: PartState, names: set<EntityName>, n: EntityName)
    requires s.archive.Some? && n in s.entities && n !in names
    ensures var t := StoredAway(s, names);
            n in t.entities && t.entities[n] == s.entities[n]
            && StoredAway(s, names + {n})
            == t.(entities := t.entities - {n}, archive := Some(t.archive.value[n := t.entities[n]]))
  {
    var t := StoredAway(s, names);
    assert s.entities - (names + {n}) == t.entities - {n};
    assert s.archive.value + (map x | x in s.entities && x in names + {n} :: s.entities[x])
        == t.archive.value[n := s.entities[n]];
  }

  lemma {:induction false} CountNames(s: seq<EntityName>)
    requires NoDup(s)
    ensures |ToSet(s)| == |s|
    decreases |s|
  {
    if s != [] {
      assert s == [s[0]] + s[1..];
      NoDupConcat([s[0]], s[1..]);
      CountNames(s[1..]);
      assert ToSet(s) == {s[0]} + ToSet(s[1..]);
    }
  }

  // ----- runs -----

  datatype Op =
    | SpawnOp(name: EntityName, entity: Entity)
    | AccessOp(name: EntityName, at: nat)
    | ChoreOp(at: nat)
    | RemoveOp(name: EntityName)
    | ConfigOp(config: Config)

  function Step(s: PartState, op: Op, model: seq<BehaviorModel>): PartState
    requires s.archive.Some?
  {
    match op
    case SpawnOp(n, e) => Add(s, n, e, model).0
    case AccessOp(n, t) => Get(s, n, t).0
    case ChoreOp(t) => Chore(s, t)
    case RemoveOp(n) => Remove(s, n).0
    case ConfigOp(c) => s.(config := c)
  }

  function Run(s: PartState, ops: seq<Op>, model: seq<BehaviorModel>): PartState
    requires s.archive.Some?
    decreases |ops|
  {
    if ops == [] then s else Run(Step(s, ops[0], model), ops[1..], model)
  }

  /** Every spawn of the run uses a name that is not stored at that moment. */
  ghost predicate FreshSpawns(s: PartState, ops: seq<Op>, model: seq<BehaviorModel>)
    requires s.archive.Some?
    decreases |ops|
  {
    ops == [] ||
    ((ops[0].SpawnOp? ==> ops[0].name !in s.Stored()) && FreshSpawns(Step(s, ops[0], model), ops[1..], model))
  }

  /** The stored data of each name, without the bookkeeping. */
  function View(m: Entities): map<EntityName, (map<StorageIndex, Var>, seq<CompName>)> {
    map n | n in m :: (m[n].storage, m[n].components)
  }

  /** The run on a plain map from names to data. */
  function SimpleRun(v: map<EntityName, (map<StorageIndex, Var>, seq<CompName>)>, ops: seq<Op>)
    : map<EntityName, (map<StorageIndex, Var>, seq<CompName>)>
    decreases |ops|
  {
    if ops == [] then v
    else
      SimpleRun(SimpleStep(v, ops[0]), ops[1..])
  }

  function Owed(model: seq<BehaviorModel>, m: Entities, n: EntityName): seq<Handle> {
    if n in m then Spawned(model, m[n]) else []
  }

  /** Nothing is stored twice, and an entity's handles are exactly those its components call for. */
  ghost predicate Sound(s: PartState, model: seq<BehaviorModel>) {
    && s.archive.Some?
    && s.entities.Keys !! s.archive.value.Keys
    && (forall n :: s.HandlesOf(n) == Owed(model, s.Stored(), n))
  }

  lemma {:induction false} SpawnedByComponents(model: seq<BehaviorModel>, e: Entity, f: Entity)
    requires e.components == f.components
    ensures Spawned(model, e) == Spawned(model, f)
    decreases |model|
  {
    if model != [] { SpawnedByComponents(model[..|model| - 1], e, f); }
  }

  function SimpleStep(v: map<EntityName, (map<StorageIndex, Var>, seq<CompName>)>, op: Op)
    : map<EntityName, (map<StorageIndex, Var>, seq<CompName>)>
  {
    match op
    case SpawnOp(n, e) => v[n := (e.storage, e.components)]
    case RemoveOp(n) => v - {n}
    case _ => v
  }

  lemma AddStored(s: PartState, n: EntityName, e: Entity, model: seq<BehaviorModel>)
    requires s.archive.Some? && s.entities.Keys !! s.archive.value.Keys && n !in s.Stored()
    ensures var t := Add(s, n, e, model).0;
            t.archive.Some? && t.entities.Keys !! t.archive.value.Keys && t.Stored() == s.Stored()[n := e]
  {
    hide Spawned;
    var t := Add(s, n, e, model).0;
    if s.config.createToArchive {
      assert t.archive.value == s.archive.value[n := e] && t.entities == s.entities;
    } else {
      assert t.archive == s.archive && t.entities == s.entities[n := e];
    }
  }

  lemma AddHandles(s: PartState, n: EntityName, e: Entity, model: seq<BehaviorModel>, m: EntityName)
    ensures Add(s, n, e, model).0.HandlesOf(m)
         == if m == n then s.HandlesOf(n) + Spawned(model, e) else s.HandlesOf(m)
  {
    hide Spawned;
    assert s.HandlesOf(n) + [] == s.HandlesOf(n);
  }

  lemma SpawnKeepsSound(s: PartState, n: EntityName, e: Entity, model: seq<BehaviorModel>)
    requires Sound(s, model) && n !in s.Stored()
    ensures Sound(Add(s, n, e, model).0, model)
    ensures Add(s, n, e, model).0.Stored() == s.Stored()[n := e]
  {
    hide Spawned, Add, PartState.HandlesOf, PartState.Stored;
    var t := Add(s, n, e, model).0;
    AddStored(s, n, e, model);
    forall m
      ensures t.HandlesOf(m) == Owed(model, t.Stored(), m)
    {
      AddHandles(s, n, e, model, m);
      assert s.HandlesOf(m) == Owed(model, s.Stored(), m);
    }
  }

  lemma SameSound(s: PartState, t: PartState, model: seq<BehaviorModel>)
    requires Sound(s, model) && t.behaviors == s.behaviors
    requires t.archive.Some? && t.entities.Keys !! t.archive.value.Keys
    requires SameDataEverywhere(s.Stored(), t.Stored())
    ensures Sound(t, model)
  {
    hide Spawned, PartState.Stored;
    forall m
      ensures t.HandlesOf(m) == Owed(model, t.Stored(), m)
    {
      assert t.HandlesOf(m) == s.HandlesOf(m) == Owed(model, s.Stored(), m);
      if m in s.Stored() { SpawnedByComponents(model, s.Stored()[m], t.Stored()[m]); }
    }
  }

  lemma AccessKeepsSound(s: PartState, n: EntityName, now: nat, model: seq<BehaviorModel>)
    requires Sound(s, model)
    ensures Sound(Get(s, n, now).0, model)
    ensures View(Get(s, n, now).0.Stored()) == View(s.Stored())
  {
    hide Spawned;
    if n in s.entities {
      var t := Get(s, n, now).0;
      assert t.entities.Keys == s.entities.Keys;
      assert t.Stored() == s.Stored()[n := s.entities[n].Accessed(now)];
      SameSound(s, t, model);
    }
  }

  lemma ChoreStored(s: PartState, now: nat)
    requires s.archive.Some? && s.entities.Keys !! s.archive.value.Keys
    ensures var t := Chore(s, now);
            t.archive.Some? && t.entities.Keys !! t.archive.value.Keys && t.Stored() == s.Stored()
            && t.behaviors == s.behaviors
  {
    hide Idle;
    var t := Chore(s, now);
    assert t.entities.Keys <= s.entities.Keys;
    assert t.Stored() == s.Stored();
  }

  lemma ChoreKeepsSound(s: PartState, now: nat, model: seq<BehaviorModel>)
    requires Sound(s, model)
    ensures Sound(Chore(s, now), model) && Chore(s, now).Stored() == s.Stored()
  {
    hide Spawned, Chore;
    ChoreStored(s, now);
    SameSound(s, Chore(s, now), model);
  }

  lemma RemoveKeepsSound(s: PartState, n: EntityName, model: seq<BehaviorModel>)
    requires Sound(s, model)
    ensures Sound(Remove(s, n).0, model) && Remove(s, n).0.Stored() == s.Stored() - {n}
  {
    hide Spawned;
    var t := Remove(s, n).0;
    assert t.Stored() == s.Stored() - {n};
    forall m
      ensures t.HandlesOf(m) == Owed(model, t.Stored(), m)
    {
      assert m != n ==> s.HandlesOf(m) == t.HandlesOf(m);
      assert s.HandlesOf(m) == Owed(model, s.Stored(), m);
    }
  }

  lemma StepKeepsSound(s: PartState, op: Op, model: seq<BehaviorModel>)
    requires Sound(s, model) && (op.SpawnOp? ==> op.name !in s.Stored())
    ensures Sound(Step(s, op, model), model)
    ensures View(Step(s, op, model).Stored()) == SimpleStep(View(s.Stored()), op)
  {
    hide Sound, Add, Get, Chore, Remove, PartState.Stored;
    match op
    case SpawnOp(n, e) => SpawnKeepsSound(s, n, e, model);
    case AccessOp(n, now) => AccessKeepsSound(s, n, now, model);
    case ChoreOp(now) => ChoreKeepsSound(s, now, model);
    case RemoveOp(n) => RemoveKeepsSound(s, n, model);
    case ConfigOp(c) => ConfigKeepsSound(s, c, model);
  }

  lemma ConfigKeepsSound(s: PartState, c: Config, model: seq<BehaviorModel>)
    requires Sound(s, model)
    ensures Sound(s.(config := c), model) && s.(config := c).Stored() == s.Stored()
  {
    hide Spawned;
    SameSound(s, s.(config := c), model);
  }

  /** Over every run with fresh spawns: memory and archive stay disjoint, what is stored is the plain
      map the operations describe, and every handle belongs to a stored entity. */
  lemma {:induction false} RunsRefineSimpleMap(s: PartState, ops: seq<Op>, model: seq<BehaviorModel>)
    requires Sound(s, model) && FreshSpawns(s, ops, model)
    ensures Sound(Run(s, ops, model), model)
    ensures View(Run(s, ops, model).Stored()) == SimpleRun(View(s.Stored()), ops)
    decreases |ops|
  {
    if ops != [] {
      StepKeepsSound(s, ops[0], model);
      RunsRefineSimpleMap(Step(s, ops[0], model), ops[1..], model);
    }
  }

  /** The chore moves exactly the entities idle for longer than the threshold and changes no data. */
  lemma ChoreMovesIdle(s: PartState, now: nat)
    requires s.archive.Some? && s.entities.Keys !! s.archive.value.Keys
    ensures Chore(s, now).Stored() == s.Stored()
    ensures forall n :: n in s.entities && n in Chore(s, now).archive.value
              <==> s.config.autoArchive && n in s.entities && Idle(s.entities[n], now, s.config.archiveAfterSecs)
  {
  }

  /** An entity looked up at `t` is still in memory after a chore at `u` if and only if the chore is off
      or comes no later than the threshold after `t`. */
  lemma StaysInMemoryIff(s: PartState, n: EntityName, t: nat, u: nat)
    requires s.archive.Some? && n in s.entities
    ensures n in Chore(Get(s, n, t).0, u).entities
       <==> !s.config.autoArchive || u <= t + s.config.archiveAfterSecs
  {
    var looked := Get(s, n, t).0;
    assert looked.entities[n].meta.lastAccess == Some(t);
  }

  /** One never looked up since it was stored stays for ever. */
  lemma NeverAccessedStays(s: PartState, n: EntityName, u: nat)
    requires s.archive.Some? && n in s.entities && s.entities[n].meta.lastAccess.None?
    ensures n in Chore(s, u).entities
  {
  }

  /** Removal is documented to fail on a name that is not stored. With an archive it never fails;
      without one it fails on exactly those names. */
  lemma RemoveFailsIff(s: PartState, n: EntityName)
    ensures Remove(s, n).1.Failure? <==> s.archive.None? && n !in s.Stored()
  {
  }

  /** After a removal the name is gone if and only if it was not kept in both places. */
  lemma RemoveForgetsIff(s: PartState, n: EntityName)
    requires Remove(s, n).1.Success?
    ensures n !in Remove(s, n).0.Stored() <==> !(s.archive.Some? && n in s.entities && n in s.archive.value)
  {
  }

  /** Spawning a name that is archived keeps it in both places: the removal that follows brings the
      archived entity back. */
  lemma RespawnedNameComesBack(s: PartState, n: EntityName, e: Entity, model: seq<BehaviorModel>)
    requires s.archive.Some? && n in s.archive.value && n !in s.entities && !s.config.createToArchive
    ensures Remove(Add(s, n, e, model).0, n).0.Stored() == s.Stored()
  {
  }
}
