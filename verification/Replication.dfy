/** The leader's model and the copies it keeps on its workers. */
module Replication {
  import opened Common
  import opened Rpc

  datatype Named = Named(name: string, body: string)

  datatype Model = Model(
    scenarios: seq<Named>, behaviors: seq<Named>, events: seq<Named>, prefabs: seq<Named>, components: seq<Named>,
    data: map<string, string>, dataFiles: map<string, string>, services: seq<Named>, entities: seq<Named>)

  // ----- merging models -----

  /** The first item of that name. */
  function Find(items: seq<Named>, name: string): Option<Named>
    decreases |items|
  {
    if items == [] then None else if items[0].name == name then Some(items[0]) else Find(items[1..], name)
  }

  ghost predicate UniqueNames(items: seq<Named>) {
    forall i, j :: 0 <= i < j < |items| ==> items[i].name != items[j].name
  }

  lemma {:induction false} FindConcat(a: seq<Named>, b: seq<Named>, name: string)
    ensures Find(a + b, name) == OrElse(Find(a, name), Find(b, name))
    decreases |a|
  {
    if a == [] {
      assert a + b == b;
    } else {
      assert (a + b)[1..] == a[1..] + b;
      FindConcat(a[1..], b, name);
    }
  }

  lemma {:induction false} FindMeaning(items: seq<Named>, name: string)
    ensures Find(items, name).Some? <==> exists i :: 0 <= i < |items| && items[i].name == name
    ensures Find(items, name).Some? ==>
              exists i :: 0 <= i < |items| && items[i] == Find(items, name).value && items[i].name == name
                          && forall j :: 0 <= j < i ==> items[j].name != name
    decreases |items|
  {
    if items != [] && items[0].name != name {
      FindMeaning(items[1..], name);
      if i :| 0 <= i < |items| && items[i].name == name {
        assert items[1..][i - 1] == items[i];
      }
      if Find(items, name).Some? {
        var rest := items[1..];
        var i :| 0 <= i < |rest| && rest[i] == Find(rest, name).value && rest[i].name == name
              && forall j :: 0 <= j < i ==> rest[j].name != name;
        assert items[i + 1] == rest[i];
        assert forall j :: 0 < j < i + 1 ==> items[j] == rest[j - 1];
      }
    }
  }

  /** The other prefabs, one by one, unless one of that name is already there. */
  function WithPrefabs(prefabs: seq<Named>, other: seq<Named>): seq<Named>
    decreases |other|
  {
    if other == [] then prefabs
    else
      var front := WithPrefabs(prefabs, other[..|other| - 1]);
      var p := other[|other| - 1];
      if Find(front, p.name).None? then front + [p] else front
  }

  lemma {:induction false} WithPrefabsFinds(prefabs: seq<Named>, other: seq<Named>, name: string)
    ensures Find(WithPrefabs(prefabs, other), name) == OrElse(Find(prefabs, name), Find(other, name))
    decreases |other|
  {
    if other != [] {
      var front, p := other[..|other| - 1], other[|other| - 1];
      assert other == front + [p];
      WithPrefabsFinds(prefabs, front, name);
      FindConcat(front, [p], name);
      FindConcat(WithPrefabs(prefabs, front), [p], name);
    }
  }

  lemma {:induction false} WithPrefabsUnique(prefabs: seq<Named>, other: seq<Named>)
    requires UniqueNames(prefabs)
    ensures UniqueNames(WithPrefabs(prefabs, other)) && prefabs <= WithPrefabs(prefabs, other)
    decreases |other|
  {
    if other != [] {
      var front, p := WithPrefabs(prefabs, other[..|other| - 1]), other[|other| - 1];
      WithPrefabsUnique(prefabs, other[..|other| - 1]);
      FindMeaning(front, p.name);
    }
  }

  /** Behaviors and scenarios of the other model are not taken over. */
  function Merged(a: Model, b: Model): Model {
    a.(events := a.events + b.events, prefabs := WithPrefabs(a.prefabs, b.prefabs),
       components := a.components + b.components, data := a.data + b.data, dataFiles := a.dataFiles + b.dataFiles,
       services := a.services + b.services, entities := a.entities + b.entities)
  }

  function FirstFound(models: seq<Model>, items: Model -> seq<Named>, name: string): Option<Named>
    decreases |models|
  {
    if models == [] then None else OrElse(Find(items(models[0]), name), FirstFound(models[1..], items, name))
  }

  function MergedAll(m: Model, models: seq<Model>): Model
    decreases |models|
  {
    if models == [] then m else MergedAll(Merged(m, models[0]), models[1..])
  }

  /** After any number of merges a prefab or component is looked up as it was first defined, and
      prefab names are unique if they were. */
  lemma {:induction false} LookupsFindFirst(m: Model, models: seq<Model>, name: string)
    ensures Find(MergedAll(m, models).prefabs, name)
         == OrElse(Find(m.prefabs, name), FirstFound(models, (x: Model) => x.prefabs, name))
    ensures Find(MergedAll(m, models).components, name)
         == OrElse(Find(m.components, name), FirstFound(models, (x: Model) => x.components, name))
    ensures UniqueNames(m.prefabs) ==> UniqueNames(MergedAll(m, models).prefabs)
    decreases |models|
  {
    if models != [] {
      LookupsFindFirst(Merged(m, models[0]), models[1..], name);
      WithPrefabsFinds(m.prefabs, models[0].prefabs, name);
      FindConcat(m.components, models[0].components, name);
      if UniqueNames(m.prefabs) { WithPrefabsUnique(m.prefabs, models[0].prefabs); }
    }
  }

  function Joined(models: seq<Model>, items: Model -> seq<Named>): seq<Named>
    decreases |models|
  {
    if models == [] then [] else items(models[0]) + Joined(models[1..], items)
  }

  function LastFound(models: seq<Model>, items: Model -> map<string, string>, key: string): Option<string>
    decreases |models|
  {
    if models == [] then None
    else
      var entries := items(models[0]);
      OrElse(LastFound(models[1..], items, key), if key in entries then Some(entries[key]) else None)
  }

  /** A list that every merge extends is that of all models in order. */
  lemma {:induction false} ListIsJoined(m: Model, models: seq<Model>, items: Model -> seq<Named>)
    requires forall a, b :: items(Merged(a, b)) == items(a) + items(b)
    ensures items(MergedAll(m, models)) == items(m) + Joined(models, items)
    decreases |models|
  {
    if models == [] {
      assert items(m) + [] == items(m);
    } else {
      ListIsJoined(Merged(m, models[0]), models[1..], items);
      assert items(m) + items(models[0]) + Joined(models[1..], items)
          == items(m) + (items(models[0]) + Joined(models[1..], items));
    }
  }

  /** After any number of merges events, components, services and entities are those of all models in
      order; behaviors and scenarios stay those of the first. */
  lemma ListsAreJoined(m: Model, models: seq<Model>)
    ensures var r := MergedAll(m, models);
            && r.events == m.events + Joined(models, (x: Model) => x.events)
            && r.components == m.components + Joined(models, (x: Model) => x.components)
            && r.services == m.services + Joined(models, (x: Model) => x.services)
            && r.entities == m.entities + Joined(models, (x: Model) => x.entities)
            && r.behaviors == m.behaviors && r.scenarios == m.scenarios
  {
    ListIsJoined(m, models, (x: Model) => x.events);
    ListIsJoined(m, models, (x: Model) => x.components);
    ListIsJoined(m, models, (x: Model) => x.services);
    ListIsJoined(m, models, (x: Model) => x.entities);
    RestIsKept(m, models);
  }

  lemma {:induction false} RestIsKept(m: Model, models: seq<Model>)
    ensures MergedAll(m, models).behaviors == m.behaviors && MergedAll(m, models).scenarios == m.scenarios
    decreases |models|
  {
    if models != [] { RestIsKept(Merged(m, models[0]), models[1..]); }
  }

  /** Of a data entry, or of a data file, the last definition counts. */
  lemma {:induction false} LastDataCounts(m: Model, models: seq<Model>, key: string)
    ensures var r, last := MergedAll(m, models), LastFound(models, (x: Model) => x.data, key);
            (if key in r.data then Some(r.data[key]) else None)
            == OrElse(last, if key in m.data then Some(m.data[key]) else None)
    ensures var r, last := MergedAll(m, models), LastFound(models, (x: Model) => x.dataFiles, key);
            (if key in r.dataFiles then Some(r.dataFiles[key]) else None)
            == OrElse(last, if key in m.dataFiles then Some(m.dataFiles[key]) else None)
    decreases |models|
  {
    if models != [] { LastDataCounts(Merged(m, models[0]), models[1..], key); }
  }

  method Merge(m: Model, other: Model) returns (r: Model)
    ensures r == Merged(m, other)
  {
    var prefabs := m.prefabs;
    assert other.prefabs[..0] == [];
    for i := 0 to |other.prefabs|
      invariant prefabs == WithPrefabs(m.prefabs, other.prefabs[..i])
    {
      var p := other.prefabs[i];
      assert other.prefabs[..i + 1][..i] == other.prefabs[..i];
      FindMeaning(prefabs, p.name);
      var k := 0;
      while k < |prefabs| && prefabs[k].name != p.name
        invariant k <= |prefabs| && forall j :: 0 <= j < k ==> prefabs[j].name != p.name
      {
        k := k + 1;
      }
      if k == |prefabs| {
        prefabs := prefabs + [p];
      }
    }
    assert other.prefabs[..|other.prefabs|] == other.prefabs;
    r := m.(events := m.events + other.events, prefabs := prefabs, components := m.components + other.components,
            data := m.data + other.data, dataFiles := m.dataFiles + other.dataFiles,
            services := m.services + other.services, entities := m.entities + other.entities);
  }

  // ----- the leader's manager -----

  datatype Request =
    | AddWorker(w: Uuid)
    | RemoveWorker(w: Uuid)
    | PullModel(model: Model)
    | SetModel(model: Model)
    | MergeModel(model: Model)

  /** The model a request leaves the leader with. */
  function NextModel(m: Option<Model>, r: Request): Option<Model> {
    match r
    case PullModel(n) => Some(n)
    case SetModel(n) => Some(n)
    case MergeModel(n) => if m.Some? then Some(Merged(m.value, n)) else None
    case _ => m
  }

  function ModelAfter(m: Option<Model>, rs: seq<Request>): Option<Model>
    decreases |rs|
  {
    if rs == [] then m else NextModel(ModelAfter(m, rs[..|rs| - 1]), rs[|rs| - 1])
  }

  function Merges(models: seq<Model>): seq<Request> {
    seq(|models|, i requires 0 <= i < |models| => MergeModel(models[i]))
  }

  /** Once a model is set or pulled the leader has it with what is merged afterwards; what came before
      does not matter, and neither do workers that come and go. */
  lemma {:induction false} ModelSinceSet(m: Option<Model>, rs: seq<Request>, a: Model, models: seq<Model>)
    ensures ModelAfter(m, rs + [SetModel(a)] + Merges(models)) == Some(MergedAll(a, models))
    ensures ModelAfter(m, rs + [PullModel(a)] + Merges(models)) == Some(MergedAll(a, models))
  {
    var set_, pulled := rs + [SetModel(a)], rs + [PullModel(a)];
    assert set_[..|rs|] == rs && pulled[..|rs|] == rs;
    AfterMerges(m, set_, a, models);
    AfterMerges(m, pulled, a, models);
  }

  lemma {:induction false} AfterMerges(m: Option<Model>, rs: seq<Request>, a: Model, models: seq<Model>)
    requires ModelAfter(m, rs) == Some(a)
    ensures ModelAfter(m, rs + Merges(models)) == Some(MergedAll(a, models))
    decreases |models|
  {
    hide Merged;
    if models == [] {
      assert rs + Merges(models) == rs;
    } else {
      var one := rs + [MergeModel(models[0])];
      assert one[..|rs|] == rs;
      AfterMerges(m, one, Merged(a, models[0]), models[1..]);
      assert one + Merges(models[1..]) == rs + Merges(models);
    }
  }

  lemma WorkersDoNotMatter(m: Option<Model>, rs: seq<Request>, r: Request)
    requires r.AddWorker? || r.RemoveWorker?
    ensures ModelAfter(m, rs + [r]) == ModelAfter(m, rs)
  {
    assert (rs + [r])[..|rs|] == rs;
  }

  class Manager {
    var model: Option<Model>
    var workers: set<Uuid>
    /** What each worker holds; a call may fail after or before the worker took the model. */
    var held: map<Uuid, Option<Model>>
    /** How many calls to workers have failed. */
    ghost var failures: nat

    ghost predicate Valid()
      reads this
    {
      workers <= held.Keys
    }

    /** Every registered worker holds exactly the leader's model, once there is one. */
    ghost predicate InSync()
      reads this
    {
      model.Some? ==> forall w :: w in workers && w in held ==> held[w] == model
    }

    method SendModel(w: Uuid, m: Model) returns (ok: bool)
      requires w in held
      modifies this`held, this`failures
      ensures failures == old(failures) + if ok then 0 else 1
      ensures held.Keys == old(held).Keys && forall v :: v in held && v != w ==> held[v] == old(held)[v]
      ensures held[w] == Some(m) || (!ok && held[w] == old(held)[w])
    {
      var arrives: bool := *;
      if arrives { held := held[w := Some(m)]; }
      var answered: bool := *;
      ok := arrives && answered;
      if !ok { failures := failures + 1; }
    }

    /** Sends the model to the workers one after the other until a call fails; it succeeds if none does. */
    method Propagate(m: Model) returns (ok: bool)
      requires Valid()
      modifies this`held, this`failures
      ensures failures == old(failures) + if ok then 0 else 1
      ensures Valid() && held.Keys == old(held).Keys
      ensures ok ==> forall w :: w in workers ==> held[w] == Some(m)
      ensures forall w :: w in held ==> held[w] == old(held)[w] || (w in workers && held[w] == Some(m))
    {
      var todo := workers;
      while todo != {}
        invariant todo <= workers && held.Keys == old(held).Keys && failures == old(failures)
        invariant forall w :: w in workers - todo ==> held[w] == Some(m)
        invariant forall w :: w in held ==> held[w] == old(held)[w] || (w in workers && held[w] == Some(m))
      {
        var w :| w in todo;
        todo := todo - {w};
        ok := SendModel(w, m);
        if !ok { return; }
      }
      ok := true;
    }

    /** Handles one request. A failed call ends it; the leader keeps the new model all the same. */
    method Handle(r: Request) returns (ok: bool)
      requires Valid() && (r.AddWorker? ==> r.w in held)
      modifies this
      ensures Valid() && held.Keys == old(held).Keys && model == NextModel(old(model), r)
      ensures failures == old(failures) + if ok then 0 else 1
      ensures ok && (old(InSync()) || r.PullModel? || r.SetModel? || (r.MergeModel? && old(model).Some?)) ==> InSync()
      ensures forall w :: w in held ==> held[w] == old(held)[w] || held[w] == model
      ensures workers == match r
                         case AddWorker(w) => if ok then old(workers) + {w} else old(workers)
                         case RemoveWorker(w) => old(workers) - {w}
                         case _ => old(workers)
    {
      ok := true;
      match r {
        case AddWorker(w) =>
          if model.Some? {
            ok := SendModel(w, model.value);
            if !ok { return; }
          }
          workers := workers + {w};
        case RemoveWorker(w) =>
          workers := workers - {w};
        case PullModel(m) =>
          model := Some(m);
          ok := Propagate(m);
        case SetModel(m) =>
          model := Some(m);
          ok := Propagate(m);
        case MergeModel(m) =>
          if model.Some? {
            var merged := Merge(model.value, m);
            model := Some(merged);
            ok := Propagate(merged);
          }
      }
    }

    /** Handles requests one at a time. If every call to a worker succeeds, every registered worker
        holds exactly the leader's model, which is the one the requests describe. */
    method HandleAll(rs: seq<Request>) returns (ok: bool)
      requires Valid() && InSync()
      requires forall r :: r in rs && r.AddWorker? ==> r.w in held
      modifies this
      ensures Valid() && held.Keys == old(held).Keys
      ensures model == ModelAfter(old(model), rs)
      ensures ok <==> failures == old(failures)
      ensures ok ==> InSync()
    {
      ok := true;
      for i := 0 to |rs|
        invariant Valid() && held.Keys == old(held).Keys
        invariant model == ModelAfter(old(model), rs[..i])
        invariant old(failures) <= failures && (ok <==> failures == old(failures))
        invariant ok ==> InSync()
      {
        assert rs[..i + 1][..i] == rs[..i];
        var done := Handle(rs[i]);
        ok := ok && done;
      }
      assert rs[..|rs|] == rs;
    }
  }
}
