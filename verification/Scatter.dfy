/** Distributed queries on a star: a worker asks the leader, the leader asks every other worker. */
module Scatter {
  import opened Common
  import opened Entity
  import opened Rpc
  import opened Query
  import P = Partition

  type Parts = map<Uuid, P.PartState>

  // ----- the union of partitions -----

  /** No name is held in memory by two workers. */
  ghost predicate Disjoint(parts: Parts) {
    forall v, w :: v in parts && w in parts && v != w ==> parts[v].entities.Keys !! parts[w].entities.Keys
  }

  ghost function Names(parts: Parts, ws: set<Uuid>): set<EntityName> {
    set w, n | w in ws && w in parts && n in parts[w].entities :: n
  }

  ghost function HolderOf(parts: Parts, ws: set<Uuid>, n: EntityName): (w: Uuid)
    requires n in Names(parts, ws)
    ensures w in ws && w in parts && n in parts[w].entities
  {
    var w :| w in ws && w in parts && n in parts[w].entities; w
  }

  /** Everything the given workers hold in memory. */
  ghost function Held(parts: Parts, ws: set<Uuid>): Entities {
    map n | n in Names(parts, ws) :: parts[HolderOf(parts, ws, n)].entities[n]
  }

  lemma HeldAt(parts: Parts, ws: set<Uuid>, w: Uuid, n: EntityName)
    requires Disjoint(parts) && w in ws && w in parts && n in parts[w].entities
    ensures n in Held(parts, ws) && Held(parts, ws)[n] == parts[w].entities[n]
  {
    var v := HolderOf(parts, ws, n);
    assert v == w;
  }

  lemma HeldFrom(parts: Parts, ws: set<Uuid>, n: EntityName) returns (w: Uuid)
    requires n in Held(parts, ws)
    ensures w in ws && w in parts && n in parts[w].entities && Held(parts, ws)[n] == parts[w].entities[n]
  {
    w := HolderOf(parts, ws, n);
  }

  lemma {:induction false} HeldAdd(parts: Parts, ws: set<Uuid>, w: Uuid)
    requires Disjoint(parts) && w in parts && w !in ws
    ensures Held(parts, ws).Keys !! parts[w].entities.Keys
    ensures Held(parts, ws + {w}) == Held(parts, ws) + parts[w].entities
  {
    hide Held, Names;
    var one, more, mine := Held(parts, ws), Held(parts, ws + {w}), parts[w].entities;
    forall n | n in one
      ensures n !in mine && n in more && more[n] == one[n]
    {
      var v := HeldFrom(parts, ws, n);
      HeldAt(parts, ws + {w}, v, n);
    }
    forall n | n in mine
      ensures n in more && more[n] == mine[n]
    {
      HeldAt(parts, ws + {w}, w, n);
    }
    forall n | n in more
      ensures n in one || n in mine
    {
      var v := HeldFrom(parts, ws + {w}, n);
      if v != w { HeldAt(parts, ws, v, n); }
    }
  }

  lemma HeldNone(parts: Parts)
    ensures Held(parts, {}) == map[]
  {
  }

  lemma HeldOne(parts: Parts, w: Uuid)
    requires Disjoint(parts) && w in parts
    ensures Held(parts, {w}) == parts[w].entities
  {
    HeldAdd(parts, {}, w);
    HeldNone(parts);
    assert {} + {w} == {w};
    assert map[] + parts[w].entities == parts[w].entities;
  }

  // ----- gathering -----

  /** What `product` is after merging the products of the workers `done`, in any order. */
  ghost predicate Gathered(q: Query, parts: Parts, done: set<Uuid>, product: Product) {
    if done == {} then product == Empty
    else Runs(q, Held(parts, done), None) && Answers(q, Held(parts, done), None, product)
  }

  /** A query whose products can be merged over the workers `ws`. */
  ghost predicate Mergeable(q: Query, ws: set<Uuid>) {
    !Joinable(q.description, q.layout) ==> |ws| <= 1
  }

  /** A query that runs on what the workers `ws` hold together, and whose products can be merged. */
  ghost predicate Runnable(q: Query, parts: Parts, ws: set<Uuid>) {
    Runs(q, Held(parts, ws), None) && Mergeable(q, ws)
  }

  ghost predicate Scatterable(q: Query) {
    q.archive.Ignore? && q.limit.None?
  }

  lemma RunsSubset(q: Query, parts: Parts, part: set<Uuid>, ws: set<Uuid>)
    requires Scatterable(q) && Disjoint(parts) && part <= ws <= parts.Keys
    requires Runs(q, Held(parts, ws), None)
    ensures Runs(q, Held(parts, part), None)
    decreases |ws - part|
  {
    hide Runs;
    if w :| w in ws - part {
      assert ws - (part + {w}) < ws - part;
      assert ws - part == (ws - (part + {w})) + {w};
      RunsSubset(q, parts, part + {w}, ws);
      HeldAdd(parts, part, w);
      RunsUnion(q, Held(parts, part), parts[w].entities, parts[w].archive);
    } else {
      assert forall x :: x in ws ==> x !in ws - part;
      assert part == ws;
    }
  }

  lemma RunsWithoutArchive(q: Query, e: Entities, a: Option<Entities>, b: Option<Entities>)
    requires Scatterable(q)
    ensures Runs(q, e, a) <==> Runs(q, e, b)
  {
  }

  lemma GatheredNone(q: Query, parts: Parts)
    ensures Gathered(q, parts, {}, Empty)
  {
  }

  lemma GatheredMeans(q: Query, parts: Parts, ws: set<Uuid>)
    requires ws != {}
    ensures forall p :: Gathered(q, parts, ws, p)
              ==> Runs(q, Held(parts, ws), None) && Answers(q, Held(parts, ws), None, p)
  {
  }

  /** Merging one more worker's answer. */
  lemma {:induction false} GatherOne(q: Query, parts: Parts, done: set<Uuid>, product: Product, w: Uuid,
                                     archive: Option<Entities>, r: Product)
    requires Scatterable(q) && Disjoint(parts) && w in parts && w !in done
    requires Gathered(q, parts, done, product)
    requires Runs(q, parts[w].entities, archive) && Answers(q, parts[w].entities, archive, r)
    ensures Merge(product, r).Success? <==> Mergeable(q, done + {w})
    ensures Merge(product, r).Success? ==> Gathered(q, parts, done + {w}, Merge(product, r).value)
  {
    hide Runs, Answers, Merge, Held, Disjoint;
    var mine := parts[w].entities;
    HeldAdd(parts, done, w);
    assert done + {w} != {};
    if done == {} {
      HeldOne(parts, w);
      assert done + {w} == {w};
      ArchiveIgnored(q, mine, archive, r);
      RunsWithoutArchive(q, mine, archive, None);
      MergeEmpty(r);
    } else {
      var v :| v in done;
      assert {v, w} <= done + {w};
      TwoInside(done + {w}, v, w);
      RunsUnion(q, Held(parts, done), mine, archive);
      if !Joinable(q.description, q.layout) {
        Unmergeable(q, Held(parts, done), product, r);
      } else {
        MergeAnswers(q, Held(parts, done), mine, archive, product, r);
      }
    }
  }

  lemma MergeEmpty(r: Product)
    ensures Merge(Empty, r) == Success(r)
  {
  }

  lemma MergeableOne(q: Query, w: Uuid)
    ensures Mergeable(q, {w})
  {
  }

  lemma Unmergeable(q: Query, e: Entities, p: Product, r: Product)
    requires !Joinable(q.description, q.layout) && Answers(q, e, None, p)
    ensures Merge(p, r).Failure?
  {
    var data :| Describes(q, e, None, data) && IsProduct(q.description, q.layout, data, p);
  }

  lemma TwoInside(s: set<Uuid>, v: Uuid, w: Uuid)
    requires v in s && w in s && v != w
    ensures |s| >= 2
  {
    assert s == (s - {v, w}) + {v, w};
    assert |{v, w}| == 2;
  }

  /** What runs on a set of workers runs on every part of it. */
  lemma ScopeSplit(q: Query, parts: Parts, rest: set<Uuid>, w: Uuid, ws: set<Uuid>)
    requires Scatterable(q) && Disjoint(parts) && rest + {w} <= ws <= parts.Keys
    ensures Runnable(q, parts, ws) ==>
              && Runnable(q, parts, rest) && Mergeable(q, rest + {w}) && Runnable(q, parts, {w})
              && Runs(q, parts[w].entities, parts[w].archive)
  {
    hide Runs, Held, Disjoint;
    if Runnable(q, parts, ws) {
      RunsSubset(q, parts, rest, ws);
      RunsSubset(q, parts, {w}, ws);
      HeldOne(parts, w);
      RunsWithoutArchive(q, parts[w].entities, parts[w].archive, None);
      assert ws == (rest + {w}) + (ws - (rest + {w})) && ws == rest + (ws - rest);
      assert ws == {w} + (ws - {w});
    }
  }

  // ----- the star -----

  function WorkerIds(hops: seq<NetworkHop>): set<Uuid> {
    set h | h in hops && h.observer.Worker? :: h.observer.id
  }

  /** Same keys and data in every partition; only access times may differ. */
  ghost predicate SameDataInParts(a: Parts, b: Parts) {
    a.Keys == b.Keys && forall w :: w in a ==> SameDataEverywhere(a[w].entities, b[w].entities)
  }

  lemma WorkerIdsSnoc(hops: seq<NetworkHop>, h: NetworkHop)
    ensures WorkerIds(hops + [h]) == WorkerIds(hops) + if h.observer.Worker? then {h.observer.id} else {}
  {
    var all := hops + [h];
    assert forall x :: x in all <==> x in hops || x == h;
  }

  lemma HopKeepsLeader(c: Context, w: Uuid, now: nat)
    ensures c.RegisterHop(Worker(w), now).WentThroughLeader() == c.WentThroughLeader()
    ensures WorkerIds(c.RegisterHop(Worker(w), now).hops) == WorkerIds(c.hops) + {w}
  {
    var d := c.RegisterHop(Worker(w), now);
    var h := d.hops[|c.hops|];
    WorkerIdsSnoc(c.hops, h);
    ObserversConcat(c.hops, [h]);
    assert h in [h];
    assert Observers([h]) == {Worker(w)};
  }

  lemma SameDataRefl(a: Parts)
    ensures SameDataInParts(a, a)
  {
  }

  lemma SameDataTrans(a: Parts, b: Parts, c: Parts)
    requires SameDataInParts(a, b) && SameDataInParts(b, c)
    ensures SameDataInParts(a, c)
  {
    forall w | w in a
      ensures SameDataEverywhere(a[w].entities, c[w].entities)
    {
      assert SameDataEverywhere(a[w].entities, b[w].entities) && SameDataEverywhere(b[w].entities, c[w].entities);
    }
  }

  lemma OneChanged(a: Parts, b: Parts, w: Uuid)
    requires w in a && b.Keys == a.Keys && (forall v :: v in b && v != w ==> b[v] == a[v])
    requires SameDataEverywhere(a[w].entities, b[w].entities)
    ensures SameDataInParts(a, b)
  {
  }

  lemma SameDataDisjoint(a: Parts, b: Parts)
    requires Disjoint(a) && SameDataInParts(a, b)
    ensures Disjoint(b)
  {
    forall v, w | v in b && w in b && v != w
      ensures b[v].entities.Keys !! b[w].entities.Keys
    {
      assert SameDataEverywhere(a[v].entities, b[v].entities) && SameDataEverywhere(a[w].entities, b[w].entities);
    }
  }

  lemma RanMore(ran: seq<Uuid>, more: seq<Uuid>, w: Uuid)
    requires NoDup(ran) && NoDup(more) && w !in ran && ToSet(more) <= {w}
    ensures NoDup(ran + more) && ToSet(ran + more) == ToSet(ran) + ToSet(more)
    ensures forall v :: v !in ran + more ==> v !in ran && v !in more
  {
    NoDupConcat(ran, more);
    ToSetConcat(ran, more);
  }

  class Star {
    /** The partition of every worker. */
    var parts: Parts
    /** The workers registered with the leader. */
    var registered: set<Uuid>
    /** The workers that are connected to the leader. */
    var connected: set<Uuid>
    /** The partitions that ran a query, in order. */
    ghost var evaluated: seq<Uuid>

    ghost predicate Valid()
      reads this
    {
      registered <= parts.Keys && Disjoint(parts)
    }

    /** The workers a global query received by `w` is meant to run on. */
    ghost function Scope(w: Uuid, ctx: Context): set<Uuid>
      reads this
    {
      {w} + if ctx.WentThroughLeader() || w !in connected then {} else registered - WorkerIds(ctx.hops)
    }

    /** Which queries cover the whole cluster: those whose context says nothing yet about the leader
        or about another worker, from a worker connected to a leader that knows them all. */
    lemma ScopeIsAllIff(w: Uuid, ctx: Context)
      requires Valid() && w in parts
      ensures Scope(w, ctx) == parts.Keys
         <==> parts.Keys == {w}
              || (!ctx.WentThroughLeader() && w in connected
                  && forall v :: v in parts && v != w ==> v in registered && Worker(v) !in Observers(ctx.hops))
    {
      assert forall v :: v in WorkerIds(ctx.hops) <==> Worker(v) in Observers(ctx.hops);
      if Scope(w, ctx) == parts.Keys && parts.Keys != {w} {
        forall v | v in parts && v != w
          ensures v in registered && Worker(v) !in Observers(ctx.hops)
        {
          assert v in Scope(w, ctx);
        }
        var rest := parts.Keys - {w};
        assert parts.Keys == rest + {w};
        var v :| v in rest;
        assert v in Scope(w, ctx);
      }
    }

    /** Runs the query on one partition. */
    method Evaluate(w: Uuid, q: Query) returns (r: Result<Product, QueryError>)
      requires w in parts && q.limit.None?
      modifies this`parts, this`evaluated
      ensures evaluated == old(evaluated) + [w]
      ensures parts.Keys == old(parts).Keys && forall v :: v in parts && v != w ==> parts[v] == old(parts)[v]
      ensures SameDataEverywhere(old(parts)[w].entities, parts[w].entities)
      ensures r.Success? <==> Runs(q, old(parts)[w].entities, old(parts)[w].archive)
      ensures r.Success? ==> Answers(q, old(parts)[w].entities, old(parts)[w].archive, r.value)
    {
      hide *;
      evaluated := evaluated + [w];
      var now: nat := *;
      var after;
      NoLimitIsAmple(q, parts[w].entities, parts[w].archive);
      r, after := ProcessQuery(q, parts[w].entities, parts[w].archive, now);
      parts := parts[w := parts[w].(entities := after)];
    }

    /** The worker's own answer, merged with what was gathered from `rest` when the partitions were as in
        `first`. */
    method AddOwn(w: Uuid, q: Query, product: Product, ghost first: Parts, ghost rest: set<Uuid>)
      returns (r: Result<Product, QueryError>)
      requires Valid() && w in parts && Scatterable(q) && Disjoint(first) && SameDataInParts(first, parts)
      requires w in first && parts[w] == first[w] && w !in rest && rest <= first.Keys
      requires Gathered(q, first, rest, product)
      modifies this`parts, this`evaluated
      ensures Valid() && SameDataInParts(first, parts) && evaluated == old(evaluated) + [w]
      ensures parts.Keys == old(parts).Keys && forall v :: v in parts && v != w ==> parts[v] == old(parts)[v]
      ensures r.Success? <==> Runnable(q, first, rest + {w})
      ensures r.Success? ==> Answers(q, Held(first, rest + {w}), None, r.value)
    {
      hide Runs, Answers, Mergeable, Merge, Held, Disjoint, Gathered, SameDataInParts, SameDataEverywhere;
      ghost var before := parts;
      ScopeSplit(q, first, rest, w, rest + {w});
      var local := Evaluate(w, q);
      OneChanged(before, parts, w);
      SameDataTrans(first, before, parts);
      SameDataDisjoint(before, parts);
      if local.Failure? { return local; }
      GatherOne(q, first, rest, product, w, first[w].archive, local.value);
      r := Merge(product, local.value);
      GatheredMeans(q, first, rest + {w});
    }

    /** A worker receives a global query. The answer, and whether there is one, is that of the query
        on the union of the partitions in scope, each of which runs it exactly once. */
    method WorkerQuery(w: Uuid, q: Query, received: Context)
      returns (r: Result<Product, QueryError>, ghost ran: seq<Uuid>)
      requires Valid() && w in parts && Scatterable(q)
      modifies this`parts, this`evaluated
      ensures Valid() && parts.Keys == old(parts).Keys && SameDataInParts(old(parts), parts)
      ensures forall v :: v in parts && v !in ran ==> parts[v] == old(parts)[v]
      ensures evaluated == old(evaluated) + ran && NoDup(ran) && ToSet(ran) <= Scope(w, received)
      ensures r.Success? <==> Runnable(q, old(parts), Scope(w, received))
      ensures r.Success? ==> ToSet(ran) == Scope(w, received)
      ensures r.Success? ==> Answers(q, Held(old(parts), Scope(w, received)), None, r.value)
      decreases if received.WentThroughLeader() then 0 else 2
    {
      hide Runs, Answers, Mergeable, Merge, Held, Disjoint, Gathered, SameDataInParts, SameDataEverywhere, NoDup,
           WorkerIds;
      hide Context.RegisterHop, Context.WentThroughLeader, Context.Elapsed32;
      var now: nat := *;
      var ctx := received.RegisterHop(Worker(w), now);
      var product := Empty;
      ran := [];
      SameDataRefl(parts);
      GatheredNone(q, parts);
      ghost var scope := Scope(w, received);
      ghost var rest := scope - {w};
      ScopeSplit(q, parts, rest, w, scope);
      HopKeepsLeader(received, w, now);
      if !ctx.WentThroughLeader() {
        var hop := NetworkHop(Worker(w), ctx.Elapsed32(now));
        WorkerIdsSnoc(ctx.hops, hop);
        ctx := ctx.(hops := ctx.hops + [hop]);
        if w in connected {
          assert registered - WorkerIds(ctx.hops) == rest;
          var others;
          others, ran := LeaderQuery(q, ctx);
          if others.Failure? { return others, ran; }
          MergeEmpty(others.value);
          var merged := Merge(product, others.value);
          if merged.Failure? { return merged, ran; }
          product := merged.value;
        }
      }
      assert Gathered(q, old(parts), rest, product) && rest + {w} == scope;
      RanMore(ran, [w], w);
      ran := ran + [w];
      r := AddOwn(w, q, product, old(parts), rest);
    }

    /** The leader passes a global query on to every worker the context does not list. */
    method LeaderQuery(q: Query, ctx: Context) returns (r: Result<Product, QueryError>, ghost ran: seq<Uuid>)
      requires Valid() && Scatterable(q)
      modifies this`parts, this`evaluated
      ensures Valid() && parts.Keys == old(parts).Keys && SameDataInParts(old(parts), parts)
      ensures forall v :: v in parts && v !in ran ==> parts[v] == old(parts)[v]
      ensures evaluated == old(evaluated) + ran && NoDup(ran)
      ensures ToSet(ran) <= registered - WorkerIds(ctx.hops)
      ensures r.Success? ==> ToSet(ran) == registered - WorkerIds(ctx.hops)
      ensures r.Success? ==> Gathered(q, old(parts), registered - WorkerIds(ctx.hops), r.value)
      ensures r.Failure? ==> !Runnable(q, old(parts), registered - WorkerIds(ctx.hops))
      decreases 1
    {
      hide Runs, Answers, Mergeable, Merge, Held, Disjoint, Gathered, SameDataInParts;
      var product := Empty;
      ran := [];
      SameDataRefl(parts);
      GatheredNone(q, parts);
      var todo := registered - WorkerIds(ctx.hops);
      ghost var ws := todo;
      assert ws - todo == {};
      while todo != {}
        invariant todo <= ws && Valid() && parts.Keys == old(parts).Keys && SameDataInParts(old(parts), parts)
        invariant forall v :: v in parts && v !in ran ==> parts[v] == old(parts)[v]
        invariant evaluated == old(evaluated) + ran && NoDup(ran) && ToSet(ran) == ws - todo
        invariant Gathered(q, old(parts), ws - todo, product)
      {
        var w :| w in todo;
        ghost var done := ws - todo;
        todo := todo - {w};
        var now: nat := *;
        var response;
        ghost var more;
        ghost var before := parts;
        response, more := WorkerQuery(w, q, Context(Party(Leader), now, []));
        SameDataTrans(old(parts), before, parts);
        assert Scope(w, Context(Party(Leader), now, [])) == {w};
        assert w !in ToSet(ran);
        RanMore(ran, more, w);
        ran := ran + more;
        HeldOne(before, w);
        HeldOne(old(parts), w);
        ScopeSplit(q, old(parts), done, w, ws);
        if response.Failure? {
          return response, ran;
        }
        GatherOne(q, old(parts), done, product, w, None, response.value);
        var merged := Merge(product, response.value);
        if merged.Failure? { return merged, ran; }
        product := merged.value;
        assert ws - todo == done + {w};
      }
      return Success(product), ran;
    }
  }
}
