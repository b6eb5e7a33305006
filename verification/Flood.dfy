/** Signal flooding: a global `Invoke` re-broadcast by workers and by the leader over local links. */
module Flood {
  import opened Common
  import opened Network
  import opened Rpc

  // ----- the flood -----

  /** The participants that went_through_* reports for the context. */
  ghost function Passed(net: Topology, ctx: Context): set<Participant> {
    set p | p in net.Nodes() && (p in Observers(ctx.hops) || Skipped(ctx, p))
  }

  /** The origin counts as passed even though it was never called. */
  predicate Skipped(ctx: Context, p: Participant) {
    match p
    case Worker(id) => ctx.origin.Id() == id
    case Leader => ctx.origin == Party(Leader)
    case _ => false
  }

  /** What a call to `p` with context `ctx` guarantees: `delivered` lists the participants it made
      process the signal, `r` is the returned context. */
  ghost predicate Flooded(net: Topology, p: Participant, ctx: Context, delivered: seq<Participant>, r: Context) {
    && r.origin == ctx.origin && r.initiatedAt == ctx.initiatedAt
    && ctx.hops <= r.hops
    && ToSet(delivered) == Reach(net, p, Passed(net, ctx))
    && Observers(r.hops) == Observers(ctx.hops) + ToSet(delivered)
    && (p !in Observers(ctx.hops) && Distinct(ctx.hops) ==> Distinct(r.hops))
    && (Forkless(net) ==> NoDup(delivered))
    && (p.Worker? && ForkAt(net, p, Passed(net, ctx)) ==> !NoDup(delivered))
    && (Symmetric(net) && p !in Passed(net, ctx) ==> (NoDup(delivered) <==> Single(net, p, Passed(net, ctx))))
  }

  lemma PassedAfterHop(net: Topology, ctx: Context, p: Participant, now: nat)
    requires p in net.Nodes()
    ensures Passed(net, ctx.RegisterHop(p, now)) == Passed(net, ctx) + {p}
    ensures Observers(ctx.RegisterHop(p, now).hops) == Observers(ctx.hops) + {p}
  {
    var h := ctx.RegisterHop(p, now).hops[|ctx.hops|];
    ObserversConcat(ctx.hops, [h]);
    assert h in [h];
    assert Observers([h]) == {p};
  }

  // ----- one worker fanning out: every branch starts from the same context -----

  /** `seg` lists what the handled links `done` of `p` delivered to, after `p` itself. */
  ghost predicate Covers(net: Topology, p: Participant, avoid: set<Participant>,
                         done: set<Participant>, seg: seq<Participant>) {
    var a := avoid + {p};
    && p in ToSet(seg) && ToSet(seg) <= Reach(net, p, avoid)
    && (forall q, t :: q in ToSet(seg) && q != p && t in net.Links(q) && t !in avoid ==> t in ToSet(seg))
    && (forall n :: n in done && n !in a ==> Reach(net, n, a) <= ToSet(seg))
    && forall q :: q in ToSet(seg) && q != p ==> exists n :: n in done && n !in a && q in Reach(net, n, a)
  }

  /** When it lists somebody twice. */
  ghost predicate Repeats(net: Topology, p: Participant, avoid: set<Participant>,
                          done: set<Participant>, seg: seq<Participant>) {
    var a := avoid + {p};
    && (Forkless(net) ==> NoDup(seg))
    && (NoDup(seg) ==> Apart(net, a, done))
    && (Symmetric(net) ==> (NoDup(seg) <==> Apart(net, a, done) && AllSingle(net, a, done)))
  }

  /** No two of the links lead to the same place. */
  ghost predicate Apart(net: Topology, a: set<Participant>, done: set<Participant>) {
    forall m, n :: m in done && n in done && m !in a && n !in a && m != n
               ==> Reach(net, m, a) !! Reach(net, n, a)
  }

  /** Behind every link there is one way to everybody. */
  ghost predicate AllSingle(net: Topology, a: set<Participant>, done: set<Participant>) {
    forall n :: n in done && n !in a ==> Single(net, n, a)
  }

  ghost predicate FanOut(net: Topology, p: Participant, avoid: set<Participant>,
                         done: set<Participant>, seg: seq<Participant>) {
    Covers(net, p, avoid, done, seg) && Repeats(net, p, avoid, done, seg)
  }

  lemma FanOutStart(net: Topology, p: Participant, avoid: set<Participant>)
    requires p in net.Nodes()
    ensures FanOut(net, p, avoid, {}, [p])
  {
    ReachSelf(net, p, avoid);
    assert ToSet([p]) == {p};
  }

  lemma CoversStep(net: Topology, p: Participant, avoid: set<Participant>, done: set<Participant>,
                   seg: seq<Participant>, n: Participant, child: seq<Participant>)
    requires net.Valid() && p in net.Nodes() && Covers(net, p, avoid, done, seg)
    requires n in net.Links(p) && n !in avoid + {p} && ToSet(child) == Reach(net, n, avoid + {p})
    ensures Covers(net, p, avoid, done + {n}, seg + child)
  {
    var a := avoid + {p};
    ToSetConcat(seg, child);
    ReachSelf(net, p, avoid);
    ReachClosed(net, p, avoid);
    ReachThrough(net, p, n, avoid, a);
    ReachClosed(net, n, a);
  }

  /** A new branch meets none of the earlier ones exactly when it delivers to nobody of `seg`. */
  lemma ApartStep(net: Topology, p: Participant, avoid: set<Participant>, done: set<Participant>,
                  seg: seq<Participant>, n: Participant)
    requires Covers(net, p, avoid, done, seg) && n !in done && n !in avoid + {p}
    ensures var a := avoid + {p};
            Apart(net, a, done + {n}) <==> Apart(net, a, done) && ToSet(seg) !! Reach(net, n, a)
  {
    var a := avoid + {p};
    ReachAvoids(net, n, a);
    if Apart(net, a, done + {n}) {
      forall q | q in ToSet(seg)
        ensures q !in Reach(net, n, a)
      {
        if q != p {
          var m :| m in done && m !in a && q in Reach(net, m, a);
          assert m in done + {n} && n in done + {n};
        }
      }
    }
  }

  /** Without forks the links of a worker lead to different places. */
  lemma ForklessApart(net: Topology, p: Participant, avoid: set<Participant>)
    requires net.Valid() && p.Worker? && p in net.Nodes() && Forkless(net)
    ensures Apart(net, avoid + {p}, net.Links(p))
  {
    if ForkAt(net, p, avoid) { ForkAvoidingLess(net, p, {}, avoid); }
  }

  lemma FanOutStep(net: Topology, p: Participant, avoid: set<Participant>, done: set<Participant>,
                   seg: seq<Participant>, n: Participant, child: seq<Participant>)
    requires net.Valid() && p.Worker? && p in net.Nodes()
    requires FanOut(net, p, avoid, done, seg) && done <= net.Links(p)
    requires n in net.Links(p) && n !in done && n !in avoid + {p}
    requires ToSet(child) == Reach(net, n, avoid + {p}) && (Forkless(net) ==> NoDup(child))
    requires Symmetric(net) ==> (NoDup(child) <==> Single(net, n, avoid + {p}))
    ensures FanOut(net, p, avoid, done + {n}, seg + child)
  {
    hide Covers, Reach, Forkless, Symmetric, Single, NoDup;
    NoDupConcat(seg, child);
    CoversStep(net, p, avoid, done, seg, n, child);
    ApartStep(net, p, avoid, done, seg, n);
    if Forkless(net) { ForklessApart(net, p, avoid); }
  }

  lemma FanOutEndsSingle(net: Topology, p: Participant, avoid: set<Participant>)
    requires net.Valid() && p.Worker? && p in net.Nodes()
    ensures Symmetric(net) && p !in avoid
        ==> (Apart(net, avoid + {p}, net.Links(p)) && AllSingle(net, avoid + {p}, net.Links(p))
             <==> Single(net, p, avoid))
  {
    if Symmetric(net) && p !in avoid {
      assert Apart(net, avoid + {p}, net.Links(p)) <==> !ForkAt(net, p, avoid);
      if Single(net, p, avoid) { SingleGoesOnward(net, p, avoid); }
      if SingleOnward(net, p, avoid) { OnwardIsSingle(net, p, avoid); }
    }
  }

  lemma FanOutEnd(net: Topology, p: Participant, avoid: set<Participant>, seg: seq<Participant>)
    requires net.Valid() && p.Worker? && p in net.Nodes()
    requires FanOut(net, p, avoid, net.Links(p), seg)
    ensures ToSet(seg) == Reach(net, p, avoid)
    ensures Forkless(net) ==> NoDup(seg)
    ensures ForkAt(net, p, avoid) ==> !NoDup(seg)
    ensures Symmetric(net) && p !in avoid ==> (NoDup(seg) <==> Single(net, p, avoid))
  {
    FanOutEndsSingle(net, p, avoid);
    forall t | t in net.Links(p) && t !in avoid
      ensures t in ToSet(seg)
    {
      if t != p {
        LinksAreNodes(net, p);
        ReachSelf(net, t, avoid + {p});
      }
    }
    ReachLeast(net, p, avoid, ToSet(seg));
  }

  // ----- the leader in sequence: every call carries the hops gathered by the earlier ones -----

  /** `seg` lists what the served workers `done` delivered to, after the leader itself. */
  ghost predicate RelayCovers(net: Topology, avoid: set<Participant>, done: set<Participant>,
                              seg: seq<Participant>) {
    && Leader in ToSet(seg) && ToSet(seg) <= Reach(net, Leader, avoid)
    && (forall q, t :: q in ToSet(seg) && q != Leader && t in net.Links(q) && t !in avoid ==> t in ToSet(seg))
    && done <= ToSet(seg) + avoid
  }

  /** When it lists somebody twice. */
  ghost predicate RelayRepeats(net: Topology, avoid: set<Participant>, seg: seq<Participant>) {
    && (Forkless(net) ==> NoDup(seg))
    && (Symmetric(net) ==> (NoDup(seg) <==> Treelike(net, ToSet(seg), avoid)))
  }

  ghost predicate Relay(net: Topology, avoid: set<Participant>, done: set<Participant>, seg: seq<Participant>) {
    RelayCovers(net, avoid, done, seg) && RelayRepeats(net, avoid, seg)
  }

  lemma RelayCoversStep(net: Topology, avoid: set<Participant>, done: set<Participant>, seg: seq<Participant>,
                        n: Participant, child: seq<Participant>)
    requires net.Valid() && RelayCovers(net, avoid, done, seg)
    requires n in net.Links(Leader) && n !in avoid + ToSet(seg)
    requires ToSet(child) == Reach(net, n, avoid + ToSet(seg))
    ensures RelayCovers(net, avoid, done + {n}, seg + child)
    ensures ToSet(seg) !! ToSet(child)
  {
    var a := avoid + ToSet(seg);
    LinksAreNodes(net, Leader);
    ReachSelf(net, Leader, avoid);
    ReachClosed(net, Leader, avoid);
    ReachThrough(net, Leader, n, avoid, a);
    ReachClosed(net, n, a);
    ReachAvoids(net, n, a);
    ReachSelf(net, n, a);
    hide Reach;
    ToSetConcat(seg, child);
  }

  lemma TreelikeUnion(net: Topology, s: set<Participant>, t: set<Participant>, avoid: set<Participant>)
    ensures Treelike(net, s + t, avoid) <==> Treelike(net, s, avoid) && Treelike(net, t, avoid)
  {
    hide ForkAt;
  }

  /** Behind the next worker there is one way to everybody exactly if no circle is added. */
  lemma RelayChild(net: Topology, avoid: set<Participant>, done: set<Participant>, seg: seq<Participant>,
                   n: Participant)
    requires net.Valid() && Symmetric(net) && RelayCovers(net, avoid, done, seg)
    requires n in net.Links(Leader) && n !in avoid + ToSet(seg)
    ensures var a := avoid + ToSet(seg);
            Single(net, n, a) <==> Treelike(net, Reach(net, n, a), avoid)
  {
    LinksAreNodes(net, Leader);
    ReachAvoids(net, Leader, avoid);
    ReachIsNodes(net, Leader, avoid);
    hide Reach, Symmetric;
    TreelikeAfter(net, avoid, ToSet(seg), n);
  }

  lemma RelayStep(net: Topology, avoid: set<Participant>, done: set<Participant>, seg: seq<Participant>,
                  n: Participant, child: seq<Participant>)
    requires net.Valid() && Relay(net, avoid, done, seg)
    requires n in net.Links(Leader) && n !in avoid + ToSet(seg)
    requires ToSet(child) == Reach(net, n, avoid + ToSet(seg)) && (Forkless(net) ==> NoDup(child))
    requires Symmetric(net) ==> (NoDup(child) <==> Single(net, n, avoid + ToSet(seg)))
    ensures Relay(net, avoid, done + {n}, seg + child)
    ensures ToSet(seg) !! ToSet(child)
  {
    hide RelayCovers, Reach, Forkless, Symmetric, Single, Treelike, NoDup, ToSet;
    RelayCoversStep(net, avoid, done, seg, n, child);
    ToSetConcat(seg, child);
    NoDupConcat(seg, child);
    if Symmetric(net) {
      RelayChild(net, avoid, done, seg, n);
      TreelikeUnion(net, ToSet(seg), ToSet(child), avoid);
    }
  }

  lemma RelayEnd(net: Topology, avoid: set<Participant>, seg: seq<Participant>)
    requires net.Valid() && Relay(net, avoid, net.Links(Leader), seg)
    ensures ToSet(seg) == Reach(net, Leader, avoid)
    ensures Symmetric(net) ==> (NoDup(seg) <==> Single(net, Leader, avoid))
  {
    ReachLeast(net, Leader, avoid, ToSet(seg));
  }

  // ----- loop states -----

  /** A worker's broadcast after some links: `seen` is the context sent on every branch, `merged` the
      hops merged so far. */
  ghost predicate Fanning(net: Topology, p: Participant, ctx: Context, seen: Context,
                          done: set<Participant>, seg: seq<Participant>, merged: seq<NetworkHop>) {
    && seen.origin == ctx.origin && seen.initiatedAt == ctx.initiatedAt
    && Passed(net, seen) == Passed(net, ctx) + {p}
    && ctx.hops <= seen.hops <= merged
    && Observers(seen.hops) == Observers(ctx.hops) + {p}
    && FanOut(net, p, Passed(net, ctx), done, seg)
    && Observers(merged) == Observers(ctx.hops) + ToSet(seg)
    && (p !in Observers(ctx.hops) && Distinct(ctx.hops) ==> Distinct(merged))
  }

  lemma FanningStart(net: Topology, p: Participant, ctx: Context, now: nat)
    requires p in net.Nodes()
    ensures Fanning(net, p, ctx, ctx.RegisterHop(p, now), {}, [p], ctx.RegisterHop(p, now).hops)
  {
    var seen := ctx.RegisterHop(p, now);
    PassedAfterHop(net, ctx, p, now);
    FanOutStart(net, p, Passed(net, ctx));
    assert ToSet([p]) == {p};
    if p !in Observers(ctx.hops) && Distinct(ctx.hops) { DistinctAppend(ctx.hops, seen.hops[|ctx.hops|]); }
  }

  lemma FanningCall(net: Topology, p: Participant, ctx: Context, seen: Context, done: set<Participant>,
                    seg: seq<Participant>, merged: seq<NetworkHop>, n: Participant,
                    child: seq<Participant>, resp: Context)
    requires net.Valid() && p.Worker? && p in net.Nodes()
    requires Fanning(net, p, ctx, seen, done, seg, merged) && done <= net.Links(p)
    requires n in net.Links(p) && n !in done && n !in Passed(net, seen)
    requires Flooded(net, n, seen, child, resp)
    ensures Fanning(net, p, ctx, seen, done + {n}, seg + child, MergedUnique(merged, resp.hops))
  {
    FanOutHoldsStart(net, p, Passed(net, ctx), done, seg);
    hide Passed, FanOut, Observers, Reach, Forkless, Symmetric, Single, ForkAt, Distinct, NoDup, ToSet, MergedUnique;
    FanOutStep(net, p, Passed(net, ctx), done, seg, n, child);
    HopsMerged(ctx.hops, seen.hops, merged, resp.hops, p, ToSet(seg), ToSet(child));
    ToSetConcat(seg, child);
  }

  /** Merging the answer of one more branch. */
  lemma HopsMerged(given: seq<NetworkHop>, seen: seq<NetworkHop>, merged: seq<NetworkHop>, other: seq<NetworkHop>,
                   p: Participant, before: set<Participant>, added: set<Participant>)
    requires given <= seen <= merged && p in before
    requires Observers(seen) == Observers(given) + {p} && Observers(merged) == Observers(given) + before
    requires Observers(other) == Observers(seen) + added
    ensures given <= seen <= MergedUnique(merged, other)
    ensures Observers(MergedUnique(merged, other)) == Observers(given) + (before + added)
    ensures Distinct(merged) ==> Distinct(MergedUnique(merged, other))
  {
    hide Observers, Distinct, MergedUnique;
    MergedUniqueMeaning(merged, other);
  }

  lemma FanOutHoldsStart(net: Topology, p: Participant, avoid: set<Participant>, done: set<Participant>,
                         seg: seq<Participant>)
    requires FanOut(net, p, avoid, done, seg)
    ensures p in ToSet(seg)
  {
  }

  lemma FanningSkip(net: Topology, p: Participant, ctx: Context, seen: Context, done: set<Participant>,
                    seg: seq<Participant>, merged: seq<NetworkHop>, n: Participant)
    requires Fanning(net, p, ctx, seen, done, seg, merged) && n in Passed(net, seen)
    ensures Fanning(net, p, ctx, seen, done + {n}, seg, merged)
  {
  }

  lemma FanningEnd(net: Topology, p: Participant, ctx: Context, seen: Context,
                   seg: seq<Participant>, merged: seq<NetworkHop>)
    requires net.Valid() && p.Worker? && p in net.Nodes()
    requires Fanning(net, p, ctx, seen, net.Links(p), seg, merged)
    ensures Flooded(net, p, ctx, seg, seen.(hops := merged))
  {
    FanOutEnd(net, p, Passed(net, ctx), seg);
  }

  /** The leader's loop after some workers: `cur` carries everything gathered. */
  ghost predicate Relaying(net: Topology, ctx: Context, cur: Context, done: set<Participant>,
                           seg: seq<Participant>) {
    && cur.origin == ctx.origin && cur.initiatedAt == ctx.initiatedAt
    && ctx.hops <= cur.hops
    && Passed(net, cur) == Passed(net, ctx) + ToSet(seg)
    && Observers(cur.hops) == Observers(ctx.hops) + ToSet(seg)
    && Relay(net, Passed(net, ctx), done, seg)
    && (Leader !in Observers(ctx.hops) && Distinct(ctx.hops) ==> Distinct(cur.hops))
  }

  lemma RelayingStart(net: Topology, ctx: Context, now: nat)
    ensures Relaying(net, ctx, ctx.RegisterHop(Leader, now), {}, [Leader])
  {
    PassedAfterHop(net, ctx, Leader, now);
    ReachSelf(net, Leader, Passed(net, ctx));
    assert ToSet([Leader]) == {Leader};
    if Leader !in Observers(ctx.hops) && Distinct(ctx.hops) {
      DistinctAppend(ctx.hops, ctx.RegisterHop(Leader, now).hops[|ctx.hops|]);
    }
  }

  lemma PassedAfterMerge(net: Topology, cur: Context, next: Context, added: set<Participant>)
    requires next.origin == cur.origin && added <= net.Nodes()
    requires Observers(next.hops) == Observers(cur.hops) + added
    ensures Passed(net, next) == Passed(net, cur) + added
  {
  }

  lemma RelayingCall(net: Topology, ctx: Context, cur: Context, done: set<Participant>, seg: seq<Participant>,
                     n: Participant, child: seq<Participant>, resp: Context)
    requires net.Valid() && Relaying(net, ctx, cur, done, seg)
    requires n in net.Links(Leader) && n !in Passed(net, cur)
    requires Flooded(net, n, cur, child, resp)
    ensures Relaying(net, ctx, cur.MergeHops(resp.hops), done + {n}, seg + child)
  {
    hide Passed, FanOut, Relay, ForkAt, Forkless, Symmetric, Single, Reach, Observers;
    var next := cur.MergeHops(resp.hops);
    assert next.hops == resp.hops;
    RelayStep(net, Passed(net, ctx), done, seg, n, child);
    ToSetConcat(seg, child);
    ReachIsNodes(net, n, Passed(net, cur));
    PassedAfterMerge(net, cur, next, ToSet(child));
    PassedMeaning(net, cur, n);
  }

  lemma RelayingEnd(net: Topology, ctx: Context, cur: Context, seg: seq<Participant>)
    requires net.Valid() && Relaying(net, ctx, cur, net.Links(Leader), seg)
    ensures Flooded(net, Leader, ctx, seg, cur)
  {
    RelayEnd(net, Passed(net, ctx), seg);
  }

  // ----- termination measure: participants the call has not passed yet -----

  ghost function Unseen(net: Topology, hops: seq<NetworkHop>, p: Participant): nat {
    |net.Nodes() - Observers(hops) - {p}|
  }

  lemma UnseenShrinks(net: Topology, hops: seq<NetworkHop>, p: Participant,
                      more: seq<NetworkHop>, n: Participant)
    requires Observers(hops) + {p} <= Observers(more)
    requires n in net.Nodes() && n !in Observers(more)
    ensures Unseen(net, more, n) < Unseen(net, hops, p)
  {
    SubsetSize(net.Nodes() - Observers(more) - {n} + {n}, net.Nodes() - Observers(hops) - {p});
  }

  /** `went_through_worker` and `went_through_leader` decide membership in `Passed`. */
  lemma PassedMeaning(net: Topology, ctx: Context, n: Participant)
    requires n in net.Nodes()
    ensures n in Passed(net, ctx)
       <==> if n.Worker? then ctx.WentThroughWorker(n.id) else ctx.WentThroughLeader()
  {
  }

  lemma FanningCallee(net: Topology, p: Participant, ctx: Context, seen: Context, done: set<Participant>,
                      seg: seq<Participant>, merged: seq<NetworkHop>, n: Participant)
    requires Fanning(net, p, ctx, seen, done, seg, merged)
    requires n in net.Nodes() && n !in Passed(net, seen)
    ensures Unseen(net, seen.hops, n) < Unseen(net, ctx.hops, p)
  {
    UnseenShrinks(net, ctx.hops, p, seen.hops, n);
  }

  lemma RelayingCallee(net: Topology, ctx: Context, cur: Context, done: set<Participant>,
                       seg: seq<Participant>, n: Participant)
    requires Relaying(net, ctx, cur, done, seg)
    requires n in net.Nodes() && n !in Passed(net, cur)
    ensures Unseen(net, cur.hops, n) < Unseen(net, ctx.hops, Leader)
  {
    UnseenShrinks(net, ctx.hops, Leader, cur.hops, n);
  }

  lemma RelayingSkip(net: Topology, ctx: Context, cur: Context, done: set<Participant>,
                     seg: seq<Participant>, n: Participant)
    requires Relaying(net, ctx, cur, done, seg) && n in Passed(net, cur)
    ensures Relaying(net, ctx, cur, done + {n}, seg)
  {
  }

  lemma SubsetSize<T>(a: set<T>, b: set<T>)
    requires a <= b
    ensures |a| <= |b|
  {
    assert b == a + (b - a);
  }

  /** The workers and the leader of one cluster, and the record of who processed the signal when. */
  class Cluster {
    const net: Topology
    var log: seq<Participant>

    constructor (net: Topology)
      requires net.Valid()
      ensures this.net == net && log == []
    {
      this.net := net;
      log := [];
    }

    /** A global `Invoke` that reached worker `w` over a local stream. The branches run in parallel
        in the original and share nothing but the merge; here they are taken in any order. */
    method Invoke(w: Uuid, ctx: Context) returns (r: Context)
      requires net.Valid() && w in net.peers
      modifies this
      ensures old(log) <= log
      ensures Flooded(net, Worker(w), ctx, log[|old(log)|..], r)
      decreases Unseen(net, ctx.hops, Worker(w))
    {
      hide *;
      var now: nat := *;
      var p := Worker(w);
      var seen := ctx.RegisterHop(p, now);
      LinksAreNodes(net, p);
      log := log + [p];
      ghost var seg := [p];
      FanningStart(net, p, ctx, now);
      var merged := seen.hops;
      var todo := net.Links(p);
      assert net.Links(p) - todo == {};
      while todo != {}
        invariant todo <= net.Links(p)
        invariant log == old(log) + seg
        invariant Fanning(net, p, ctx, seen, net.Links(p) - todo, seg, merged)
      {
        ghost var before, done := log, net.Links(p) - todo;
        var t :| t in todo;
        todo := todo - {t};
        assert net.Links(p) - todo == done + {t};
        var passed := if t.Worker? then seen.WentThroughWorker(t.id) else seen.WentThroughLeader();
        PassedMeaning(net, seen, t);
        if passed {
          FanningSkip(net, p, ctx, seen, done, seg, merged, t);
        } else {
          FanningCallee(net, p, ctx, seen, done, seg, merged, t);
          var resp;
          if t.Worker? {
            resp := Invoke(t.id, seen);
          } else {
            resp := WorkerBroadcast(seen);
          }
          ghost var child := log[|before|..];
          FanningCall(net, p, ctx, seen, done, seg, merged, t, child, resp);
          merged := MergeHopsUnique(merged, resp.hops);
          seg := seg + child;
        }
      }
      assert net.Links(p) - todo == net.Links(p);
      FanningEnd(net, p, ctx, seen, seg, merged);
      assert log[|old(log)|..] == seg;
      r := seen.(hops := merged);
    }

    /** The leader passes the signal to its workers one after the other, in any order. */
    method WorkerBroadcast(ctx: Context) returns (r: Context)
      requires net.Valid()
      modifies this
      ensures old(log) <= log
      ensures Flooded(net, Leader, ctx, log[|old(log)|..], r)
      decreases Unseen(net, ctx.hops, Leader)
    {
      hide *;
      var now: nat := *;
      r := ctx.RegisterHop(Leader, now);
      log := log + [Leader];
      ghost var seg := [Leader];
      RelayingStart(net, ctx, now);
      var todo := net.Links(Leader);
      LinksAreNodes(net, Leader);
      assert net.Links(Leader) - todo == {};
      while todo != {}
        invariant todo <= net.Links(Leader)
        invariant log == old(log) + seg
        invariant Relaying(net, ctx, r, net.Links(Leader) - todo, seg)
      {
        ghost var before, done := log, net.Links(Leader) - todo;
        var t :| t in todo;
        todo := todo - {t};
        assert net.Links(Leader) - todo == done + {t};
        PassedMeaning(net, r, t);
        if r.WentThroughWorker(t.id) {
          RelayingSkip(net, ctx, r, done, seg, t);
        } else {
          RelayingCallee(net, ctx, r, done, seg, t);
          var resp := Invoke(t.id, r);
          ghost var child := log[|before|..];
          RelayingCall(net, ctx, r, done, seg, t, child, resp);
          r := r.MergeHops(resp.hops);
          seg := seg + child;
        }
      }
      assert net.Links(Leader) - todo == net.Links(Leader);
      RelayingEnd(net, ctx, r, seg);
      assert log[|old(log)|..] == seg;
    }

    /** A global `Invoke` sent through the handle of worker `w`: the signal reaches exactly the
        participants linked to `w` and the returned context lists each of them once. Over links made
        both ways each of them ran it once exactly when there is one way to everybody; over any links
        nobody runs it twice unless some worker forks, and somebody does when `w` itself forks. */
    method InvokeFromHandle(w: Uuid, ctx: Context) returns (r: Context)
      requires net.Valid() && w in net.peers
      requires ctx.hops == [] && ctx.origin != Party(Leader) && ctx.origin.Id() !in net.peers
      modifies this
      ensures old(log) <= log
      ensures ToSet(log[|old(log)|..]) == Reach(net, Worker(w), {})
      ensures Observers(r.hops) == Reach(net, Worker(w), {}) && Distinct(r.hops)
      ensures Symmetric(net) ==> (NoDup(log[|old(log)|..]) <==> OneWay(net, w))
      ensures Forkless(net) ==> NoDup(log[|old(log)|..])
      ensures ForkAt(net, Worker(w), {}) ==> !NoDup(log[|old(log)|..])
      ensures Star(net) ==> NoDup(log[|old(log)|..]) && ToSet(log[|old(log)|..]) == net.Nodes()
                            && WorkerHops(r.hops) == |net.peers| && |r.hops| == |net.peers| + 1
    {
      r := Invoke(w, ctx);
      assert Passed(net, ctx) == {};
      if Symmetric(net) { OneWayIsSingle(net, w); }
      if Star(net) {
        StarIsForkless(net);
        StarReachesAll(net, w);
        CountHops(net, r.hops);
      }
    }
  }

  /** A list that names every participant once names as many workers as the cluster has. */
  lemma CountHops(net: Topology, hops: seq<NetworkHop>)
    requires Distinct(hops) && Observers(hops) == net.Nodes()
    ensures WorkerHops(hops) == |net.peers| && |hops| == |net.peers| + 1
  {
    CountDistinct(hops);
    CountWorkers(hops);
    var ws := set w | w in net.peers :: Worker(w);
    assert net.Nodes() == ws + {Leader};
    WorkerNames(net.peers.Keys);
    assert (set p | p in net.Nodes() && p.Worker?) == ws;
  }

  lemma WorkerNames(ids: set<Uuid>)
    ensures |set w | w in ids :: Worker(w)| == |ids|
  {
    if ids != {} {
      var x :| x in ids;
      WorkerNames(ids - {x});
      assert (set w | w in ids :: Worker(w)) == (set w | w in ids - {x} :: Worker(w)) + {Worker(x)};
    }
  }

  lemma {:induction false} CountDistinct(hops: seq<NetworkHop>)
    requires Distinct(hops)
    ensures |Observers(hops)| == |hops|
    decreases |hops|
  {
    if hops != [] {
      SplitHops(hops);
      CountDistinct(hops[1..]);
    }
  }

  lemma {:induction false} CountWorkers(hops: seq<NetworkHop>)
    requires Distinct(hops)
    ensures WorkerHops(hops) == |set p | p in Observers(hops) && p.Worker?|
    decreases |hops|
  {
    if hops != [] {
      SplitHops(hops);
      CountWorkers(hops[1..]);
      var rest := set p | p in Observers(hops[1..]) && p.Worker?;
      var all := set p | p in Observers(hops) && p.Worker?;
      assert all == if hops[0].observer.Worker? then rest + {hops[0].observer} else rest;
    }
  }

  lemma SplitHops(hops: seq<NetworkHop>)
    requires Distinct(hops) && hops != []
    ensures Observers(hops) == {hops[0].observer} + Observers(hops[1..])
    ensures hops[0].observer !in Observers(hops[1..])
    ensures Distinct(hops[1..])
  {
    assert hops == [hops[0]] + hops[1..];
    ObserversConcat([hops[0]], hops[1..]);
    assert hops[0] in [hops[0]];
    assert Observers([hops[0]]) == {hops[0].observer};
    forall h | h in hops[1..]
      ensures h.observer != hops[0].observer
    {
      var i :| 0 <= i < |hops[1..]| && hops[1..][i] == h;
      assert hops[i + 1] == h;
    }
  }

  /** In the ring of three workers closed by the leader the signal travels both ways round: the
      worker it starts from forks, so some worker runs the events twice. */
  lemma RingForks()
    ensures var net := Topology(map[1 := {2}, 2 := {1, 3}, 3 := {2}], {1, 3}, {1, 3});
            net.Valid() && ForkAt(net, Worker(1), {})
  {
    var net := Topology(map[1 := {2}, 2 := {1, 3}, 3 := {2}], {1, 3}, {1, 3});
    var a := {} + {Worker(1)};
    assert net.Links(Worker(1)) == {Worker(2), Leader};
    assert Worker(3) in net.Links(Worker(2)) && Worker(3) in net.Links(Leader);
    ReachSelf(net, Worker(2), a);
    ReachClosed(net, Worker(2), a);
    ReachSelf(net, Leader, a);
    ReachClosed(net, Leader, a);
    assert Worker(3) in Reach(net, Worker(2), a) && Worker(3) in Reach(net, Leader, a);
    assert Worker(2) in net.Links(Worker(1)) - {} - {Worker(1)} && Leader in net.Links(Worker(1)) - {} - {Worker(1)};
  }

  // ----- delivery limits -----

  datatype Delivery = Unlimited | Limited(times: nat)

  /** A worker's record of one signal: how often it was seen, if at all. An arrival is refused once
      the record reaches the limit; only the first arrival writes the record. */
  function Arrive(record: Option<nat>, delivery: Delivery): (bool, Option<nat>) {
    match record
    case None => (true, Some(1))
    case Some(count) => (delivery.Unlimited? || count < delivery.times, record)
  }

  function AcceptedOf(arrivals: nat, record: Option<nat>, delivery: Delivery): nat {
    if arrivals == 0 then 0
    else
      var (ok, next) := Arrive(record, delivery);
      (if ok then 1 else 0) + AcceptedOf(arrivals - 1, next, delivery)
  }

  lemma {:induction false} AcceptedAfterFirst(arrivals: nat, delivery: Delivery)
    ensures AcceptedOf(arrivals, Some(1), delivery)
         == if delivery.Unlimited? || delivery.times > 1 then arrivals else 0
  {
    if arrivals > 0 { AcceptedAfterFirst(arrivals - 1, delivery); }
  }

  /** A limit of one makes the signal run exactly once however often it arrives. Any other limit is
      kept only while it is not reached, because the record is never counted up. */
  lemma LimitIsKeptIff(arrivals: nat, times: nat)
    ensures times == 1 && arrivals > 0 ==> AcceptedOf(arrivals, None, Limited(times)) == 1
    ensures AcceptedOf(arrivals, None, Limited(times)) == (if arrivals < times then arrivals else times)
       <==> arrivals <= times || times == 1
  {
    if arrivals > 0 { AcceptedAfterFirst(arrivals - 1, Limited(times)); }
  }
}
