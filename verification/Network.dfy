/** The local links of a cluster: what a participant reaches, where links fork and where they run in
    a circle. */
module Network {
  import opened Common
  import opened Rpc

  /** Who can call whom: workers to workers, workers to the leader, the leader to workers. */
  datatype Topology = Topology(
    peers: map<Uuid, set<Uuid>>, toLeader: set<Uuid>, fromLeader: set<Uuid>)
  {
    predicate Valid() {
      && fromLeader <= peers.Keys
      && forall w :: w in peers ==> peers[w] <= peers.Keys
    }

    function Nodes(): set<Participant> {
      (set w | w in peers :: Worker(w)) + {Leader}
    }

    function Links(p: Participant): set<Participant> {
      match p
      case Leader => set n | n in fromLeader :: Worker(n)
      case Worker(w) =>
        (if w in peers then set n | n in peers[w] :: Worker(n) else {})
        + (if w in toLeader then {Leader} else {})
      case _ => {}
    }
  }

  // ----- reachability -----

  ghost predicate IsPath(net: Topology, s: seq<Participant>, avoid: set<Participant>) {
    && |s| > 0
    && forall i :: 0 < i < |s| ==> s[i] in net.Links(s[i - 1]) && s[i] !in avoid
  }

  ghost predicate Reaches(net: Topology, p: Participant, q: Participant, avoid: set<Participant>) {
    exists s: seq<Participant> :: IsPath(net, s, avoid) && s[0] == p && s[|s| - 1] == q
  }

  /** The participants that `p` reaches by links, never entering one of `avoid` after `p` itself. */
  ghost function Reach(net: Topology, p: Participant, avoid: set<Participant>): set<Participant> {
    set q | q in net.Nodes() && Reaches(net, p, q, avoid)
  }

  ghost predicate ClosedUnderLinks(net: Topology, s: set<Participant>, avoid: set<Participant>) {
    forall p, q :: p in s && q in net.Links(p) && q !in avoid ==> q in s
  }

  lemma LinksAreNodes(net: Topology, p: Participant)
    requires net.Valid()
    ensures net.Links(p) <= net.Nodes()
    ensures forall n :: n in net.Nodes() && n.Worker? ==> n.id in net.peers
    ensures forall n :: n in net.Nodes() && !n.Worker? ==> n == Leader
    ensures forall n :: n in net.Links(Leader) ==> n.Worker?
    ensures forall w :: w in net.peers ==> Worker(w) in net.Nodes()
  {
  }

  lemma ReachSelf(net: Topology, p: Participant, avoid: set<Participant>)
    requires p in net.Nodes()
    ensures p in Reach(net, p, avoid)
  {
    assert IsPath(net, [p], avoid) && [p][0] == p && [p][|[p]| - 1] == p;
  }

  lemma ReachClosed(net: Topology, p: Participant, avoid: set<Participant>)
    requires net.Valid()
    ensures ClosedUnderLinks(net, Reach(net, p, avoid), avoid)
  {
    forall q, t | q in Reach(net, p, avoid) && t in net.Links(q) && t !in avoid
      ensures t in Reach(net, p, avoid)
    {
      LinksAreNodes(net, q);
      var s :| IsPath(net, s, avoid) && s[0] == p && s[|s| - 1] == q;
      var s' := s + [t];
      assert IsPath(net, s', avoid) && s'[0] == p && s'[|s'| - 1] == t;
    }
  }

  lemma {:induction false} PathStaysInside(net: Topology, s: seq<Participant>, avoid: set<Participant>,
                                           inside: set<Participant>)
    requires IsPath(net, s, avoid) && s[0] in inside && ClosedUnderLinks(net, inside, avoid)
    ensures s[|s| - 1] in inside
    decreases |s|
  {
    if |s| > 1 {
      var front := s[..|s| - 1];
      assert IsPath(net, front, avoid);
      PathStaysInside(net, front, avoid, inside);
      assert s[|s| - 1] in net.Links(front[|front| - 1]);
    }
  }

  /** `Reach` is the least set that holds `p` and is closed under the links not avoided. */
  lemma ReachLeast(net: Topology, p: Participant, avoid: set<Participant>, inside: set<Participant>)
    requires p in inside && ClosedUnderLinks(net, inside, avoid)
    ensures Reach(net, p, avoid) <= inside
  {
    forall q | q in Reach(net, p, avoid)
      ensures q in inside
    {
      var s :| IsPath(net, s, avoid) && s[0] == p && s[|s| - 1] == q;
      PathStaysInside(net, s, avoid, inside);
    }
  }

  lemma ReachIsNodes(net: Topology, p: Participant, avoid: set<Participant>)
    ensures Reach(net, p, avoid) <= net.Nodes()
  {
  }

  lemma ReachAvoids(net: Topology, p: Participant, avoid: set<Participant>)
    ensures Reach(net, p, avoid) * avoid <= {p}
  {
  }

  /** What a neighbour reaches while avoiding more is also reached from here. */
  lemma ReachThrough(net: Topology, p: Participant, n: Participant, avoid: set<Participant>, more: set<Participant>)
    requires net.Valid() && p in net.Nodes()
    requires n in Reach(net, p, avoid) && avoid <= more
    ensures Reach(net, n, more) <= Reach(net, p, avoid)
  {
    ReachClosed(net, p, avoid);
    assert ClosedUnderLinks(net, Reach(net, p, avoid), more);
    ReachLeast(net, n, more, Reach(net, p, avoid));
  }

  // ----- forks -----

  /** Two different links out of `p` lead to a common participant without coming back through `p`. */
  ghost predicate ForkAt(net: Topology, p: Participant, avoid: set<Participant>) {
    exists m, n ::
      && m in net.Links(p) - avoid - {p} && n in net.Links(p) - avoid - {p} && m != n
      && !(Reach(net, m, avoid + {p}) !! Reach(net, n, avoid + {p}))
  }

  /** No worker forks. The leader may: it hands every next worker the hops gathered so far. */
  ghost predicate Forkless(net: Topology) {
    forall w :: w in net.peers ==> !ForkAt(net, Worker(w), {})
  }

  /** Every worker is linked to the leader, both ways, and to nobody else. */
  predicate Star(net: Topology) {
    && net.toLeader == net.peers.Keys && net.fromLeader == net.peers.Keys
    && forall w :: w in net.peers ==> net.peers[w] == {}
  }

  lemma StarIsForkless(net: Topology)
    requires Star(net)
    ensures net.Valid() && Forkless(net)
  {
    forall w | w in net.peers
      ensures !ForkAt(net, Worker(w), {})
    {
      assert net.Links(Worker(w)) == {Leader};
    }
  }

  lemma StarReachesAll(net: Topology, w: Uuid)
    requires Star(net) && w in net.peers
    ensures Reach(net, Worker(w), {}) == net.Nodes()
  {
    var p, r := Worker(w), Reach(net, Worker(w), {});
    StarIsForkless(net);
    ReachSelf(net, p, {});
    ReachClosed(net, p, {});
    assert Leader in net.Links(p);
    assert Leader in r;
    forall q | q in net.Nodes()
      ensures q in r
    {
      if q != Leader { assert q in net.Links(Leader); }
    }
  }

  // ----- links made both ways -----

  /** Workers connect to each other, and the leader to its workers, over a channel in each direction. */
  ghost predicate Symmetric(net: Topology) {
    forall p, q :: p in net.Nodes() && q in net.Links(p) ==> p in net.Links(q)
  }

  lemma {:induction false} PathReversed(net: Topology, s: seq<Participant>, avoid: set<Participant>)
    requires net.Valid() && Symmetric(net)
    requires IsPath(net, s, avoid) && s[0] in net.Nodes() && s[0] !in avoid
    ensures s[0] in Reach(net, s[|s| - 1], avoid)
    decreases |s|
  {
    var p, q := s[0], s[|s| - 1];
    if |s| == 1 {
      ReachSelf(net, p, avoid);
    } else {
      var tail := s[1..];
      assert IsPath(net, tail, avoid);
      assert s[1] in net.Links(p) && s[1] !in avoid;
      LinksAreNodes(net, p);
      PathReversed(net, tail, avoid);
      ReachClosed(net, q, avoid);
    }
  }

  /** Over such links a participant is reached by whatever it reaches. */
  lemma ReachBack(net: Topology, p: Participant, q: Participant, avoid: set<Participant>)
    requires net.Valid() && Symmetric(net) && p in net.Nodes() - avoid
    requires q in Reach(net, p, avoid)
    ensures p in Reach(net, q, avoid) && q in net.Nodes() - avoid
  {
    var s :| IsPath(net, s, avoid) && s[0] == p && s[|s| - 1] == q;
    PathReversed(net, s, avoid);
    ReachAvoids(net, p, avoid);
  }

  /** Two participants that reach a common one reach the same ones. */
  lemma MeetingReachesAgree(net: Topology, m: Participant, n: Participant, avoid: set<Participant>)
    requires net.Valid() && Symmetric(net) && m in net.Nodes() - avoid && n in net.Nodes() - avoid
    requires !(Reach(net, m, avoid) !! Reach(net, n, avoid))
    ensures Reach(net, m, avoid) == Reach(net, n, avoid)
  {
    var c :| c in Reach(net, m, avoid) && c in Reach(net, n, avoid);
    ReachBack(net, m, c, avoid);
    ReachBack(net, n, c, avoid);
    ReachThrough(net, m, c, avoid, avoid);
    ReachThrough(net, n, c, avoid, avoid);
    ReachThrough(net, c, m, avoid, avoid);
    ReachThrough(net, c, n, avoid, avoid);
  }

  /** What `p` reaches besides itself it reaches through one of its links, without coming back. */
  lemma ReachSplit(net: Topology, p: Participant, q: Participant, avoid: set<Participant>) returns (t: Participant)
    requires net.Valid() && p in net.Nodes() && q in Reach(net, p, avoid) && q != p
    ensures t in net.Links(p) - avoid - {p} && q in Reach(net, t, avoid + {p})
  {
    var a := avoid + {p};
    var inside := {p} + set x | x in net.Nodes() && exists t :: t in net.Links(p) - a && x in Reach(net, t, a);
    forall x, y | x in inside && y in net.Links(x) && y !in avoid
      ensures y in inside
    {
      LinksAreNodes(net, x);
      if x != p && y != p {
        var t :| t in net.Links(p) - a && x in Reach(net, t, a);
        ReachClosed(net, t, a);
        assert y in Reach(net, t, a);
      } else if y != p {
        ReachSelf(net, y, a);
        assert y in net.Links(p) - a;
      }
    }
    ReachLeast(net, p, avoid, inside);
    t :| t in net.Links(p) - a && q in Reach(net, t, a);
  }

  /** Avoiding more makes no new forks. */
  lemma ForkAvoidingLess(net: Topology, p: Participant, less: set<Participant>, more: set<Participant>)
    requires net.Valid() && ForkAt(net, p, more) && less <= more
    ensures ForkAt(net, p, less)
  {
    var m, n :| m in net.Links(p) - more - {p} && n in net.Links(p) - more - {p} && m != n
             && !(Reach(net, m, more + {p}) !! Reach(net, n, more + {p}));
    LinksAreNodes(net, p);
    ReachSelf(net, m, less + {p});
    ReachSelf(net, n, less + {p});
    ReachThrough(net, m, m, less + {p}, more + {p});
    ReachThrough(net, n, n, less + {p}, more + {p});
    assert m in net.Links(p) - less - {p} && n in net.Links(p) - less - {p};
  }

  /** Two links of `p` that both lead to `c` make a fork. */
  lemma ForkFrom(net: Topology, p: Participant, m: Participant, n: Participant, c: Participant,
                 avoid: set<Participant>)
    requires m in net.Links(p) - avoid - {p} && n in net.Links(p) - avoid - {p} && m != n
    requires c in Reach(net, m, avoid + {p}) && c in Reach(net, n, avoid + {p})
    ensures ForkAt(net, p, avoid)
  {
  }

  /** A participant that is not reached can be avoided as well. */
  lemma ReachAround(net: Topology, m: Participant, avoid: set<Participant>, p: Participant)
    requires net.Valid() && m in net.Nodes() && p !in Reach(net, m, avoid)
    ensures Reach(net, m, avoid) == Reach(net, m, avoid + {p})
  {
    var inside := Reach(net, m, avoid + {p});
    ReachSelf(net, m, avoid);
    ReachSelf(net, m, avoid + {p});
    ReachThrough(net, m, m, avoid, avoid + {p});
    ReachClosed(net, m, avoid);
    ReachClosed(net, m, avoid + {p});
    ReachLeast(net, m, avoid, inside);
  }

  /** The link by which `p` comes to the neighbour `m` of `q`, and so to `q`. */
  lemma EntryTowards(net: Topology, p: Participant, q: Participant, m: Participant, avoid: set<Participant>)
    returns (t: Participant)
    requires net.Valid() && Symmetric(net) && p != q
    requires p in net.Nodes() - avoid && q in net.Nodes() - avoid
    requires m in net.Links(q) - avoid - {q} && m in Reach(net, p, avoid + {q})
    ensures t in net.Links(p) - avoid - {p} && q in Reach(net, t, avoid + {p})
    ensures t == q <==> m == p
    ensures m != p ==> m in Reach(net, t, avoid + {p} + {q})
  {
    LinksAreNodes(net, p);
    LinksAreNodes(net, q);
    if m == p {
      t := q;
      ReachSelf(net, q, avoid + {p});
    } else {
      t := ReachSplit(net, p, m, avoid + {q});
      assert avoid + {q} + {p} == avoid + {p} + {q};
      ReachSelf(net, t, avoid + {p});
      ReachThrough(net, t, t, avoid + {p}, avoid + {p} + {q});
      ReachClosed(net, t, avoid + {p});
      assert q in net.Links(m);
    }
  }

  /** From `p` two links of `q` are reached, by one link of `p` or by two. */
  lemma ForkThrough(net: Topology, p: Participant, q: Participant, m: Participant, n: Participant,
                    avoid: set<Participant>)
    requires net.Valid() && Symmetric(net) && p != q
    requires p in net.Nodes() - avoid && q in net.Nodes() - avoid
    requires m in net.Links(q) - avoid - {q} && n in net.Links(q) - avoid - {q} && m != n
    requires m in Reach(net, p, avoid + {q}) && n in Reach(net, p, avoid + {q})
    ensures ForkAt(net, p, avoid) || ForkAt(net, q, avoid + {p})
  {
    var b := avoid + {p} + {q};
    var t := EntryTowards(net, p, q, m, avoid);
    var u := EntryTowards(net, p, q, n, avoid);
    if t != u {
      ForkFrom(net, p, t, u, q, avoid);
    } else {
      LinksAreNodes(net, p);
      ReachBack(net, t, m, b);
      ReachBack(net, t, n, b);
      ForkFrom(net, q, m, n, t, avoid + {p});
    }
  }

  /** A fork at `q` either does not need `p`, or the links that meet run through `p` and `p` forks too. */
  lemma ForkElsewhere(net: Topology, p: Participant, q: Participant, avoid: set<Participant>)
    requires net.Valid() && Symmetric(net) && p != q
    requires p in net.Nodes() - avoid && q in net.Nodes() - avoid
    requires ForkAt(net, q, avoid)
    ensures ForkAt(net, p, avoid) || ForkAt(net, q, avoid + {p})
  {
    var a, b := avoid + {q}, avoid + {p} + {q};
    var m, n :| m in net.Links(q) - avoid - {q} && n in net.Links(q) - avoid - {q} && m != n
             && !(Reach(net, m, a) !! Reach(net, n, a));
    LinksAreNodes(net, q);
    MeetingReachesAgree(net, m, n, a);
    ReachSelf(net, n, a);
    assert a + {p} == b;
    if p !in Reach(net, m, a) {
      ReachSelf(net, m, a);
      ReachAround(net, m, a, p);
      ReachSelf(net, n, b);
      ForkFrom(net, q, m, n, n, avoid + {p});
    } else {
      ReachBack(net, m, p, a);
      ReachBack(net, n, p, a);
      ForkThrough(net, p, q, m, n, avoid);
    }
  }

  // ----- reaching everybody by one way only -----

  /** No worker of `s` forks among the workers: the links between them run in no circle. */
  ghost predicate Treelike(net: Topology, s: set<Participant>, avoid: set<Participant>) {
    forall q :: q in s && q.Worker? && q !in avoid ==> !ForkAt(net, q, avoid + {Leader})
  }

  /** At most one worker that `p` reaches without the leader is linked to the leader. */
  ghost predicate OneUplink(net: Topology, p: Participant, avoid: set<Participant>) {
    var own := Reach(net, p, avoid + {Leader});
    forall x, y :: x in own && y in own && Leader in net.Links(x) && Leader in net.Links(y) ==> x == y
  }

  /** No circle of workers is reached from `p`, and a worker `p` has one way to the leader at most. */
  ghost predicate Single(net: Topology, p: Participant, avoid: set<Participant>) {
    && Treelike(net, Reach(net, p, avoid), avoid)
    && (p.Worker? && Leader !in avoid ==> OneUplink(net, p, avoid))
  }

  /** The condition seen from the first step: `p` does not fork, and it holds for every link that is
      left once `p` is passed. */
  ghost predicate SingleOnward(net: Topology, p: Participant, avoid: set<Participant>) {
    && !ForkAt(net, p, avoid)
    && forall n :: n in net.Links(p) - avoid - {p} ==> Single(net, n, avoid + {p})
  }

  /** A participant that reaches the leader reaches, without it, a worker linked to the leader. */
  lemma UplinkOf(net: Topology, m: Participant, avoid: set<Participant>) returns (x: Participant)
    requires net.Valid() && m in net.Nodes() && m != Leader && Leader in Reach(net, m, avoid)
    ensures x in Reach(net, m, avoid + {Leader}) && Leader in net.Links(x)
  {
    var inside := Reach(net, m, avoid + {Leader});
    ReachSelf(net, m, avoid + {Leader});
    ReachAvoids(net, m, avoid + {Leader});
    ReachClosed(net, m, avoid + {Leader});
    if forall x :: x in inside ==> Leader !in net.Links(x) {
      ReachLeast(net, m, avoid, inside);
    }
    x :| x in inside && Leader in net.Links(x);
  }

  /** A fork is a fork among the workers, or two ways to the leader. */
  lemma ForkWithLeader(net: Topology, p: Participant, avoid: set<Participant>)
    requires net.Valid() && Symmetric(net) && p.Worker? && p in net.Nodes() - avoid && Leader !in avoid
    ensures ForkAt(net, p, avoid) && OneUplink(net, p, avoid) ==> ForkAt(net, p, avoid + {Leader})
  {
    if ForkAt(net, p, avoid) && OneUplink(net, p, avoid) {
      var a := avoid + {p};
      var b := avoid + {Leader} + {p};
      assert a + {Leader} == b;
      var m, n :| m in net.Links(p) - avoid - {p} && n in net.Links(p) - avoid - {p} && m != n
               && !(Reach(net, m, a) !! Reach(net, n, a));
      LinksAreNodes(net, p);
      MeetingReachesAgree(net, m, n, a);
      if Leader !in Reach(net, m, a) {
        ReachSelf(net, m, a);
        ReachSelf(net, n, a);
        ReachSelf(net, n, b);
        ReachAround(net, m, a, Leader);
        ForkFrom(net, p, m, n, n, avoid + {Leader});
      } else {
        var x := Uplink(net, p, m, avoid);
        var y := Uplink(net, p, n, avoid);
        assert x == y;
        ForkFrom(net, p, m, n, x, avoid + {Leader});
      }
    }
  }

  /** Through its link `m` the worker `p` comes to the leader: by its own link, or by that of a worker
      behind `m`. */
  lemma Uplink(net: Topology, p: Participant, m: Participant, avoid: set<Participant>) returns (x: Participant)
    requires net.Valid() && p.Worker? && p in net.Nodes()
    requires m in net.Links(p) - avoid - {p} && Leader in Reach(net, m, avoid + {p})
    ensures x in Reach(net, p, avoid + {Leader}) && Leader in net.Links(x)
    ensures m == Leader ==> x == p
    ensures m != Leader ==> x in Reach(net, m, avoid + {Leader} + {p}) - {p}
  {
    LinksAreNodes(net, p);
    ReachSelf(net, p, avoid + {Leader});
    if m == Leader {
      x := p;
    } else {
      assert avoid + {p} + {Leader} == avoid + {Leader} + {p};
      x := UplinkOf(net, m, avoid + {p});
      ReachAvoids(net, m, avoid + {Leader} + {p});
      ReachClosed(net, p, avoid + {Leader});
      ReachThrough(net, p, m, avoid + {Leader}, avoid + {Leader} + {p});
    }
  }

  lemma SingleGoesOnward(net: Topology, p: Participant, avoid: set<Participant>)
    requires net.Valid() && Symmetric(net) && p.Worker? && p in net.Nodes() - avoid
    requires Single(net, p, avoid)
    ensures SingleOnward(net, p, avoid)
  {
    ReachSelf(net, p, avoid);
    if Leader in avoid {
      assert avoid + {Leader} == avoid;
    } else {
      ForkWithLeader(net, p, avoid);
    }
    forall n | n in net.Links(p) - avoid - {p}
      ensures Single(net, n, avoid + {p})
    {
      SingleForLink(net, p, n, avoid);
    }
  }

  lemma SingleForLink(net: Topology, p: Participant, n: Participant, avoid: set<Participant>)
    requires net.Valid() && p.Worker? && p in net.Nodes() && n in net.Links(p) - avoid - {p}
    requires Single(net, p, avoid)
    ensures Single(net, n, avoid + {p})
  {
    var a := avoid + {p};
    ReachSelf(net, p, avoid);
    ReachClosed(net, p, avoid);
    ReachThrough(net, p, n, avoid, a);
    forall q | q in Reach(net, n, a) && q.Worker? && q !in a
      ensures !ForkAt(net, q, a + {Leader})
    {
      if ForkAt(net, q, a + {Leader}) { ForkAvoidingLess(net, q, avoid + {Leader}, a + {Leader}); }
    }
    if n.Worker? && Leader !in a {
      ReachSelf(net, p, avoid + {Leader});
      ReachClosed(net, p, avoid + {Leader});
      ReachThrough(net, p, n, avoid + {Leader}, a + {Leader});
    }
  }

  lemma OnwardIsSingle(net: Topology, p: Participant, avoid: set<Participant>)
    requires net.Valid() && Symmetric(net) && p.Worker? && p in net.Nodes() - avoid
    requires SingleOnward(net, p, avoid)
    ensures Single(net, p, avoid)
  {
    forall q | q in Reach(net, p, avoid) && q.Worker? && q !in avoid
      ensures !ForkAt(net, q, avoid + {Leader})
    {
      if ForkAt(net, q, avoid + {Leader}) { OnwardForkless(net, p, avoid, q); }
    }
    if Leader !in avoid {
      forall x, y | x in Reach(net, p, avoid + {Leader}) && y in Reach(net, p, avoid + {Leader})
                    && Leader in net.Links(x) && Leader in net.Links(y)
        ensures x == y
      {
        if x != y { OnwardUplinks(net, p, avoid, x, y); }
      }
    }
  }

  lemma OnwardForkless(net: Topology, p: Participant, avoid: set<Participant>, q: Participant)
    requires net.Valid() && Symmetric(net) && p.Worker? && p in net.Nodes() - avoid
    requires SingleOnward(net, p, avoid)
    requires q in Reach(net, p, avoid) && q.Worker? && q !in avoid
    ensures !ForkAt(net, q, avoid + {Leader})
  {
    if ForkAt(net, q, avoid + {Leader}) {
      if q != p {
        var t := ReachSplit(net, p, q, avoid);
        ForkElsewhere(net, p, q, avoid + {Leader});
        assert avoid + {p} + {Leader} == avoid + {Leader} + {p};
        assert Single(net, t, avoid + {p});
      }
      ForkAvoidingLess(net, p, avoid, avoid + {Leader});
    }
  }

  /** The link behind which `p` finds the uplink `x`, which leads on to the leader. */
  lemma TowardsUplink(net: Topology, p: Participant, avoid: set<Participant>, x: Participant)
    returns (t: Participant)
    requires net.Valid() && Symmetric(net) && p.Worker? && p in net.Nodes() - avoid && Leader !in avoid
    requires x in Reach(net, p, avoid + {Leader}) && Leader in net.Links(x)
    ensures t in net.Links(p) - avoid - {p} && Leader in Reach(net, t, avoid + {p})
    ensures t == Leader <==> x == p
    ensures x != p ==> x in Reach(net, t, avoid + {p} + {Leader})
  {
    LinksAreNodes(net, p);
    if x == p {
      t := Leader;
      ReachSelf(net, t, avoid + {p});
    } else {
      t := ReachSplit(net, p, x, avoid + {Leader});
      assert avoid + {Leader} + {p} == avoid + {p} + {Leader};
      ReachSelf(net, t, avoid + {p});
      ReachClosed(net, t, avoid + {p});
      ReachThrough(net, t, t, avoid + {p}, avoid + {p} + {Leader});
    }
  }

  lemma OnwardUplinks(net: Topology, p: Participant, avoid: set<Participant>, x: Participant, y: Participant)
    requires net.Valid() && Symmetric(net) && p.Worker? && p in net.Nodes() - avoid && Leader !in avoid
    requires SingleOnward(net, p, avoid)
    requires x in Reach(net, p, avoid + {Leader}) && y in Reach(net, p, avoid + {Leader})
    requires Leader in net.Links(x) && Leader in net.Links(y)
    ensures x == y
  {
    var t := TowardsUplink(net, p, avoid, x);
    var u := TowardsUplink(net, p, avoid, y);
    if t != u {
      ForkFrom(net, p, t, u, Leader, avoid);
    } else if x != p {
      LinksAreNodes(net, p);
      assert Single(net, t, avoid + {p});
    }
  }

  // ----- the leader: what it has served so far is cut off from the rest -----

  /** Whatever links a member of `s` has, `more` avoids the same of them as `less`. */
  ghost predicate AvoidedAlike(net: Topology, s: set<Participant>, less: set<Participant>, more: set<Participant>) {
    && ClosedUnderLinks(net, s, less)
    && forall q, t :: q in s && t in net.Links(q) ==> (t in less <==> t in more)
  }

  lemma ReachAlike(net: Topology, m: Participant, s: set<Participant>, less: set<Participant>,
                   more: set<Participant>, q: Participant)
    requires net.Valid() && m in net.Nodes() && m in s && less <= more && AvoidedAlike(net, s, less, more)
    ensures Reach(net, m, less + {q}) == Reach(net, m, more + {q})
  {
    var a, b := less + {q}, more + {q};
    ReachSelf(net, m, a);
    ReachSelf(net, m, b);
    ReachThrough(net, m, m, a, b);
    ReachLeast(net, m, a, s);
    ReachClosed(net, m, b);
    ReachLeast(net, m, a, Reach(net, m, b));
  }

  lemma ForkAlike(net: Topology, q: Participant, s: set<Participant>, less: set<Participant>, more: set<Participant>)
    requires net.Valid() && q in s && less <= more && AvoidedAlike(net, s, less, more)
    ensures ForkAt(net, q, less) <==> ForkAt(net, q, more)
  {
    if ForkAt(net, q, more) { ForkAvoidingLess(net, q, less, more); }
    if ForkAt(net, q, less) {
      var m, n :| m in net.Links(q) - less - {q} && n in net.Links(q) - less - {q} && m != n
               && !(Reach(net, m, less + {q}) !! Reach(net, n, less + {q}));
      LinksAreNodes(net, q);
      ReachAlike(net, m, s, less, more, q);
      ReachAlike(net, n, s, less, more, q);
      assert m in net.Links(q) - more - {q} && n in net.Links(q) - more - {q};
    }
  }

  /** What is left once the leader and a closed set `seg` are passed runs in a circle exactly where it
      did before. */
  lemma TreelikeAfter(net: Topology, avoid: set<Participant>, seg: set<Participant>, n: Participant)
    requires net.Valid() && Symmetric(net) && n in net.Nodes() && n !in avoid + seg && Leader in seg
    requires seg <= net.Nodes()
    requires forall q, t :: q in seg && q != Leader && t in net.Links(q) && t !in avoid ==> t in seg
    requires forall q :: q in seg && q != Leader ==> q !in avoid
    ensures var s := Reach(net, n, avoid + seg);
            Treelike(net, s, avoid + seg) <==> Treelike(net, s, avoid)
  {
    var more := avoid + seg;
    var s := Reach(net, n, more);
    assert more + {Leader} == more;
    ReachClosed(net, n, more);
    ReachAvoids(net, n, more);
    forall q, t | q in s && t in net.Links(q)
      ensures t in avoid + {Leader} <==> t in more
    {
      if t in seg && t != Leader && t !in avoid {
        LinksAreNodes(net, q);
      }
    }
    forall q | q in s
      ensures ForkAt(net, q, avoid + {Leader}) <==> ForkAt(net, q, more)
    {
      ForkAlike(net, q, s, avoid + {Leader}, more);
    }
  }

  // ----- circles -----

  /** Three workers or more, each linked to the next and the last to the first. */
  ghost predicate IsCircle(net: Topology, s: seq<Participant>, avoid: set<Participant>) {
    && |s| >= 3 && NoDup(s)
    && (forall i :: 0 <= i < |s| ==> s[i] in net.Nodes() - avoid)
    && (forall i :: 0 < i < |s| ==> s[i] in net.Links(s[i - 1]))
    && s[0] in net.Links(s[|s| - 1])
  }

  lemma ShortCut(net: Topology, s: seq<Participant>, avoid: set<Participant>, i: nat, j: nat)
    requires IsPath(net, s, avoid) && i < j < |s| && s[i] == s[j]
    ensures var cut := s[..i] + s[j..];
            IsPath(net, cut, avoid) && cut[0] == s[0] && cut[|cut| - 1] == s[|s| - 1]
  {
    var cut := s[..i] + s[j..];
    forall k | 0 < k < |cut|
      ensures cut[k] in net.Links(cut[k - 1]) && cut[k] !in avoid
    {
      if k <= i {
        assert cut[k] == s[k] && cut[k - 1] == s[k - 1];
      } else {
        assert cut[k] == s[k - i + j] && cut[k - 1] == s[k - i + j - 1];
      }
    }
  }

  /** A path from `s[0]` to its end can be had without meeting anybody twice. */
  lemma {:induction false} SimplePath(net: Topology, s: seq<Participant>, avoid: set<Participant>)
    returns (r: seq<Participant>)
    requires IsPath(net, s, avoid)
    ensures IsPath(net, r, avoid) && NoDup(r) && r[0] == s[0] && r[|r| - 1] == s[|s| - 1]
    decreases |s|
  {
    if NoDup(s) {
      r := s;
    } else {
      var i, j :| 0 <= i < j < |s| && s[i] == s[j];
      ShortCut(net, s, avoid, i, j);
      r := SimplePath(net, s[..i] + s[j..], avoid);
    }
  }

  /** A participant forks exactly where a circle runs through it. */
  lemma ForkIffCircle(net: Topology, p: Participant, avoid: set<Participant>)
    requires net.Valid() && Symmetric(net) && p in net.Nodes() - avoid
    ensures ForkAt(net, p, avoid) <==> exists s :: IsCircle(net, s, avoid) && s[0] == p
  {
    if ForkAt(net, p, avoid) { CircleFromFork(net, p, avoid); }
    if s :| IsCircle(net, s, avoid) && s[0] == p { ForkFromCircle(net, s, avoid); }
  }

  lemma CircleFromFork(net: Topology, p: Participant, avoid: set<Participant>)
    requires net.Valid() && Symmetric(net) && p in net.Nodes() - avoid && ForkAt(net, p, avoid)
    ensures exists s :: IsCircle(net, s, avoid) && s[0] == p
  {
    var a := avoid + {p};
    var m, n :| m in net.Links(p) - avoid - {p} && n in net.Links(p) - avoid - {p} && m != n
             && !(Reach(net, m, a) !! Reach(net, n, a));
    LinksAreNodes(net, p);
    MeetingReachesAgree(net, m, n, a);
    ReachSelf(net, n, a);
    var way :| IsPath(net, way, a) && way[0] == m && way[|way| - 1] == n;
    var r := SimplePath(net, way, a);
    assert r[0] == m && r[|r| - 1] == n;
    CloseCircle(net, p, r, avoid);
  }

  /** A path between two links of `p` that misses `p` is closed to a circle by `p`. */
  lemma CloseCircle(net: Topology, p: Participant, r: seq<Participant>, avoid: set<Participant>)
    requires net.Valid() && Symmetric(net) && p in net.Nodes() - avoid
    requires IsPath(net, r, avoid + {p}) && NoDup(r) && |r| >= 2
    requires r[0] in net.Links(p) - avoid - {p} && r[|r| - 1] in net.Links(p)
    ensures IsCircle(net, [p] + r, avoid)
  {
    var s := [p] + r;
    LinksAreNodes(net, p);
    PathIsNodes(net, r, avoid + {p});
    assert forall i :: 0 < i < |s| ==> s[i] == r[i - 1];
    assert forall i :: 0 < i < |s| ==> s[i] in net.Nodes() - avoid - {p};
    assert forall i :: 1 < i < |s| ==> s[i] in net.Links(s[i - 1]);
  }

  lemma {:induction false} PathIsNodes(net: Topology, s: seq<Participant>, avoid: set<Participant>)
    requires net.Valid() && IsPath(net, s, avoid) && s[0] in net.Nodes()
    ensures forall i :: 0 <= i < |s| ==> s[i] in net.Nodes()
  {
    forall i | 0 <= i < |s|
      ensures s[i] in net.Nodes()
    {
      if i > 0 { LinksAreNodes(net, s[i - 1]); }
    }
  }

  lemma ForkFromCircle(net: Topology, s: seq<Participant>, avoid: set<Participant>)
    requires net.Valid() && Symmetric(net) && IsCircle(net, s, avoid)
    ensures ForkAt(net, s[0], avoid)
  {
    var p, a, r := s[0], avoid + {s[0]}, s[1..];
    var m, n := s[1], s[|s| - 1];
    assert IsPath(net, r, a) && r[0] == m && r[|r| - 1] == n;
    ReachSelf(net, n, a);
    assert p in net.Links(n);
    ForkFrom(net, p, m, n, n, avoid);
  }

  /** No circle of workers is reached from `p`, said of the circles themselves. */
  lemma TreelikeIff(net: Topology, p: Participant, avoid: set<Participant>)
    requires net.Valid() && Symmetric(net)
    ensures Treelike(net, Reach(net, p, avoid), avoid)
       <==> forall s :: IsCircle(net, s, avoid + {Leader}) ==> s[0] !in Reach(net, p, avoid)
  {
    var r, a := Reach(net, p, avoid), avoid + {Leader};
    forall q | q in r && q.Worker? && q !in avoid
      ensures ForkAt(net, q, a) <==> exists s :: IsCircle(net, s, a) && s[0] == q
    {
      ForkIffCircle(net, q, a);
    }
    if Treelike(net, r, avoid) {
      forall s | IsCircle(net, s, a)
        ensures s[0] !in r
      {
        LinksAreNodes(net, s[0]);
      }
    }
  }

  /** A signal entering at worker `w` has one way to everybody: no circle of workers is reached, and at
      most one worker tied to `w` without the leader is linked to the leader. */
  ghost predicate OneWay(net: Topology, w: Uuid) {
    && (forall s :: IsCircle(net, s, {Leader}) ==> s[0] !in Reach(net, Worker(w), {}))
    && OneUplink(net, Worker(w), {})
  }

  lemma OneWayIsSingle(net: Topology, w: Uuid)
    requires net.Valid() && Symmetric(net)
    ensures OneWay(net, w) <==> Single(net, Worker(w), {})
  {
    TreelikeIff(net, Worker(w), {});
    assert {} + {Leader} == {Leader};
  }
}
