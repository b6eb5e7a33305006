/** The context that travels with a call: its origin, its start time and the hops observed so far. */
module Rpc {
  import opened Common

  /** A 128-bit identifier, as the number it encodes. */
  type Uuid = nat

  const U32: nat := 0x1_0000_0000
  const U64: nat := 0x1_0000_0000_0000_0000
  const MAX_UUID: nat := 0xFFFF_FFFF_FFFF_FFFF_FFFF_FFFF_FFFF_FFFF

  datatype Participant = Leader | Worker(id: Uuid) | Server(id: Uuid) | Client(id: Uuid)

  datatype Caller = Party(participant: Participant) | SimHandle | Behavior | Unknown
  {
    function Id(): Uuid {
      match this
      case Party(Leader) => 1
      case Party(p) => p.id
      case SimHandle => 0
      case Behavior => MAX_UUID
      case Unknown => 42
    }
  }

  datatype NetworkHop = NetworkHop(observer: Participant, deltaTimeMicros: nat)

  datatype Context = Context(origin: Caller, initiatedAt: nat, hops: seq<NetworkHop>)
  {
    /** The delta of the last hop, or zero. */
    function TotalTransferTime(): nat {
      if hops == [] then 0 else hops[|hops| - 1].deltaTimeMicros
    }

    /** Microseconds since the call began, as the 32-bit number the code works with. */
    function Elapsed32(now: nat): nat {
      ((now - initiatedAt) % U64) % U32
    }

    /** Neither subtraction of `RegisterHop` goes below zero at clock reading `now`. */
    predicate CanRegister(now: nat) {
      initiatedAt <= now && TotalTransferTime() <= Elapsed32(now)
    }

    /** Where `CanRegister` fails the 32-bit subtraction wraps around. */
    function RegisterHop(observer: Participant, now: nat): Context {
      var delta := (Elapsed32(now) - TotalTransferTime()) % U32;
      this.(hops := hops + [NetworkHop(observer, delta)])
    }

    predicate WentThroughWorker(id: Uuid) {
      origin.Id() == id || Worker(id) in Observers(hops)
    }

    predicate WentThroughLeader() {
      origin == Party(Leader) || Leader in Observers(hops)
    }

    /** Hops to append from a response: those past the length of the own list. */
    function MergeHops(other: seq<NetworkHop>): Context {
      this.(hops := hops + (if |hops| <= |other| then other[|hops|..] else []))
    }
  }

  function Observers(hops: seq<NetworkHop>): set<Participant> {
    set h | h in hops :: h.observer
  }

  function WorkerHops(hops: seq<NetworkHop>): nat {
    if hops == [] then 0
    else (if hops[0].observer.Worker? then 1 else 0) + WorkerHops(hops[1..])
  }

  /** No participant is listed twice. */
  ghost predicate Distinct(hops: seq<NetworkHop>) {
    forall i, j :: 0 <= i < j < |hops| ==> hops[i].observer != hops[j].observer
  }

  lemma ObserversConcat(a: seq<NetworkHop>, b: seq<NetworkHop>)
    ensures Observers(a + b) == Observers(a) + Observers(b)
  {
    assert forall h :: h in a + b <==> h in a || h in b;
  }

  lemma DistinctAppend(a: seq<NetworkHop>, h: NetworkHop)
    requires Distinct(a) && h.observer !in Observers(a)
    ensures Distinct(a + [h])
  {
    assert forall i | 0 <= i < |a| :: a[i] in a && a[i].observer in Observers(a);
  }

  /** `merge_hops_unique`: appends, in order, the hops of observers not listed yet. */
  function MergedUnique(hops: seq<NetworkHop>, other: seq<NetworkHop>): seq<NetworkHop>
    decreases |other|
  {
    if other == [] then hops
    else if other[0].observer in Observers(hops) then MergedUnique(hops, other[1..])
    else MergedUnique(hops + [other[0]], other[1..])
  }

  lemma {:induction false} MergedUniqueSnoc(hops: seq<NetworkHop>, other: seq<NetworkHop>, h: NetworkHop)
    ensures MergedUnique(hops, other + [h])
         == if h.observer in Observers(MergedUnique(hops, other)) then MergedUnique(hops, other)
            else MergedUnique(hops, other) + [h]
    decreases |other|
  {
    var all := other + [h];
    if other == [] {
      assert all[1..] == [];
    } else {
      assert all[1..] == other[1..] + [h];
      if other[0].observer in Observers(hops) {
        MergedUniqueSnoc(hops, other[1..], h);
      } else {
        MergedUniqueSnoc(hops + [other[0]], other[1..], h);
      }
    }
  }

  /** The merge keeps the own hops as a prefix, lists exactly the union of the observers, takes
      every added hop from the other list and introduces no duplicate. */
  lemma {:induction false} MergedUniqueMeaning(hops: seq<NetworkHop>, other: seq<NetworkHop>)
    ensures hops <= MergedUnique(hops, other)
    ensures Observers(MergedUnique(hops, other)) == Observers(hops) + Observers(other)
    ensures Distinct(hops) ==> Distinct(MergedUnique(hops, other))
    ensures forall i :: |hops| <= i < |MergedUnique(hops, other)| ==> MergedUnique(hops, other)[i] in other
    decreases |other|
  {
    if other != [] {
      var h, rest := other[0], other[1..];
      assert other == [h] + rest;
      ObserversConcat([h], rest);
      assert Observers([h]) == {h.observer} by { assert h in [h]; }
      if h.observer in Observers(hops) {
        MergedUniqueMeaning(hops, rest);
      } else {
        ObserversConcat(hops, [h]);
        if Distinct(hops) { DistinctAppend(hops, h); }
        MergedUniqueMeaning(hops + [h], rest);
      }
    }
  }

  method MergeHopsUnique(hops: seq<NetworkHop>, other: seq<NetworkHop>) returns (merged: seq<NetworkHop>)
    ensures merged == MergedUnique(hops, other)
  {
    merged := hops;
    assert other[..0] == [];
    for i := 0 to |other|
      invariant merged == MergedUnique(hops, other[..i])
    {
      assert other[..i + 1] == other[..i] + [other[i]];
      MergedUniqueSnoc(hops, other[..i], other[i]);
      var listed := false;
      for j := 0 to |merged|
        invariant listed <==> exists k :: 0 <= k < j && merged[k].observer == other[i].observer
      {
        if merged[j].observer == other[i].observer {
          listed := true;
        }
      }
      assert listed <==> other[i].observer in Observers(merged) by {
        if listed {
          var k :| 0 <= k < |merged| && merged[k].observer == other[i].observer;
          assert merged[k] in merged;
        }
      }
      if !listed {
        merged := merged + [other[i]];
      }
    }
    assert other[..|other|] == other;
  }

  // ----- timing over a whole run -----

  /** Contexts descended from one call, and the clock they are stamped with. */
  datatype Pool = Pool(now: nat, initiatedAt: nat, ctxs: seq<Context>)

  datatype Op =
    | Tick(micros: nat)
    | Clone(source: nat)
    | Register(target: nat, observer: Participant)
    | PushElapsed(target: nat, observer: Participant)
    | MergePrefix(target: nat, source: nat)
    | MergeUnique(target: nat, source: nat)

  /** `PushElapsed` is the hop a global query appends by hand before it asks the leader. */
  function Apply(s: Pool, op: Op): Pool {
    match op
    case Tick(d) => s.(now := s.now + d)
    case Clone(i) => if i < |s.ctxs| then s.(ctxs := s.ctxs + [s.ctxs[i]]) else s
    case Register(i, p) =>
      if i < |s.ctxs| then s.(ctxs := s.ctxs[i := s.ctxs[i].RegisterHop(p, s.now)]) else s
    case PushElapsed(i, p) =>
      if i < |s.ctxs| then
        var c := s.ctxs[i];
        s.(ctxs := s.ctxs[i := c.(hops := c.hops + [NetworkHop(p, c.Elapsed32(s.now))])])
      else s
    case MergePrefix(i, j) =>
      if i < |s.ctxs| && j < |s.ctxs| then s.(ctxs := s.ctxs[i := s.ctxs[i].MergeHops(s.ctxs[j].hops)])
      else s
    case MergeUnique(i, j) =>
      if i < |s.ctxs| && j < |s.ctxs| then
        s.(ctxs := s.ctxs[i := s.ctxs[i].(hops := MergedUnique(s.ctxs[i].hops, s.ctxs[j].hops))])
      else s
  }

  function Run(s: Pool, ops: seq<Op>): Pool
    decreases |ops|
  {
    if ops == [] then s else Run(Apply(s, ops[0]), ops[1..])
  }

  ghost predicate Timed(hops: seq<NetworkHop>, elapsed: nat) {
    forall h :: h in hops ==> h.deltaTimeMicros <= elapsed
  }

  /** Every context belongs to the call and no hop claims more time than has passed. */
  ghost predicate WellTimed(s: Pool) {
    && s.initiatedAt <= s.now
    && forall c :: c in s.ctxs ==> c.initiatedAt == s.initiatedAt && Timed(c.hops, s.now - s.initiatedAt)
  }

  /** The identifiers of callers that have none of their own; only a participant's can be chosen. */
  lemma ReservedIds()
    ensures Party(Leader).Id() == 1 && SimHandle.Id() == 0 && Unknown.Id() == 42
    ensures Behavior.Id() + 1 == U64 * U64
    ensures forall id :: Party(Worker(id)).Id() == id && Party(Server(id)).Id() == id && Party(Client(id)).Id() == id
  {
  }

  /** A context went through a participant if and only if that made the call or is listed as a hop. */
  lemma WentThroughIff(c: Context, id: Uuid)
    ensures c.WentThroughWorker(id) <==> c.origin.Id() == id || exists h :: h in c.hops && h.observer == Worker(id)
    ensures c.WentThroughLeader() <==> c.origin == Party(Leader) || exists h :: h in c.hops && h.observer == Leader
  {
  }

  /** A step lists whom it registers; a merge lists everybody that either context does, and the cut one
      everybody whose hop lies beyond the own ones. Nothing that is listed is ever forgotten. */
  lemma ApplyLists(s: Pool, op: Op, k: nat)
    requires k < |s.ctxs|
    ensures k < |Apply(s, op).ctxs| && s.ctxs[k].hops <= Apply(s, op).ctxs[k].hops
    ensures (op.Register? || op.PushElapsed?) && op.target == k ==>
              && |Apply(s, op).ctxs[k].hops| == |s.ctxs[k].hops| + 1
              && Apply(s, op).ctxs[k].hops[|s.ctxs[k].hops|].observer == op.observer
    ensures op.MergePrefix? && op.target == k && op.source < |s.ctxs| ==>
              var a, b := s.ctxs[k].hops, s.ctxs[op.source].hops;
              && |Apply(s, op).ctxs[k].hops| == (if |a| <= |b| then |b| else |a|)
              && (a <= b ==> Apply(s, op).ctxs[k].hops == b)
    ensures op.MergeUnique? && op.target == k && op.source < |s.ctxs| ==>
              Observers(Apply(s, op).ctxs[k].hops) == Observers(s.ctxs[k].hops) + Observers(s.ctxs[op.source].hops)
  {
    hide MergedUnique, Observers;
    if op.MergeUnique? && op.target == k && op.source < |s.ctxs| {
      MergedUniqueMeaning(s.ctxs[k].hops, s.ctxs[op.source].hops);
    }
  }

  lemma LastHopTimed(c: Context, elapsed: nat)
    requires Timed(c.hops, elapsed)
    ensures c.TotalTransferTime() <= elapsed
  {
    if c.hops != [] { assert c.hops[|c.hops| - 1] in c.hops; }
  }

  lemma TimedMerge(a: seq<NetworkHop>, b: seq<NetworkHop>, elapsed: nat)
    requires Timed(a, elapsed) && Timed(b, elapsed)
    ensures Timed(MergedUnique(a, b), elapsed)
  {
    hide MergedUnique, Distinct, Observers;
    MergedUniqueMeaning(a, b);
    var m := MergedUnique(a, b);
    forall h | h in m ensures h in a || h in b {
      var k :| 0 <= k < |m| && m[k] == h;
      if k < |a| { assert a[k] == h; }
    }
  }

  lemma RegisterTimed(c: Context, p: Participant, now: nat)
    requires c.initiatedAt <= now && now - c.initiatedAt < U32 && Timed(c.hops, now - c.initiatedAt)
    ensures c.RegisterHop(p, now).initiatedAt == c.initiatedAt
    ensures Timed(c.RegisterHop(p, now).hops, now - c.initiatedAt)
    ensures Timed(c.hops + [NetworkHop(p, c.Elapsed32(now))], now - c.initiatedAt)
  {
    LastHopTimed(c, now - c.initiatedAt);
  }

  lemma MergePrefixTimed(c: Context, other: seq<NetworkHop>, elapsed: nat)
    requires Timed(c.hops, elapsed) && Timed(other, elapsed)
    ensures c.MergeHops(other).initiatedAt == c.initiatedAt && Timed(c.MergeHops(other).hops, elapsed)
  {
  }

  lemma LaterTimed(hops: seq<NetworkHop>, elapsed: nat, later: nat)
    requires Timed(hops, elapsed) && elapsed <= later
    ensures Timed(hops, later)
  {
  }

  lemma ApplyKeepsWellTimed(s: Pool, op: Op)
    requires WellTimed(s) && Apply(s, op).now - s.initiatedAt < U32
    ensures WellTimed(Apply(s, op))
  {
    var t := Apply(s, op);
    var e := s.now - s.initiatedAt;
    hide MergedUnique, Timed, Context.RegisterHop, Context.MergeHops, Context.Elapsed32;
    forall k | 0 <= k < |t.ctxs|
      ensures t.ctxs[k].initiatedAt == s.initiatedAt && Timed(t.ctxs[k].hops, t.now - s.initiatedAt)
    {
      var c := s.ctxs[if k < |s.ctxs| then k else op.source];
      assert c in s.ctxs;
      LaterTimed(c.hops, e, t.now - s.initiatedAt);
      match op
      case Tick(_) =>
      case Clone(_) =>
      case Register(_, p) => RegisterTimed(c, p, s.now);
      case PushElapsed(_, p) => RegisterTimed(c, p, s.now);
      case MergePrefix(_, j) =>
        if j < |s.ctxs| {
          assert s.ctxs[j] in s.ctxs;
          MergePrefixTimed(c, s.ctxs[j].hops, e);
        }
      case MergeUnique(_, j) =>
        if j < |s.ctxs| {
          assert s.ctxs[j] in s.ctxs;
          TimedMerge(c.hops, s.ctxs[j].hops, e);
        }
    }
  }

  lemma {:induction false} RunAdvancesClock(s: Pool, ops: seq<Op>)
    ensures s.now <= Run(s, ops).now && Run(s, ops).initiatedAt == s.initiatedAt
    decreases |ops|
  {
    if ops != [] { RunAdvancesClock(Apply(s, ops[0]), ops[1..]); }
  }

  /** Within 2^32 microseconds of its start no operation on a call ever underflows: over every
      sequence of operations each hop's delta stays within the elapsed time, so the next
      registration on any context is possible. */
  lemma {:induction false} NoUnderflowOverRuns(s: Pool, ops: seq<Op>)
    requires WellTimed(s) && Run(s, ops).now - s.initiatedAt < U32
    ensures WellTimed(Run(s, ops))
    ensures forall c :: c in Run(s, ops).ctxs ==> c.CanRegister(Run(s, ops).now)
    decreases |ops|
  {
    if ops == [] {
      forall c | c in s.ctxs ensures c.CanRegister(s.now) {
        LastHopTimed(c, s.now - s.initiatedAt);
      }
    } else {
      RunAdvancesClock(Apply(s, ops[0]), ops[1..]);
      ApplyKeepsWellTimed(s, ops[0]);
      NoUnderflowOverRuns(Apply(s, ops[0]), ops[1..]);
    }
  }

  /** A registered delta and the previous last delta add up to the elapsed time. The field is
      documented as the time since the call was issued; that is what is stored if and only if no
      time was recorded before. */
  lemma RegisteredDelta(c: Context, p: Participant, now: nat)
    requires c.CanRegister(now) && now - c.initiatedAt < U32
    ensures c.RegisterHop(p, now).TotalTransferTime() + c.TotalTransferTime() == now - c.initiatedAt
    ensures c.RegisterHop(p, now).TotalTransferTime() == now - c.initiatedAt
       <==> c.TotalTransferTime() == 0
  {
    var e := now - c.initiatedAt;
    assert c.Elapsed32(now) == e;
    var d := e - c.TotalTransferTime();
    assert 0 <= d < U32;
    assert c.RegisterHop(p, now).hops[|c.hops|].deltaTimeMicros == d;
  }
}
