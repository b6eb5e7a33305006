/** Moving entities between workers: one worker's migration, and the leader's pass over all of them. */
module Placement {
  import opened Common
  import opened Entity
  import opened Rpc
  import P = Partition

  type Parts = map<Uuid, P.PartState>

  /** What every worker stores, in memory or archived. */
  type Where = map<Uuid, Entities>

  datatype Data = Data(storage: map<StorageIndex, Var>, components: seq<CompName>)

  type World = map<EntityName, Data>

  function DataOf(e: Entity): Data {
    Data(e.storage, e.components)
  }

  ghost function StoredBy(parts: Parts): Where {
    map w | w in parts :: parts[w].Stored()
  }

  // ----- where entities are -----

  ghost predicate Holds(m: Where, w: Uuid, n: EntityName) {
    w in m && n in m[w]
  }

  /** Every entity of the world is on at least one worker, with its data; nothing else is anywhere. */
  ghost predicate Faithful(world: World, m: Where) {
    && (forall n :: n in world ==> exists w :: Holds(m, w, n))
    && (forall w, n :: Holds(m, w, n) ==> n in world && DataOf(m[w][n]) == world[n])
  }

  ghost predicate Unique(m: Where) {
    forall v, w, n :: Holds(m, v, n) && Holds(m, w, n) ==> v == w
  }

  ghost predicate NoMoveAhead(m: Where, now: nat) {
    forall w, n :: Holds(m, w, n) && m[w][n].meta.lastMoved.Some? ==> m[w][n].meta.lastMoved.value <= now
  }

  /** Memory and archive of one worker share no name. */
  predicate Tidy(s: P.PartState) {
    s.archive.Some? ==> s.entities.Keys !! s.archive.value.Keys
  }

  ghost predicate AllTidy(parts: Parts) {
    forall w :: w in parts ==> Tidy(parts[w])
  }

  lemma GetStored(s: P.PartState, n: EntityName, now: nat)
    requires Tidy(s) && n in s.entities
    ensures var t := P.Get(s, n, now).0;
            Tidy(t) && t.entities.Keys == s.entities.Keys && t.archive == s.archive
            && t.entities[n] == s.entities[n].Accessed(now)
            && n in s.Stored() && s.Stored()[n] == s.entities[n]
            && t.Stored() == s.Stored()[n := s.entities[n].Accessed(now)]
  {
  }

  lemma AddStored(s: P.PartState, n: EntityName, e: Entity, model: seq<P.BehaviorModel>)
    requires Tidy(s) && n !in s.Stored()
    ensures var (t, r) := P.Add(s, n, e, model);
            Tidy(t) && t.Stored() == (if r.Success? then s.Stored()[n := e] else s.Stored())
            && n !in s.entities && (!s.config.createToArchive ==> r.Success?)
  {
    hide P.Spawned;
    var t := P.Add(s, n, e, model).0;
    if !s.config.createToArchive {
      assert t.archive == s.archive && t.entities == s.entities[n := e];
    } else if s.archive.Some? {
      assert t.archive.value == s.archive.value[n := e] && t.entities == s.entities;
    }
  }

  lemma RemoveStored(s: P.PartState, n: EntityName)
    requires Tidy(s) && n in s.entities
    ensures var (t, r) := P.Remove(s, n);
            Tidy(t) && r.Success? && t.archive == s.archive && t.entities.Keys == s.entities.Keys - {n}
            && n in s.Stored() && t.Stored() == s.Stored() - {n}
  {
  }

  lemma StoredKeys(parts: Parts)
    ensures StoredBy(parts).Keys == parts.Keys
  {
  }

  lemma StoredAt(parts: Parts, w: Uuid)
    requires w in parts && AllTidy(parts)
    ensures w in StoredBy(parts) && StoredBy(parts)[w] == parts[w].Stored() && Tidy(parts[w])
  {
  }

  lemma PutStored(parts: Parts, w: Uuid, s: P.PartState)
    ensures StoredBy(parts[w := s]) == StoredBy(parts)[w := s.Stored()]
    ensures AllTidy(parts) && Tidy(s) ==> AllTidy(parts[w := s])
  {
  }

  lemma AccessMoves(world: World, m: Where, w: Uuid, n: EntityName, e: Entity, now: nat)
    requires Faithful(world, m) && Holds(m, w, n) && e == m[w][n].Accessed(now)
    ensures Faithful(world, m[w := m[w][n := e]])
    ensures Unique(m) ==> Unique(m[w := m[w][n := e]])
    ensures forall t :: NoMoveAhead(m, t) ==> NoMoveAhead(m[w := m[w][n := e]], t)
  {
    var l := m[w := m[w][n := e]];
    assert forall v, x :: Holds(l, v, x) <==> Holds(m, v, x);
    forall x | x in world
      ensures exists v :: Holds(l, v, x)
    {
      var v :| Holds(m, v, x);
      assert Holds(l, v, x);
    }
    forall v, x | Holds(l, v, x)
      ensures x in world && DataOf(l[v][x]) == world[x] && l[v][x].meta.lastMoved == m[v][x].meta.lastMoved
    {
      assert Holds(m, v, x);
    }
  }

  lemma TakeMoves(world: World, m: Where, w: Uuid, v: Uuid, n: EntityName, e: Entity, now: nat)
    requires Faithful(world, m) && Unique(m) && Holds(m, w, n) && v in m && v != w && DataOf(e) == DataOf(m[w][n])
    requires NoMoveAhead(m, now)
    ensures n !in m[v]
    ensures var l := m[v := m[v][n := e.Moved(now)]];
            Faithful(world, l) && NoMoveAhead(l, now)
            && (forall u :: Holds(l, u, n) <==> u == v || u == w)
            && (forall u, x :: x != n ==> (Holds(l, u, x) <==> Holds(m, u, x)))
  {
    assert !Holds(m, v, n);
    var l := m[v := m[v][n := e.Moved(now)]];
    assert forall u, x :: Holds(l, u, x) <==> Holds(m, u, x) || (u == v && x == n);
  }

  /** Removing the copy at `w`: nothing is lost if another worker has one. */
  lemma RemoveMoves(world: World, m: Where, w: Uuid, n: EntityName)
    requires Faithful(world, m) && Holds(m, w, n)
    ensures var l := m[w := m[w] - {n}];
            (forall u, x :: Holds(l, u, x) <==> Holds(m, u, x) && !(u == w && x == n))
            && (if exists u :: u != w && Holds(m, u, n) then Faithful(world, l) else Faithful(world - {n}, l))
            && (forall t :: NoMoveAhead(m, t) ==> NoMoveAhead(l, t))
  {
    var l := m[w := m[w] - {n}];
    assert forall u, x :: Holds(l, u, x) <==> Holds(m, u, x) && !(u == w && x == n);
    forall x | x in world && (x != n || exists u :: u != w && Holds(m, u, n))
      ensures exists u :: Holds(l, u, x)
    {
      if x == n {
        var u :| u != w && Holds(m, u, n);
        assert Holds(l, u, x);
      } else {
        var u :| Holds(m, u, x);
        assert Holds(l, u, x);
      }
    }
  }

  // ----- what a step leaves alone -----

  predicate InMemory(parts: Parts, v: Uuid, n: EntityName) {
    v in parts && n in parts[v].entities
  }

  /** The same workers, configured alike; archives only grow where workers create to them. */
  ghost predicate SameSetup(a: Parts, b: Parts) {
    && a.Keys == b.Keys
    && forall v :: v in a ==>
         b[v].config == a[v].config && (!a[v].config.createToArchive ==> b[v].archive == a[v].archive)
  }

  /** Between `a` and `b` only the named entities of worker `w` may have left memory or changed.
      Entities may have come anywhere. */
  ghost predicate Touched(a: Parts, b: Parts, w: Uuid, names: set<EntityName>) {
    && SameSetup(a, b)
    && forall v, x :: InMemory(a, v, x) && !(v == w && x in names) ==>
         InMemory(b, v, x) && b[v].entities[x] == a[v].entities[x]
  }

  /** The same, of the entities of several workers. */
  ghost predicate TouchedAt(a: Parts, b: Parts, ws: set<Uuid>) {
    && SameSetup(a, b)
    && forall v, x :: InMemory(a, v, x) && v !in ws ==> InMemory(b, v, x) && b[v].entities[x] == a[v].entities[x]
  }

  lemma TouchedNot(a: Parts, w: Uuid)
    ensures Touched(a, a, w, {}) && TouchedAt(a, a, {})
  {
  }

  lemma TouchedMore(a: Parts, w: Uuid, names: set<EntityName>)
    requires Touched(a, a, w, {})
    ensures Touched(a, a, w, names)
  {
  }

  lemma TouchedBoth(a: Parts, b: Parts, c: Parts, w: Uuid, x: set<EntityName>, y: set<EntityName>)
    requires Touched(a, b, w, x) && Touched(b, c, w, y)
    ensures Touched(a, c, w, x + y)
  {
    forall v, n | InMemory(a, v, n) && !(v == w && n in x + y)
      ensures InMemory(c, v, n) && c[v].entities[n] == a[v].entities[n]
    {
      assert InMemory(b, v, n);
    }
  }

  /** The names in front of the i-th. */
  ghost function Before(names: seq<EntityName>, i: nat): set<EntityName>
    requires i <= |names|
  {
    ToSet(names[..i])
  }

  lemma BeforeAll(names: seq<EntityName>)
    ensures Before(names, 0) == {} && Before(names, |names|) == ToSet(names)
  {
    assert names[..|names|] == names;
  }

  /** The next name of a list of what was in memory is still there, untouched. */
  lemma NextName(a: Parts, b: Parts, w: Uuid, names: seq<EntityName>, m: nat, i: nat)
    requires i < |names| && m <= |names| && w in a && Touched(a, b, w, Before(names, i))
    requires ToSet(names[..m]) == a[w].entities.Keys && NoDup(names[..m])
    ensures Before(names, i + 1) == Before(names, i) + {names[i]}
    ensures i < m ==> names[i] in a[w].entities && names[i] in b[w].entities
                      && b[w].entities[names[i]] == a[w].entities[names[i]]
  {
    var n := names[i];
    assert names[..i + 1] == names[..i] + [n];
    ToSetConcat(names[..i], [n]);
    assert ToSet([n]) == {n};
    if i < m {
      assert names[..m][i] == n && n in ToSet(names[..m]);
      forall j | 0 <= j < i
        ensures names[j] != n
      {
        assert names[..m][j] == names[j];
      }
      assert n !in Before(names, i);
      assert InMemory(a, w, n);
    }
  }

  lemma TouchedAtBoth(a: Parts, b: Parts, c: Parts, ws: set<Uuid>, w: Uuid, names: set<EntityName>)
    requires TouchedAt(a, b, ws) && Touched(b, c, w, names)
    ensures TouchedAt(a, c, ws + {w})
  {
    forall v, n | InMemory(a, v, n) && v !in ws + {w}
      ensures InMemory(c, v, n) && c[v].entities[n] == a[v].entities[n]
    {
      assert InMemory(b, v, n);
    }
  }

  lemma GetTouches(parts: Parts, w: Uuid, n: EntityName, now: nat)
    requires w in parts
    ensures Touched(parts, parts[w := P.Get(parts[w], n, now).0], w, {n})
  {
  }

  lemma GetNothing(parts: Parts, w: Uuid, n: EntityName, now: nat)
    requires w in parts && n !in parts[w].entities
    ensures parts[w := P.Get(parts[w], n, now).0] == parts
  {
  }

  lemma AddTouches(parts: Parts, v: Uuid, n: EntityName, e: Entity, model: seq<P.BehaviorModel>, w: Uuid)
    requires v in parts && n !in parts[v].entities
    ensures Touched(parts, parts[v := P.Add(parts[v], n, e, model).0], w, {n})
  {
    hide P.Spawned;
  }

  lemma RemoveTouches(parts: Parts, w: Uuid, n: EntityName)
    requires w in parts && n in parts[w].entities
    ensures Touched(parts, parts[w := P.Remove(parts[w], n).0], w, {n})
  {
  }

  /** A worker that can store what it is sent: it has a model and creates to memory. */
  predicate Fit(parts: Parts, models: map<Uuid, seq<P.BehaviorModel>>, v: Uuid) {
    v in parts && v in models && !parts[v].config.createToArchive
  }

  /** Every worker that entities may be sent to can store them. */
  ghost predicate Ready(parts: Parts, models: map<Uuid, seq<P.BehaviorModel>>, peers: map<Uuid, set<Uuid>>,
                        registered: set<Uuid>) {
    && (forall v :: v in registered ==> Fit(parts, models, v))
    && (forall w, v :: w in peers && v in peers[w] ==> Fit(parts, models, v))
  }

  predicate NothingArchived(s: P.PartState) {
    s.archive.None? || s.archive.value == map[]
  }

  lemma ReadyKept(a: Parts, b: Parts, models: map<Uuid, seq<P.BehaviorModel>>, peers: map<Uuid, set<Uuid>>,
                  registered: set<Uuid>)
    requires SameSetup(a, b) && Ready(a, models, peers, registered)
    ensures Ready(b, models, peers, registered)
    ensures forall v :: v in registered ==> v in a && v in b && b[v].archive == a[v].archive
  {
    hide SameSetup;
    forall v | Fit(a, models, v)
      ensures Fit(b, models, v) && b[v].archive == a[v].archive
    {
      FitKept(a, b, models, v);
    }
  }

  lemma FitKept(a: Parts, b: Parts, models: map<Uuid, seq<P.BehaviorModel>>, v: Uuid)
    requires SameSetup(a, b) && Fit(a, models, v)
    ensures Fit(b, models, v) && b[v].archive == a[v].archive
  {
  }

  lemma TouchedSetup(a: Parts, b: Parts, w: Uuid, names: set<EntityName>)
    requires Touched(a, b, w, names)
    ensures SameSetup(a, b)
  {
  }

  // ----- the cluster -----

  datatype Move = Move(name: EntityName, from: Uuid, to: Uuid)

  /** The partitions at one moment, and the entities that were lost by then. */
  datatype Moment = Moment(parts: Parts, lost: set<EntityName>)

  datatype Outcome = Rested | Left

  datatype MoveError = NotInitialized | NoSuchEntity | NoWorkerLeft | Storing(error: P.PartError)

  ghost predicate DistinctNames(moves: seq<Move>) {
    forall i, j :: 0 <= i < j < |moves| ==> moves[i].name != moves[j].name
  }

  /** Each of the moved entities carries a stamp no older than `start`. */
  ghost predicate Stamped(moves: seq<Move>, m: Where, start: nat) {
    forall v, w :: v in moves && Holds(m, w, v.name)
      ==> m[w][v.name].meta.lastMoved.Some? && start <= m[w][v.name].meta.lastMoved.value
  }

  /** The entity was moved since move number `k`, or is lost. */
  ghost predicate Gone(moves: seq<Move>, lost: set<EntityName>, n: EntityName, k: nat) {
    n in lost || exists i :: k <= i < |moves| && moves[i].name == n
  }

  lemma IsGone(moves: seq<Move>, lost: set<EntityName>, n: EntityName, k: nat, moved: bool)
    requires if moved then |moves| > k && moves[|moves| - 1].name == n else n in lost
    ensures Gone(moves, lost, n, k)
  {
  }

  lemma GoneStays(a: seq<Move>, b: seq<Move>, x: set<EntityName>, y: set<EntityName>, n: EntityName, k: nat)
    requires Gone(a, x, n, k) && a <= b && x <= y
    ensures Gone(b, y, n, k)
  {
    if n !in x {
      var i :| k <= i < |a| && a[i].name == n;
      assert b[i] == a[i];
    }
  }

  /** Each of the named entities was resting at the time, or has gone. */
  ghost predicate Accounted(entities: Entities, names: set<EntityName>, cooldown: Option<nat>, clock: nat,
                            moves: seq<Move>, lost: set<EntityName>, k: nat) {
    forall n :: n in names ==> n in entities && (Gone(moves, lost, n, k) || Resting(entities[n], cooldown, clock))
  }

  /** One entity's turn, after those of others. */
  lemma TurnTaken(a: Parts, before: Parts, b: Parts, w: Uuid, names: set<EntityName>, n: EntityName,
                  cooldown: Option<nat>,
                  start: nat, clock: nat, gone: seq<Move>, missing: set<EntityName>,
                  moves: seq<Move>, lost: set<EntityName>, k: nat)
    requires w in a && Touched(a, before, w, names) && Touched(before, b, w, {n})
    requires Accounted(a[w].entities, names, cooldown, start, gone, missing, k)
    requires gone <= moves && missing <= lost && start <= clock
    requires n in a[w].entities && w in before && n in before[w].entities && before[w].entities[n] == a[w].entities[n]
    requires Gone(moves, lost, n, k) || Resting(before[w].entities[n], cooldown, clock)
    ensures Touched(a, b, w, names + {n})
    ensures Accounted(a[w].entities, names + {n}, cooldown, start, moves, lost, k)
  {
    hide Gone, Resting, Touched;
    TouchedBoth(a, before, b, w, names, {n});
    forall x | x in names && Gone(gone, missing, x, k)
      ensures Gone(moves, lost, x, k)
    {
      GoneStays(gone, moves, missing, lost, x, k);
    }
    if Resting(a[w].entities[n], cooldown, clock) {
      RestingEarlier(a[w].entities[n], a[w].entities[n], cooldown, start, clock);
    }
  }

  lemma AllRestingMeans(entities: Entities, cooldown: Option<nat>, now: nat)
    ensures forall n :: n in entities ==>
              (Resting(entities[n], cooldown, now)
               <==> var moved := entities[n].meta.lastMoved;
                    cooldown.Some? && moved.Some? && now <= moved.value + cooldown.value)
  {
  }

  /** Of the entities that the workers `ws` had in memory, each was resting at the time, or has gone. */
  ghost predicate Settled(a: Parts, ws: set<Uuid>, cooldown: map<Uuid, Option<nat>>, clock: nat,
                          moves: seq<Move>, lost: set<EntityName>, k: nat) {
    forall w, n :: w in ws && InMemory(a, w, n) ==>
      Gone(moves, lost, n, k) || (w in cooldown && Resting(a[w].entities[n], cooldown[w], clock))
  }

  lemma SettledMeans(a: Parts, ws: set<Uuid>, cooldown: map<Uuid, Option<nat>>, clock: nat,
                     moves: seq<Move>, lost: set<EntityName>, k: nat)
    requires Settled(a, ws, cooldown, clock, moves, lost, k)
    ensures forall w, n :: w in ws && InMemory(a, w, n) ==>
              || Gone(moves, lost, n, k)
              || var moved := a[w].entities[n].meta.lastMoved;
                 w in cooldown && cooldown[w].Some? && moved.Some? && clock <= moved.value + cooldown[w].value
  {
  }

  lemma NothingSettled(a: Parts, cooldown: map<Uuid, Option<nat>>, clock: nat, moves: seq<Move>,
                       lost: set<EntityName>, k: nat)
    ensures Settled(a, {}, cooldown, clock, moves, lost, k)
  {
  }

  lemma SettledMore(a: Parts, b: Parts, ws: set<Uuid>, w: Uuid, cooldown: map<Uuid, Option<nat>>, start: nat,
                    clock: nat,
                    gone: seq<Move>, missing: set<EntityName>, moves: seq<Move>, lost: set<EntityName>, k: nat)
    requires TouchedAt(a, b, ws) && w !in ws && start <= clock && gone <= moves && missing <= lost
    requires Settled(a, ws, cooldown, start, gone, missing, k)
    requires w in b && w in cooldown
    requires forall n :: n in b[w].entities ==>
               Gone(moves, lost, n, k) || Resting(b[w].entities[n], cooldown[w], clock)
    ensures Settled(a, ws + {w}, cooldown, start, moves, lost, k)
  {
    hide Gone, Resting, SameSetup;
    forall v, n | v in ws + {w} && InMemory(a, v, n)
      ensures Gone(moves, lost, n, k) || (v in cooldown && Resting(a[v].entities[n], cooldown[v], start))
    {
      if v == w {
        assert InMemory(b, w, n);
        if Resting(b[w].entities[n], cooldown[w], clock) {
          RestingEarlier(b[w].entities[n], a[w].entities[n], cooldown[w], start, clock);
        }
      } else if Gone(gone, missing, n, k) {
        GoneStays(gone, moves, missing, lost, n, k);
      }
    }
  }

  lemma SameArchived(s: P.PartState, t: P.PartState)
    requires s.archive == t.archive
    ensures NothingArchived(s) <==> NothingArchived(t)
  {
  }

  lemma TouchedAtSetup(a: Parts, b: Parts, ws: set<Uuid>)
    requires TouchedAt(a, b, ws)
    ensures SameSetup(a, b)
  {
  }

  /** The cluster at one moment of a pass. */
  datatype Snapshot = Snapshot(parts: Parts, now: nat, moves: seq<Move>, lost: set<EntityName>)

  /** What one entity's turn in the migration of `w` does. */
  ghost predicate OneTurn(a: Snapshot, b: Snapshot, w: Uuid, n: EntityName, cooldown: Option<nat>, linked: bool,
                          start: nat, k: nat, r: Result<Outcome, MoveError>) {
    && w in a.parts && w in b.parts && k <= |a.moves| && a.now <= b.now && a.moves <= b.moves && a.lost <= b.lost
    && Touched(a.parts, b.parts, w, {n}) && b.parts[w].entities.Keys <= a.parts[w].entities.Keys
    && (linked ==> b.lost == a.lost)
    && (r.Success? ==>
          && n in a.parts[w].entities && (cooldown.None? ==> n !in b.parts[w].entities)
          && (Gone(b.moves, b.lost, n, k) || Resting(a.parts[w].entities[n], cooldown, a.now)))
    && (cooldown.Some? && b.now <= start + cooldown.value && DistinctNames(a.moves[k..])
        ==> DistinctNames(b.moves[k..]))
  }

  /** What the turns of several entities have done. */
  ghost predicate Turns(a: Snapshot, b: Snapshot, w: Uuid, names: set<EntityName>, cooldown: Option<nat>, linked: bool,
                        start: nat, k: nat) {
    && w in a.parts && w in b.parts && k <= |a.moves| && a.now <= b.now && a.moves <= b.moves && a.lost <= b.lost
    && Touched(a.parts, b.parts, w, names) && b.parts[w].entities.Keys <= a.parts[w].entities.Keys
    && (linked ==> b.lost == a.lost)
    && Accounted(a.parts[w].entities, names, cooldown, a.now, b.moves, b.lost, k)
    && (cooldown.None? ==> names !! b.parts[w].entities.Keys)
    && (cooldown.Some? && b.now <= start + cooldown.value && DistinctNames(a.moves[k..])
        ==> DistinctNames(b.moves[k..]))
  }

  lemma NoTurns(a: Snapshot, w: Uuid, cooldown: Option<nat>, linked: bool, start: nat, k: nat)
    requires w in a.parts && k <= |a.moves|
    ensures Turns(a, a, w, {}, cooldown, linked, start, k)
  {
    TouchedNot(a.parts, w);
  }

  /** The next turn; a failed one ends the migration. */
  lemma NextTurn(a: Snapshot, b: Snapshot, c: Snapshot, w: Uuid, names: set<EntityName>, n: EntityName,
                 cooldown: Option<nat>, linked: bool, start: nat, k: nat, r: Result<Outcome, MoveError>)
    requires Turns(a, b, w, names, cooldown, linked, start, k) && OneTurn(b, c, w, n, cooldown, linked, start, k, r)
    requires n in b.parts[w].entities ==> n in a.parts[w].entities && b.parts[w].entities[n] == a.parts[w].entities[n]
    ensures r.Success? ==> n in b.parts[w].entities && Turns(a, c, w, names + {n}, cooldown, linked, start, k)
    ensures r.Failure? ==> AfterFailure(a, c, w, names + {n}, cooldown, linked, start, k)
  {
    hide DistinctNames, Gone, Resting, Touched, Accounted;
    TouchedBoth(a.parts, b.parts, c.parts, w, names, {n});
    if r.Success? {
      TurnTaken(a.parts, b.parts, c.parts, w, names, n, cooldown, a.now, b.now, b.moves, b.lost, c.moves, c.lost, k);
    }
  }

  /** Before the next name's turn: everybody is as ready as before, and the entity is as it was. */
  lemma TurnsMean(a: Snapshot, b: Snapshot, w: Uuid, names: seq<EntityName>, m: nat, i: nat, cooldown: Option<nat>,
                  linked: bool, start: nat, k: nat, models: map<Uuid, seq<P.BehaviorModel>>,
                  peers: map<Uuid, set<Uuid>>, registered: set<Uuid>)
    requires i < |names| && i <= m <= |names| && Turns(a, b, w, Before(names, i), cooldown, linked, start, k)
    requires ToSet(names[..m]) == a.parts[w].entities.Keys && NoDup(names[..m])
    requires forall j :: m <= j < |names| ==> names[j] !in a.parts[w].entities
    ensures Before(names, i + 1) == Before(names, i) + {names[i]}
    ensures Ready(a.parts, models, peers, registered) ==> Ready(b.parts, models, peers, registered)
    ensures if i < m then names[i] in a.parts[w].entities && names[i] in b.parts[w].entities
                          && b.parts[w].entities[names[i]] == a.parts[w].entities[names[i]]
            else names[i] !in a.parts[w].entities && names[i] !in b.parts[w].entities
  {
    hide DistinctNames, Gone, Resting, Touched, Accounted, Ready, Before;
    NextName(a.parts, b.parts, w, names, m, i);
    if Ready(a.parts, models, peers, registered) {
      TouchedSetup(a.parts, b.parts, w, Before(names, i));
      ReadyKept(a.parts, b.parts, models, peers, registered);
    }
  }

  ghost predicate AfterFailure(a: Snapshot, b: Snapshot, w: Uuid, names: set<EntityName>, cooldown: Option<nat>,
                               linked: bool, start: nat, k: nat) {
    && k <= |a.moves| && a.now <= b.now && a.moves <= b.moves && a.lost <= b.lost
    && Touched(a.parts, b.parts, w, names)
    && (linked ==> b.lost == a.lost)
    && (cooldown.Some? && b.now <= start + cooldown.value && DistinctNames(a.moves[k..])
        ==> DistinctNames(b.moves[k..]))
  }

  ghost predicate NeverBack(moves: seq<Move>) {
    forall v :: v in moves ==> v.from != v.to
  }

  /** Not moved again within the cooldown. */
  predicate Resting(e: Entity, cooldown: Option<nat>, now: nat) {
    cooldown.Some? && e.meta.lastMoved.Some? && now <= e.meta.lastMoved.value + cooldown.value
  }

  lemma RestingEarlier(e: Entity, f: Entity, cooldown: Option<nat>, before: nat, now: nat)
    requires Resting(e, cooldown, now) && before <= now && f.meta.lastMoved == e.meta.lastMoved
    ensures Resting(f, cooldown, before)
  {
  }

  lemma RestingMeans(e: Entity, cooldown: Option<nat>, now: nat)
    ensures Resting(e, cooldown, now)
       <==> cooldown.Some? && e.meta.lastMoved.Some? && now <= e.meta.lastMoved.value + cooldown.value
  {
  }

  lemma StampsAfterAccess(moves: seq<Move>, m: Where, w: Uuid, n: EntityName, e: Entity, start: nat)
    requires Stamped(moves, m, start) && Holds(m, w, n) && e.meta.lastMoved == m[w][n].meta.lastMoved
    ensures Stamped(moves, m[w := m[w][n := e]], start)
  {
    var l := m[w := m[w][n := e]];
    assert forall v, x :: Holds(l, v, x) <==> Holds(m, v, x);
  }

  lemma NothingStamped(m: Where, start: nat)
    ensures Stamped([], m, start) && DistinctNames([])
  {
  }

  /** The copy at `v` and the removal at `w`, together. */
  lemma MovedAlong(moves: seq<Move>, m: Where, w: Uuid, v: Uuid, n: EntityName, e: Entity, start: nat, now: nat)
    requires Stamped(moves, m, start) && start <= now && Unique(m) && Holds(m, w, n) && v in m && v != w
    ensures var l := m[v := m[v][n := e.Moved(now)]];
            w in l && Holds(l, v, n) && Unique(l[w := l[w] - {n}])
            && Stamped(moves + [Move(n, w, v)], l[w := l[w] - {n}], start)
  {
    var l := m[v := m[v][n := e.Moved(now)]];
    var z := l[w := l[w] - {n}];
    assert forall u, x :: Holds(l, u, x) <==> Holds(m, u, x) || (u == v && x == n);
    assert forall u, x :: Holds(z, u, x) <==> Holds(l, u, x) && !(u == w && x == n);
    assert forall u :: Holds(z, u, n) ==> u == v;
    forall mv: Move, u: Uuid | mv in moves + [Move(n, w, v)] && Holds(z, u, mv.name)
      ensures z[u][mv.name].meta.lastMoved.Some? && start <= z[u][mv.name].meta.lastMoved.value
    {
      if mv.name != n {
        assert mv in moves && Holds(m, u, mv.name);
      }
    }
  }

  /** Removed without a copy. */
  lemma GoneFrom(moves: seq<Move>, m: Where, w: Uuid, n: EntityName, start: nat)
    requires Stamped(moves, m, start) && Unique(m) && Holds(m, w, n)
    ensures Unique(m[w := m[w] - {n}]) && Stamped(moves, m[w := m[w] - {n}], start)
    ensures !exists u :: u != w && Holds(m, u, n)
  {
    var z := m[w := m[w] - {n}];
    assert forall u, x :: Holds(z, u, x) ==> Holds(m, u, x);
  }

  /** An entity not resting was not moved since `start`, if the cooldown covers the time since. */
  lemma FreshMove(moves: seq<Move>, m: Where, w: Uuid, v: Uuid, n: EntityName, cooldown: Option<nat>, start: nat,
                  now: nat)
    requires Stamped(moves, m, start) && Holds(m, w, n) && !Resting(m[w][n], cooldown, now)
    requires cooldown.Some? && now <= start + cooldown.value && DistinctNames(moves)
    ensures DistinctNames(moves + [Move(n, w, v)])
  {
    forall i | 0 <= i < |moves|
      ensures moves[i].name != n
    {
      assert moves[i] in moves;
    }
  }

  lemma HopGoesThrough(c: Context, w: Uuid, now: nat)
    ensures c.RegisterHop(Worker(w), now).WentThroughWorker(w)
    ensures forall v :: v != w ==> c.RegisterHop(Worker(w), now).WentThroughWorker(v) == c.WentThroughWorker(v)
  {
    var d := c.RegisterHop(Worker(w), now);
    var h := d.hops[|c.hops|];
    ObserversConcat(c.hops, [h]);
    assert h in [h];
    assert Observers([h]) == {Worker(w)};
  }

  class Cluster {
    var parts: Parts
    var models: map<Uuid, seq<P.BehaviorModel>>
    var cooldown: map<Uuid, Option<nat>>
    /** Other workers a worker is linked to; workers the leader knows; workers connected to the leader. */
    var peers: map<Uuid, set<Uuid>>
    var registered: set<Uuid>
    var connected: set<Uuid>
    var now: nat
    /** The entities there were at the start, those lost since, all moments and all moves so far. */
    ghost var world: World
    ghost var lost: set<EntityName>
    ghost var history: seq<Moment>
    ghost var moves: seq<Move>

    ghost function Stores(): Where
      reads this`parts
    {
      StoredBy(parts)
    }

    lemma StoresAre()
      ensures Stores() == StoredBy(parts)
    {
    }

    /** No entity is missing from any moment, unless it was lost by then. */
    ghost predicate NeverMissing()
      reads this
    {
      && history != [] && history[|history| - 1] == Moment(parts, lost)
      && forall h :: h in history ==> Faithful(world - h.lost, StoredBy(h.parts))
    }

    ghost predicate Base()
      reads this
    {
      && AllTidy(parts) && cooldown.Keys == parts.Keys
      && (forall w :: w in peers ==> w !in peers[w])
      && Faithful(world - lost, Stores()) && NoMoveAhead(Stores(), now)
      && NeverMissing() && NeverBack(moves)
    }

    /** Every entity that is not lost is on exactly one worker. */
    ghost predicate Valid()
      reads this
    {
      Base() && Unique(Stores())
    }

    lemma OnExactlyOneWorker(n: EntityName)
      requires Valid() && n in world && n !in lost
      ensures exists w ::
                && Holds(Stores(), w, n) && DataOf(Stores()[w][n]) == world[n]
                && forall v :: Holds(Stores(), v, n) ==> v == w
    {
      assert n in world - lost;
      var w :| Holds(Stores(), w, n);
      assert forall v :: Holds(Stores(), v, n) ==> v == w;
    }

    /** The worker has somewhere to send entities. */
    predicate Linked(w: Uuid)
      reads this`connected, this`peers
    {
      w in connected || (w in peers && peers[w] != {})
    }

    ghost predicate AllLinked()
      reads this`registered, this`connected, this`peers
    {
      forall w :: w in registered ==> Linked(w)
    }

    /** Every cooldown is at least this long. */
    ghost predicate Covers(seconds: int)
      reads this`registered, this`cooldown
    {
      forall w :: w in registered && w in cooldown ==> cooldown[w].Some? && seconds <= cooldown[w].value
    }

    /** If the worker relies on the leader, the leader knows another worker that the context does not
        list. */
    ghost predicate Served(w: Uuid, ctx: Context)
      reads this`registered, this`connected, this`peers
    {
      || (w in peers && peers[w] != {}) || w !in connected
      || exists v :: v in registered && v != w && !ctx.WentThroughWorker(v)
    }

    lemma ServedAfterHop(w: Uuid, received: Context, at: nat)
      requires Served(w, received)
      ensures Served(w, received.RegisterHop(Worker(w), at))
    {
      hide Context.RegisterHop, Context.WentThroughWorker;
      HopGoesThrough(received, w, at);
    }

    method ReadClock()
      requires Valid()
      modifies this`now
      ensures old(now) <= now && Valid()
    {
      var later: nat :| now <= later;
      assert NoMoveAhead(Stores(), later);
      now := later;
    }

    /** The source's manager hands out a copy, which counts as an access. */
    method Fetch(w: Uuid, n: EntityName) returns (r: Result<Entity, MoveError>)
      requires Valid() && w in parts
      modifies this`parts, this`history
      ensures Valid() && parts.Keys == old(parts).Keys && parts[w].archive == old(parts)[w].archive
      ensures cooldown.Keys == parts.Keys && Touched(old(parts), parts, w, {n})
      ensures r.Success? <==> n in old(parts)[w].entities
      ensures r.Success? ==> r.value.meta.lastMoved == old(parts)[w].entities[n].meta.lastMoved
      ensures r.Failure? ==> parts == old(parts)
      ensures r.Success? ==>
                && n in parts[w].entities && parts[w].entities.Keys == old(parts)[w].entities.Keys
                && Holds(old(Stores()), w, n) && Holds(Stores(), w, n) && Unique(Stores()) && r.value == Stores()[w][n]
                && r.value.SameData(old(Stores())[w][n]) && r.value.meta.lastMoved == old(Stores())[w][n].meta.lastMoved
                && Stores() == old(Stores())[w := old(Stores())[w][n := r.value]]
    {
      hide Faithful, Unique, NoMoveAhead, AllTidy, Tidy, StoredBy, P.Get, P.Add, P.Remove, P.PartState.Stored;
      hide Touched;
      GetTouches(parts, w, n, now);
      if n !in parts[w].entities {
        GetNothing(parts, w, n, now);
        return Failure(NoSuchEntity);
      }
      StoredAt(parts, w);
      GetStored(parts[w], n, now);
      var fetched := P.Get(parts[w], n, now);
      PutStored(parts, w, fetched.0);
      AccessMoves(world - lost, Stores(), w, n, fetched.0.entities[n], now);
      parts := parts[w := fetched.0];
      history := history + [Moment(parts, lost)];
      return Success(fetched.0.entities[n]);
    }

    /** A worker stamps an entity and stores it. */
    method Take(v: Uuid, n: EntityName, e: Entity, ghost from: Uuid) returns (r: Result<(), MoveError>)
      requires Valid() && v != from && Holds(Stores(), from, n) && e.SameData(Stores()[from][n])
      modifies this`parts, this`history, this`moves, this`now
      ensures Base() && parts.Keys == old(parts).Keys && parts[from] == old(parts)[from] && old(now) <= now
      ensures r.Success? ==>
                && v in parts && moves == old(moves) + [Move(n, from, v)]
                && Stores() == old(Stores())[v := old(Stores())[v][n := e.Moved(now)]]
      ensures r.Failure? ==> moves == old(moves) && Stores() == old(Stores())
      ensures Touched(old(parts), parts, from, {n})
      ensures Fit(old(parts), models, v) ==> r.Success?
    {
      hide Faithful, Unique, NoMoveAhead, AllTidy, Tidy, StoredBy, P.Get, P.Add, P.Remove, P.PartState.Stored;
      hide Touched;
      TouchedNot(parts, from);
      TouchedMore(parts, from, {n});
      ReadClock();
      if v !in parts || v !in models { return Failure(NotInitialized); }
      StoredAt(parts, v);
      TakeMoves(world - lost, Stores(), from, v, n, e, now);
      AddStored(parts[v], n, e.Moved(now), models[v]);
      var added := P.Add(parts[v], n, e.Moved(now), models[v]);
      PutStored(parts, v, added.0);
      AddTouches(parts, v, n, e.Moved(now), models[v], from);
      parts := parts[v := added.0];
      history := history + [Moment(parts, lost)];
      if added.1.Failure? {
        assert Stores() == old(Stores());
        return Failure(Storing(added.1.error));
      }
      moves := moves + [Move(n, from, v)];
      return Success(());
    }

    /** The leader passes an entity on to any worker the context does not list. */
    method Proxy(n: EntityName, e: Entity, ctx: Context, ghost from: Uuid) returns (r: Result<(), MoveError>)
      requires Valid() && ctx.WentThroughWorker(from) && Holds(Stores(), from, n) && e.SameData(Stores()[from][n])
      modifies this`parts, this`history, this`moves, this`now
      ensures Base() && parts.Keys == old(parts).Keys && parts[from] == old(parts)[from] && old(now) <= now
      ensures r.Success? ==>
                exists v ::
                  && v in parts && v in registered && !ctx.WentThroughWorker(v)
                  && moves == old(moves) + [Move(n, from, v)]
                  && Stores() == old(Stores())[v := old(Stores())[v][n := e.Moved(now)]]
      ensures r.Failure? ==> moves == old(moves) && Stores() == old(Stores())
      ensures Touched(old(parts), parts, from, {n})
      ensures Ready(old(parts), models, peers, registered)
              && (exists v :: v in registered && !ctx.WentThroughWorker(v))
          ==> r.Success?
    {
      hide Faithful, Unique, NoMoveAhead, AllTidy, StoredBy, Touched, Fit, Context.WentThroughWorker;
      TouchedNot(parts, from);
      TouchedMore(parts, from, {n});
      var workers := set v | v in registered && !ctx.WentThroughWorker(v);
      if workers == {} {
        assert forall v :: v in registered ==> v in workers || ctx.WentThroughWorker(v);
        return Failure(NoWorkerLeft);
      }
      var v :| v in workers;
      r := Take(v, n, e, from);
    }

    method Drop(w: Uuid, n: EntityName)
      requires Base() && w in parts && n in parts[w].entities
      modifies this`parts, this`history, this`lost
      ensures Base() && parts.Keys == old(parts).Keys && parts[w].archive == old(parts)[w].archive
      ensures parts[w].entities.Keys == old(parts)[w].entities.Keys - {n}
      ensures Stores() == old(Stores())[w := old(Stores())[w] - {n}]
      ensures Unique(Stores()) ==> Valid()
      ensures Touched(old(parts), parts, w, {n})
      ensures lost == old(lost) + if exists u :: u != w && Holds(old(Stores()), u, n) then {} else {n}
    {
      hide Faithful, Unique, NoMoveAhead, AllTidy, Tidy, StoredBy, P.Get, P.Add, P.Remove, P.PartState.Stored;
      hide Touched;
      RemoveTouches(parts, w, n);
      StoredAt(parts, w);
      RemoveStored(parts[w], n);
      var removed := P.Remove(parts[w], n);
      PutStored(parts, w, removed.0);
      RemoveMoves(world - lost, Stores(), w, n);
      if !exists u :: u != w && Holds(Stores(), u, n) {
        assert world - (lost + {n}) == world - lost - {n};
        lost := lost + {n};
      }
      parts := parts[w := removed.0];
      history := history + [Moment(parts, lost)];
    }

    /** The copy goes to a linked worker, else through the leader, else nowhere. */
    method Send(w: Uuid, n: EntityName, e: Entity, ctx: Context)
      returns (r: Result<(), MoveError>, ghost to: Option<Uuid>)
      requires Valid() && ctx.WentThroughWorker(w) && Holds(Stores(), w, n) && e == Stores()[w][n]
      modifies this`parts, this`history, this`moves, this`now
      ensures Base() && parts.Keys == old(parts).Keys && parts[w] == old(parts)[w] && old(now) <= now
      ensures r.Success? ==> to.Some? == Linked(w)
      ensures r.Failure? ==> Valid()
      ensures if r.Success? && to.Some?
              then to.value in parts && to.value != w && moves == old(moves) + [Move(n, w, to.value)]
                   && Stores() == old(Stores())[to.value := old(Stores())[to.value][n := e.Moved(now)]]
              else moves == old(moves) && Stores() == old(Stores())
      ensures Touched(old(parts), parts, w, {n})
      ensures Ready(old(parts), models, peers, registered) && Served(w, ctx) ==> r.Success?
    {
      hide Faithful, Unique, NoMoveAhead, AllTidy, StoredBy, Touched, Fit, Context.WentThroughWorker;
      TouchedNot(parts, w);
      TouchedMore(parts, w, {n});
      to := None;
      if w !in peers || peers[w] == {} {
        if w in connected {
          r := Proxy(n, e, ctx, w);
          if r.Success? { to := Some(moves[|moves| - 1].to); }
        } else {
          r := Success(());
        }
      } else {
        var v :| v in peers[w];
        r := Take(v, n, e, w);
        to := Some(v);
      }
    }

    /** An entity that does not rest is sent, and then removed here. */
    method Leave(w: Uuid, n: EntityName, e: Entity, ctx: Context, ghost start: nat, ghost k: nat)
      returns (r: Result<(), MoveError>)
      requires Valid() && w in parts && n in parts[w].entities && ctx.WentThroughWorker(w)
      requires Holds(Stores(), w, n) && e == Stores()[w][n] && w in cooldown && !Resting(e, cooldown[w], now)
      requires k <= |moves| && start <= now && Stamped(moves[k..], Stores(), start)
      modifies this`parts, this`history, this`moves, this`now, this`lost
      ensures Valid() && parts.Keys == old(parts).Keys && old(now) <= now
      ensures parts[w].archive == old(parts)[w].archive
      ensures parts[w].entities.Keys == old(parts)[w].entities.Keys - if r.Success? then {n} else {}
      ensures lost == old(lost) + if r.Success? && !Linked(w) then {n} else {}
      ensures old(moves) <= moves && Stamped(moves[k..], Stores(), start)
      ensures cooldown[w].Some? && old(now) <= start + cooldown[w].value && DistinctNames(old(moves)[k..])
          ==> DistinctNames(moves[k..])
      ensures Touched(old(parts), parts, w, {n})
      ensures Ready(old(parts), models, peers, registered) && Served(w, ctx) ==> r.Success?
      ensures r.Success? ==> Gone(moves, lost, n, k)
    {
      hide *;
      ghost var m, before := Stores(), moves[k..];
      assert m.Keys == parts.Keys && Unique(m) by { StoredKeys(parts); StoresAre(); StoresUnique(); }
      var sent;
      ghost var to;
      sent, to := Send(w, n, e, ctx);
      if sent.Failure? { return Failure(sent.error); }
      if to.Some? {
        MovedAlong(before, m, w, to.value, n, e, start, now);
        assert moves[k..] == before + [Move(n, w, to.value)];
        if cooldown[w].Some? && old(now) <= start + cooldown[w].value && DistinctNames(before) {
          FreshMove(before, m, w, to.value, n, cooldown[w], start, old(now));
        }
      } else {
        GoneFrom(before, m, w, n, start);
      }
      ghost var middle := parts;
      Drop(w, n);
      TouchedBoth(old(parts), middle, parts, w, {n}, {n});
      assert {n} + {n} == {n};
      IsGone(moves, lost, n, k, to.Some?);
      return Success(());
    }

    lemma StoresUnique()
      requires Valid()
      ensures Unique(Stores())
    {
    }

    /** One entity's turn in the migration of `w`: it rests, or it leaves. It is lost exactly when it
        leaves a worker that has nowhere to send it. */
    method MigrateOne(w: Uuid, n: EntityName, ctx: Context, ghost start: nat, ghost k: nat)
      returns (r: Result<Outcome, MoveError>)
      requires Valid() && w in parts && ctx.WentThroughWorker(w)
      requires k <= |moves| && start <= now && Stamped(moves[k..], Stores(), start)
      modifies this`parts, this`history, this`moves, this`now, this`lost
      ensures Valid() && parts.Keys == old(parts).Keys && old(now) <= now
      ensures parts[w].archive == old(parts)[w].archive
      ensures parts[w].entities.Keys <= old(parts)[w].entities.Keys
      ensures n !in old(parts)[w].entities ==> r.Failure?
      ensures r == Success(Left) ==> n !in parts[w].entities
      ensures lost == old(lost) + if r == Success(Left) && !Linked(w) then {n} else {}
      ensures r == Success(Rested) ==> moves == old(moves) && cooldown[w].Some?
      ensures n in old(parts)[w].entities ==>
                var moved := old(parts)[w].entities[n].meta.lastMoved;
                && (cooldown[w].Some? && moved.Some? && now <= moved.value + cooldown[w].value
                    ==> r == Success(Rested))
                && (cooldown[w].None? || moved.None? || old(now) > moved.value + cooldown[w].value
                    ==> r != Success(Rested))
      ensures old(moves) <= moves && Stamped(moves[k..], Stores(), start)
      ensures cooldown[w].Some? && now <= start + cooldown[w].value && DistinctNames(old(moves)[k..])
          ==> DistinctNames(moves[k..])
      ensures Touched(old(parts), parts, w, {n})
      ensures Ready(old(parts), models, peers, registered) && Served(w, ctx) && n in old(parts)[w].entities
          ==> r.Success?
      ensures r.Success? ==> Gone(moves, lost, n, k) || Resting(old(parts)[w].entities[n], cooldown[w], old(now))
    {
      hide *;
      var fetched := Fetch(w, n);
      if fetched.Failure? { return Failure(fetched.error); }
      var e := fetched.value;
      StampsAfterAccess(moves[k..], old(Stores()), w, n, e, start);
      ghost var middle := parts;
      if Ready(old(parts), models, peers, registered) {
        TouchedSetup(old(parts), parts, w, {n});
        ReadyKept(old(parts), parts, models, peers, registered);
      }
      ReadClock();
      RestingMeans(e, cooldown[w], now);
      if Resting(e, cooldown[w], now) {
        RestingEarlier(e, old(parts)[w].entities[n], cooldown[w], old(now), now);
        return Success(Rested);
      }
      var left := Leave(w, n, e, ctx, start, k);
      TouchedBoth(old(parts), middle, parts, w, {n}, {n});
      assert {n} + {n} == {n};
      if left.Failure? { return Failure(left.error); }
      return Success(Left);
    }

    ghost function Now(): Snapshot
      reads this`parts, this`now, this`moves, this`lost
    {
      Snapshot(parts, now, moves, lost)
    }

    method TakeTurn(w: Uuid, n: EntityName, ctx: Context, ghost start: nat, ghost k: nat)
      returns (r: Result<Outcome, MoveError>)
      requires Valid() && w in parts && w in cooldown && ctx.WentThroughWorker(w)
      requires k <= |moves| && start <= now && Stamped(moves[k..], Stores(), start)
      modifies this`parts, this`history, this`moves, this`now, this`lost
      ensures Valid() && parts.Keys == old(parts).Keys && start <= now
      ensures k <= |moves| && Stamped(moves[k..], Stores(), start)
      ensures OneTurn(old(Now()), Now(), w, n, cooldown[w], Linked(w), start, k, r)
      ensures Ready(old(parts), models, peers, registered) && Served(w, ctx) && n in old(parts)[w].entities
          ==> r.Success?
    {
      hide Faithful, Unique, NoMoveAhead, AllTidy, StoredBy, Stamped, DistinctNames, Touched, Ready, Resting, Gone,
           Linked, Served;
      hide NeverMissing, NeverBack, Valid;
      r := MigrateOne(w, n, ctx, start, k);
      if r.Success? { assert r.value == Left || r.value == Rested; }
    }

    /** The turns of the listed names, those in memory (the first `m`) and then the archived ones. */
    method MigrateNames(w: Uuid, names: seq<EntityName>, ctx: Context, ghost m: nat, ghost start: nat, ghost k: nat)
      returns (r: Result<(), MoveError>, ghost touched: set<EntityName>)
      requires Valid() && w in parts && w in cooldown && ctx.WentThroughWorker(w) && m <= |names|
      requires ToSet(names[..m]) == parts[w].entities.Keys && NoDup(names[..m])
      requires forall i :: m <= i < |names| ==> names[i] !in parts[w].entities
      requires k <= |moves| && start <= now && Stamped(moves[k..], Stores(), start)
      modifies this`parts, this`history, this`moves, this`now, this`lost
      ensures Valid() && parts.Keys == old(parts).Keys && k <= |moves| && Stamped(moves[k..], Stores(), start)
      ensures r.Success? ==> m == |names|
      ensures Ready(old(parts), models, peers, registered) && Served(w, ctx) && m == |names| ==> r.Success?
      ensures if r.Success? then Turns(old(Now()), Now(), w, ToSet(names), cooldown[w], Linked(w), start, k)
              else AfterFailure(old(Now()), Now(), w, touched, cooldown[w], Linked(w), start, k)
      ensures r.Success? ==> touched == ToSet(names)
    {
      hide Turns, OneTurn, AfterFailure, Before, NoDup, Touched, Ready, Served, Linked, Stamped, Stores;
      hide Faithful, Unique, NoMoveAhead, AllTidy, StoredBy, NeverMissing, NeverBack, Valid, Context.WentThroughWorker;
      touched := {};
      BeforeAll(names);
      NoTurns(Now(), w, cooldown[w], Linked(w), start, k);
      for i := 0 to |names|
        invariant Valid() && parts.Keys == old(parts).Keys && start <= now && i <= m
        invariant k <= |moves| && Stamped(moves[k..], Stores(), start)
        invariant touched == Before(names, i)
        invariant Turns(old(Now()), Now(), w, touched, cooldown[w], Linked(w), start, k)
      {
        var n := names[i];
        ghost var before := Now();
        TurnsMean(old(Now()), before, w, names, m, i, cooldown[w], Linked(w), start, k, models, peers, registered);
        var moved := TakeTurn(w, n, ctx, start, k);
        NextTurn(old(Now()), before, Now(), w, touched, n, cooldown[w], Linked(w), start, k, moved);
        touched := touched + {n};
        if moved.Failure? { return Failure(moved.error), touched; }
      }
      return Success(()), touched;
    }

    /** A worker sends each of its entities away. If everybody it may send to can store them, it succeeds
        if and only if it keeps nothing archived: an archived name is listed and then not found. On
        success every entity has gone that was not moved within the cooldown before. */
    method MigrateEntities(w: Uuid, received: Context, ghost start: nat, ghost k: nat)
      returns (r: Result<(), MoveError>, ghost touched: set<EntityName>)
      requires Valid() && k <= |moves| && start <= now && Stamped(moves[k..], Stores(), start)
      modifies this`parts, this`history, this`moves, this`now, this`lost
      ensures Valid() && parts.Keys == old(parts).Keys && old(now) <= now
      ensures Touched(old(parts), parts, w, touched)
      ensures w !in parts ==> r == Failure(NotInitialized) && moves == old(moves)
      ensures w in parts && !NothingArchived(old(parts)[w]) ==> r.Failure?
      ensures w in parts && Ready(old(parts), models, peers, registered) && Served(w, received) ==>
                (r.Success? <==> NothingArchived(old(parts)[w]))
      ensures r.Success? ==> forall n :: n in old(parts)[w].entities ==>
                || Gone(moves, lost, n, k)
                || var moved := old(parts)[w].entities[n].meta.lastMoved;
                   cooldown[w].Some? && moved.Some? && old(now) <= moved.value + cooldown[w].value
      ensures r.Success? && cooldown[w].None? ==> parts[w].entities == map[]
      ensures old(lost) <= lost && (Linked(w) ==> lost == old(lost))
      ensures old(moves) <= moves && Stamped(moves[k..], Stores(), start)
      ensures w in parts && cooldown[w].Some? && now <= start + cooldown[w].value && DistinctNames(old(moves)[k..])
          ==> DistinctNames(moves[k..])
    {
      hide Faithful, Unique, NoMoveAhead, AllTidy, StoredBy, Stamped, DistinctNames, Touched, Ready, Resting, NoDup;
      hide NeverMissing, NeverBack, Context.RegisterHop, Context.WentThroughWorker, Gone, ToSet, Served, Linked,
           NothingArchived;
      touched := {};
      TouchedNot(parts, w);
      if w !in parts { return Failure(NotInitialized), touched; }
      var ctx := received.RegisterHop(Worker(w), now);
      HopGoesThrough(received, w, now);
      if Served(w, received) { ServedAfterHop(w, received, now); }
      var names;
      ghost var m;
      names, m := ListEntities(w);
      r, touched := MigrateNames(w, names, ctx, m, start, k);
      if r.Success? {
        assert names[..m] == names;
        AllRestingMeans(old(parts)[w].entities, cooldown[w], old(now));
        if cooldown[w].None? { assert parts[w].entities.Keys == {}; }
      }
    }

    /** All names in memory in some order, then all archived ones. */
    method ListEntities(w: Uuid) returns (names: seq<EntityName>, ghost m: nat)
      requires Valid() && w in parts
      ensures m <= |names| && (m == |names| <==> NothingArchived(parts[w]))
      ensures ToSet(names[..m]) == parts[w].entities.Keys && NoDup(names[..m])
      ensures forall i :: m <= i < |names| ==> names[i] !in parts[w].entities
    {
      hide Faithful, Unique, NoMoveAhead, StoredBy, NeverMissing, NeverBack;
      assert Tidy(parts[w]);
      names := [];
      var todo := parts[w].entities.Keys;
      while todo != {}
        invariant todo <= parts[w].entities.Keys
        invariant ToSet(names) == parts[w].entities.Keys - todo && NoDup(names)
      {
        var n :| n in todo;
        todo := todo - {n};
        assert n !in ToSet(names);
        ToSetConcat(names, [n]);
        NoDupConcat(names, [n]);
        assert ToSet([n]) == {n};
        names := names + [n];
      }
      m := |names|;
      assert names[..m] == names;
      ghost var first := names;
      if parts[w].archive.Some? {
        todo := parts[w].archive.value.Keys;
        while todo != {}
          invariant todo <= parts[w].archive.value.Keys && m <= |names|
          invariant m == |names| <==> todo == parts[w].archive.value.Keys
          invariant names[..m] == first
          invariant forall i :: m <= i < |names| ==>
                      names[i] in parts[w].archive.value && names[i] !in parts[w].entities
        {
          var n :| n in todo;
          todo := todo - {n};
          names := names + [n];
        }
      }
    }

    /** The leader's pass: every registered worker in turn migrates its entities; the first failure
        ends the pass. If everybody can store what they are sent and has somewhere to send, the pass
        succeeds if and only if no registered worker keeps anything archived. On success every entity
        has gone that was not moved within its worker's cooldown before. */
    method Reorganize(ctx: Context) returns (r: Result<(), MoveError>)
      requires Valid()
      modifies this`parts, this`history, this`moves, this`now, this`lost
      ensures Valid() && parts.Keys == old(parts).Keys && old(moves) <= moves
      ensures old(lost) <= lost && (AllLinked() ==> lost == old(lost))
      ensures Covers(now - old(now)) ==> DistinctNames(moves[|old(moves)|..])
      ensures Ready(old(parts), models, peers, registered) && (forall w :: w in registered ==> Served(w, ctx)) ==>
                (r.Success? <==> forall w :: w in registered && w in old(parts) ==> NothingArchived(old(parts)[w]))
      ensures r.Success? ==> registered <= parts.Keys
      ensures r.Success? ==> forall w, n :: w in registered && InMemory(old(parts), w, n) ==>
                || Gone(moves, lost, n, |old(moves)|)
                || var moved := old(parts)[w].entities[n].meta.lastMoved;
                   w in cooldown && cooldown[w].Some? && moved.Some? && old(now) <= moved.value + cooldown[w].value
    {
      hide Faithful, Unique, NoMoveAhead, AllTidy, StoredBy, Stamped, DistinctNames, Touched, TouchedAt, SameSetup;
      hide Ready, Settled, Gone, Resting, NothingArchived, Served, NeverMissing, NeverBack;
      ghost var start, k := now, |moves|;
      NothingStamped(Stores(), start);
      TouchedNot(parts, 0);
      NothingSettled(parts, cooldown, start, moves, lost, k);
      assert moves[k..] == [];
      var todo := registered;
      assert registered - todo == {};
      while todo != {}
        invariant Valid() && parts.Keys == old(parts).Keys && old(moves) <= moves && todo <= registered
        invariant start <= now && Stamped(moves[k..], Stores(), start)
        invariant old(lost) <= lost && (AllLinked() ==> lost == old(lost))
        invariant Covers(now - start) ==> DistinctNames(moves[k..])
        invariant registered - todo <= parts.Keys && cooldown.Keys == parts.Keys
        invariant TouchedAt(old(parts), parts, registered - todo)
        invariant Settled(old(parts), registered - todo, cooldown, start, moves, lost, k)
        invariant Ready(old(parts), models, peers, registered) ==>
                    forall w :: w in registered - todo ==> NothingArchived(old(parts)[w])
      {
        var w :| w in todo;
        ghost var visited, before, clock, gone, missing := registered - todo, parts, now, moves, lost;
        todo := todo - {w};
        assert registered - todo == visited + {w};
        if Ready(old(parts), models, peers, registered) {
          TouchedAtSetup(old(parts), parts, visited);
          ReadyKept(old(parts), parts, models, peers, registered);
          SameArchived(old(parts)[w], parts[w]);
        }
        var done;
        ghost var touched;
        done, touched := MigrateEntities(w, ctx, start, k);
        if done.Failure? { return Failure(done.error); }
        TouchedAtBoth(old(parts), before, parts, visited, w, touched);
        AllRestingMeans(before[w].entities, cooldown[w], clock);
        SettledMore(old(parts), before, visited, w, cooldown, start, clock, gone, missing, moves, lost, k);
      }
      assert registered - todo == registered;
      SettledMeans(old(parts), registered, cooldown, start, moves, lost, k);
      return Success(());
    }
  }
}
