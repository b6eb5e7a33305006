/** Blocking clients: the counter that holds the worker back, and the requests that advance the clock. */
module Turn {
  import opened Common
  import opened Rpc

  /** An advance request between its checks, its reading of the clock, and its waiting. */
  datatype Flight = Checked(steps: int) | Started(start: nat, steps: int) | Waiting(start: nat, steps: int)

  datatype Answer =
    | Refused(c: Uuid)
    | Invalid(c: Uuid, steps: int)
    | Advanced(c: Uuid, start: nat, steps: int, at: nat)
    | TooFar(c: Uuid, start: nat, steps: int, at: nat)

  /** What the worker was last told, whether a change of the counter is unseen, whether the monitor
      holds a handle to the worker, whether the server does, and what is on its way to the worker. */
  datatype Watch = Watch(told: bool, pending: bool, handle: bool, attached: bool, sent: Option<bool>)

  datatype State = State(
    clients: map<Uuid, bool>,
    registering: set<Uuid>,
    flights: map<Uuid, Flight>,
    blocked: nat,
    clock: nat,
    answers: seq<Answer>,
    watch: Watch)
  {
    function Raise(): State {
      this.(blocked := (blocked + 1) % 256, watch := watch.(pending := true))
    }

    function Lower(): State {
      this.(blocked := (blocked + 255) % 256, watch := watch.(pending := true))
    }
  }

  /** A blocking client is counted first and inserted later. `Lower` and `Observe` belong to an advance
      request, `Monitor` and `Deliver` to the loop that tells the worker: it sends what it has read, and
      waits until the call is through or has failed unheard. */
  datatype Event =
    | Count(c: Uuid)
    | Insert(c: Uuid)
    | InsertFree(c: Uuid)
    | Advance(c: Uuid, steps: int)
    | ReadClock(c: Uuid)
    | StartWaiting(c: Uuid)
    | Observe(c: Uuid)
    | ClockTo(clock: nat)
    | Disconnect(c: Uuid)
    | Attach
    | Monitor(locked: bool)
    | Deliver(heard: bool)

  predicate Fresh(s: State, c: Uuid) {
    c !in s.clients && c !in s.registering && c !in s.flights
  }

  predicate Enabled(s: State, e: Event) {
    match e
    case Count(c) => Fresh(s, c)
    case Insert(c) => c in s.registering
    case InsertFree(c) => Fresh(s, c)
    case Advance(c, _) => c in s.clients && c !in s.flights
    case ReadClock(c) => c in s.flights && s.flights[c].Checked?
    case StartWaiting(c) => c in s.flights && s.flights[c].Started?
    case Observe(c) => c in s.flights && s.flights[c].Waiting?
    case ClockTo(_) => true
    case Disconnect(c) => c in s.clients
    case Attach => true
    case Monitor(_) => s.watch.pending && s.watch.sent.None?
    case Deliver(_) => s.watch.sent.Some?
  }

  function ApplyAdvance(s: State, c: Uuid, steps: int): State
    requires c in s.clients
  {
    if !s.clients[c] then s.(answers := s.answers + [Refused(c)])
    else if steps < 1 then s.(answers := s.answers + [Invalid(c, steps)])
    else s.(flights := s.flights[c := Checked(steps)])
  }

  function ApplyObserve(s: State, c: Uuid): State
    requires c in s.flights && s.flights[c].Waiting?
  {
    var f := s.flights[c];
    if s.clock == f.start + f.steps then
      s.(flights := s.flights - {c}, answers := s.answers + [Advanced(c, f.start, f.steps, s.clock)]).Raise()
    else if s.clock > f.start + f.steps then
      s.(flights := s.flights - {c}, answers := s.answers + [TooFar(c, f.start, f.steps, s.clock)])
    else s
  }

  function ApplyDisconnect(s: State, c: Uuid): State
    requires c in s.clients
  {
    var t := s.(clients := s.clients - {c});
    if s.clients[c] && s.blocked != 0 then t.Lower() else t
  }

  /** The monitor wakes up on a change. Without a handle it uses up the change to look for one. */
  function Woken(w: Watch, blocked: nat, locked: bool): Watch {
    if w.handle then w.(pending := false, sent := Some(blocked != 0))
    else w.(pending := false, handle := w.attached && !locked)
  }

  /** A call that fails is only logged. */
  function Delivered(w: Watch, heard: bool): Watch
    requires w.sent.Some?
  {
    w.(told := if heard then w.sent.value else w.told, sent := None)
  }

  function Apply(s: State, e: Event): State
    requires Enabled(s, e)
  {
    match e
    case Count(c) => s.(registering := s.registering + {c}).Raise()
    case Insert(c) => s.(registering := s.registering - {c}, clients := s.clients[c := true])
    case InsertFree(c) => s.(clients := s.clients[c := false])
    case Advance(c, steps) => ApplyAdvance(s, c, steps)
    case ReadClock(c) => s.(flights := s.flights[c := Started(s.clock, s.flights[c].steps)])
    case StartWaiting(c) => s.(flights := s.flights[c := Waiting(s.flights[c].start, s.flights[c].steps)]).Lower()
    case Observe(c) => ApplyObserve(s, c)
    case ClockTo(v) => s.(clock := v)
    case Disconnect(c) => ApplyDisconnect(s, c)
    case Attach => s.(watch := s.watch.(attached := true))
    case Monitor(locked) => s.(watch := Woken(s.watch, s.blocked, locked))
    case Deliver(heard) => s.(watch := Delivered(s.watch, heard))
  }

  /** The state after the events, if each of them was enabled in turn. */
  function Run(s: State, events: seq<Event>): Option<State>
    decreases |events|
  {
    if events == [] then Some(s)
    else if Enabled(s, events[0]) then Run(Apply(s, events[0]), events[1..])
    else None
  }

  // ----- what the counter counts -----

  /** Blocking clients that do not wait for the clock. */
  function Holding(clients: map<Uuid, bool>, flights: map<Uuid, Flight>): set<Uuid> {
    set c | c in clients && clients[c] && !(c in flights && flights[c].Waiting?)
  }

  function Blocking(clients: map<Uuid, bool>): set<Uuid> {
    set c | c in clients && clients[c]
  }

  /** The counter is `excess` above the clients that hold the worker back; it is accurate at zero. */
  ghost predicate Counts(s: State, excess: nat) {
    s.blocked == |Holding(s.clients, s.flights)| + |s.registering| + excess
  }

  /** The clients and the excess fit the counter's 8 bits. */
  ghost predicate FitsCounter(s: State, excess: nat) {
    |Blocking(s.clients)| + |s.registering| + excess <= 255
  }

  /** Flights belong to blocking clients, unless their client is gone; ids are not reused. */
  ghost predicate Sane(s: State) {
    && (forall c :: c in s.flights ==>
          (c in s.clients ==> s.clients[c]) && c !in s.registering && s.flights[c].steps >= 1)
    && (forall c :: c in s.registering ==> c !in s.clients)
    && s.blocked < 256
  }

  predicate Orphan(s: State, c: Uuid) {
    c in s.flights && c !in s.clients
  }

  predicate Overshoots(s: State, e: Event)
    requires Enabled(s, e)
  {
    e.Observe? && s.clock > s.flights[e.c].start + s.flights[e.c].steps
  }

  predicate Reaches(s: State, e: Event)
    requires Enabled(s, e)
  {
    e.Observe? && s.clock == s.flights[e.c].start + s.flights[e.c].steps
  }

  /** Disconnected while it waits and others hold the worker back. */
  predicate LeavesWaiting(s: State, e: Event)
    requires Enabled(s, e)
  {
    e.Disconnect? && e.c in s.flights && s.flights[e.c].Waiting? && s.clients[e.c] && s.blocked != 0
  }

  /** What makes an accurate counter wrong: an observed overshoot, a client that leaves while waiting,
      or a request whose client already left. */
  predicate Spoils(s: State, e: Event)
    requires Enabled(s, e)
  {
    || (Overshoots(s, e) && !Orphan(s, e.c))
    || LeavesWaiting(s, e)
    || ((Reaches(s, e) || e.StartWaiting?) && Orphan(s, e.c))
  }

  lemma Arrives(clients: map<Uuid, bool>, flights: map<Uuid, Flight>, c: Uuid, blocking: bool)
    requires c !in clients && c !in flights
    ensures c !in Holding(clients, flights)
    ensures Holding(clients[c := blocking], flights) == Holding(clients, flights) + if blocking then {c} else {}
  {
  }

  lemma Flies(clients: map<Uuid, bool>, flights: map<Uuid, Flight>, c: Uuid, f: Flight)
    requires c in flights ==> !flights[c].Waiting?
    ensures Holding(clients, flights[c := f]) == Holding(clients, flights) - if f.Waiting? then {c} else {}
    ensures c in Holding(clients, flights) <==> c in clients && clients[c]
  {
  }

  lemma Lands(clients: map<Uuid, bool>, flights: map<Uuid, Flight>, c: Uuid)
    requires c in flights && flights[c].Waiting? && (c in clients ==> clients[c])
    ensures c !in Holding(clients, flights)
    ensures Holding(clients, flights - {c}) == Holding(clients, flights) + if c in clients then {c} else {}
  {
  }

  lemma Leaves(clients: map<Uuid, bool>, flights: map<Uuid, Flight>, c: Uuid)
    requires c in clients
    ensures Holding(clients - {c}, flights) == Holding(clients, flights) - {c}
    ensures c in Holding(clients, flights) <==> clients[c] && !(c in flights && flights[c].Waiting?)
  {
  }

  lemma HoldingFits(clients: map<Uuid, bool>, flights: map<Uuid, Flight>)
    ensures |Holding(clients, flights)| <= |Blocking(clients)|
  {
    var holding, blocking := Holding(clients, flights), Blocking(clients);
    assert blocking == holding + (blocking - holding);
  }

  lemma ApplyKeepsSane(s: State, e: Event)
    requires Sane(s) && Enabled(s, e)
    ensures Sane(Apply(s, e))
  {
    match e
    case Advance(c, steps) =>
    case Observe(c) =>
    case Disconnect(c) =>
    case _ =>
  }

  lemma AccurateCount(s: State, c: Uuid, excess: nat)
    requires Fresh(s, c) && Counts(s, excess) && FitsCounter(Apply(s, Count(c)), excess)
    ensures Counts(Apply(s, Count(c)), excess)
  {
    hide Holding, Blocking;
    HoldingFits(s.clients, s.flights);
  }

  lemma AccurateArrival(s: State, e: Event, excess: nat)
    requires Sane(s) && Enabled(s, e) && Counts(s, excess) && (e.Insert? || e.InsertFree?)
    ensures Counts(Apply(s, e), excess)
  {
    hide Holding;
    match e
    case Insert(c) => Arrives(s.clients, s.flights, c, true);
    case InsertFree(c) => Arrives(s.clients, s.flights, c, false);
  }

  lemma AccurateTakeOff(s: State, e: Event, excess: nat)
    requires Enabled(s, e) && (e.Advance? || e.ReadClock?) && Counts(s, excess)
    ensures Counts(Apply(s, e), excess)
  {
    hide Holding;
    match e
    case Advance(c, steps) => Flies(s.clients, s.flights, c, Checked(steps));
    case ReadClock(c) => Flies(s.clients, s.flights, c, Apply(s, e).flights[c]);
  }

  lemma AccurateWait(s: State, c: Uuid, excess: nat)
    requires Sane(s) && Enabled(s, StartWaiting(c)) && Counts(s, excess) && FitsCounter(s, excess)
    ensures Counts(Apply(s, StartWaiting(c)), excess) <==> !Orphan(s, c)
  {
    hide Holding, Blocking;
    HoldingFits(s.clients, s.flights);
    Flies(s.clients, s.flights, c, Apply(s, StartWaiting(c)).flights[c]);
  }

  lemma AccurateLanding(s: State, e: Event, excess: nat)
    requires Sane(s) && Enabled(s, e) && e.Observe?
    requires Counts(s, excess) && FitsCounter(s, excess)
    ensures Counts(Apply(s, e), excess) <==> !Spoils(s, e)
  {
    hide Holding, Blocking;
    HoldingFits(s.clients, s.flights);
    HoldingFits(s.clients, Apply(s, e).flights);
    Lands(s.clients, s.flights, e.c);
  }

  lemma AccurateLeaving(s: State, e: Event, excess: nat)
    requires Sane(s) && Enabled(s, e) && e.Disconnect?
    requires Counts(s, excess) && FitsCounter(s, excess)
    ensures Counts(Apply(s, e), excess) <==> !Spoils(s, e)
  {
    hide Holding, Blocking;
    HoldingFits(s.clients, s.flights);
    Leaves(s.clients, s.flights, e.c);
  }

  /** With room in the counter, a step leaves an accurate counter accurate (and one that is too high by
      some excess just as much too high) if and only if it is none of those that spoil it. */
  lemma StaysAccurateIff(s: State, e: Event, excess: nat)
    requires Sane(s) && Enabled(s, e) && Counts(s, excess) && FitsCounter(s, excess) && FitsCounter(Apply(s, e), excess)
    ensures Counts(Apply(s, e), excess) <==> !Spoils(s, e)
  {
    hide Sane, Counts, FitsCounter;
    match e
    case Observe(_) => AccurateLanding(s, e, excess);
    case Disconnect(_) => AccurateLeaving(s, e, excess);
    case Advance(_, _) => AccurateTakeOff(s, e, excess);
    case ReadClock(_) => AccurateTakeOff(s, e, excess);
    case StartWaiting(c) => AccurateWait(s, c, excess);
    case Count(c) => AccurateCount(s, c, excess);
    case Insert(_) => AccurateArrival(s, e, excess);
    case InsertFree(_) => AccurateArrival(s, e, excess);
    case _ => AccurateElsewhere(s, e, excess);
  }

  lemma AccurateElsewhere(s: State, e: Event, excess: nat)
    requires Enabled(s, e) && Counts(s, excess) && (e.ClockTo? || e.Attach? || e.Monitor? || e.Deliver?)
    ensures Counts(Apply(s, e), excess)
  {
  }

  // ----- runs -----

  ghost predicate NoOrphans(s: State) {
    forall c :: c in s.flights ==> c in s.clients
  }

  /** Nobody disconnects with a request under way, the clock is never seen past a target, and there
      is always room in the counter. */
  ghost predicate Tame(s: State, events: seq<Event>, excess: nat)
    decreases |events|
  {
    events == [] ||
    (Enabled(s, events[0]) ==>
       && (events[0].Disconnect? ==> events[0].c !in s.flights)
       && !Overshoots(s, events[0])
       && FitsCounter(Apply(s, events[0]), excess)
       && Tame(Apply(s, events[0]), events[1..], excess))
  }

  /** At every step of the run the counter stays within its 8 bits. */
  ghost predicate NeverWraps(s: State, events: seq<Event>)
    decreases |events|
  {
    events == [] ||
    (Enabled(s, events[0]) ==>
       && (events[0].StartWaiting? || (events[0].Disconnect? && s.clients[events[0].c]) ==> s.blocked > 0)
       && (events[0].Count? || Reaches(s, events[0]) ==> s.blocked < 255)
       && NeverWraps(Apply(s, events[0]), events[1..]))
  }

  lemma ApplyKeepsNoOrphans(s: State, e: Event)
    requires NoOrphans(s) && Enabled(s, e) && (e.Disconnect? ==> e.c !in s.flights)
    ensures NoOrphans(Apply(s, e))
  {
    match e
    case Advance(_, _) =>
    case Observe(_) =>
    case Disconnect(_) =>
    case _ =>
  }

  lemma StepStaysInRange(s: State, e: Event, excess: nat)
    requires Sane(s) && NoOrphans(s) && Enabled(s, e) && Counts(s, excess) && FitsCounter(s, excess)
        && FitsCounter(Apply(s, e), excess)
    requires e.Disconnect? ==> e.c !in s.flights
    ensures e.StartWaiting? || (e.Disconnect? && s.clients[e.c]) ==> s.blocked > 0
    ensures e.Count? || Reaches(s, e) ==> s.blocked < 255
  {
    hide Holding, Blocking;
    HoldingFits(s.clients, s.flights);
    match e
    case StartWaiting(c) => Flies(s.clients, s.flights, c, Apply(s, e).flights[c]);
    case Disconnect(c) => Leaves(s.clients, s.flights, c);
    case Observe(c) =>
      Lands(s.clients, s.flights, c);
      HoldingFits(s.clients, s.flights - {c});
    case _ =>
  }

  /** Over every tame run from an accurate state the counter is the number of blocking clients that do
      not wait, with those just registering, and it never wraps around. An excess is never made up. */
  lemma {:induction false} TameRunsCount(s: State, events: seq<Event>, excess: nat)
    requires Sane(s) && NoOrphans(s) && Counts(s, excess) && FitsCounter(s, excess)
    requires Run(s, events).Some? && Tame(s, events, excess)
    ensures Sane(Run(s, events).value) && Counts(Run(s, events).value, excess)
    ensures NeverWraps(s, events)
    decreases |events|
  {
    hide Sane, NoOrphans, Counts, FitsCounter, Apply;
    if events != [] {
      var e, t := events[0], Apply(s, events[0]);
      ApplyKeepsSane(s, e);
      ApplyKeepsNoOrphans(s, e);
      TameSpoilsNothing(s, e);
      StaysAccurateIff(s, e, excess);
      StepStaysInRange(s, e, excess);
      TameRunsCount(t, events[1..], excess);
    }
  }

  lemma TameSpoilsNothing(s: State, e: Event)
    requires NoOrphans(s) && Enabled(s, e) && !Overshoots(s, e) && (e.Disconnect? ==> e.c !in s.flights)
    ensures !Spoils(s, e)
  {
  }

  /** What the answers claim. */
  ghost predicate Honest(answers: seq<Answer>) {
    forall a :: a in answers ==>
      match a
      case Refused(_) => true
      case Invalid(_, steps) => steps < 1
      case Advanced(_, start, steps, at) => steps >= 1 && at == start + steps
      case TooFar(_, start, steps, at) => steps >= 1 && at > start + steps
  }

  lemma ApplyKeepsHonest(s: State, e: Event)
    requires Sane(s) && Honest(s.answers) && Enabled(s, e)
    ensures Honest(Apply(s, e).answers)
  {
    hide Holding, Blocking;
    match e
    case Advance(_, _) =>
    case Observe(_) =>
    case Disconnect(_) =>
    case _ =>
  }

  /** In every run, tame or not, a request succeeds only when the clock is exactly the clock it
      started from plus its steps. */
  lemma {:induction false} AdvancesExactly(s: State, events: seq<Event>)
    requires Sane(s) && Honest(s.answers) && Run(s, events).Some?
    ensures Honest(Run(s, events).value.answers)
    decreases |events|
  {
    hide Sane, Honest, Apply;
    if events != [] {
      ApplyKeepsSane(s, events[0]);
      ApplyKeepsHonest(s, events[0]);
      AdvancesExactly(Apply(s, events[0]), events[1..]);
    }
  }

  // ----- what goes wrong otherwise -----

  /** The clients that hold the worker back, with those just registering. */
  function Held(s: State): int {
    |Holding(s.clients, s.flights)| + |s.registering|
  }

  /** By how much a step moves the counter away from what it should count. */
  function Drift(s: State, e: Event): int
    requires Enabled(s, e)
  {
    match e
    case StartWaiting(c) => if Orphan(s, c) then -1 else 0
    case Observe(c) =>
      if Reaches(s, e) && Orphan(s, c) then 1
      else if Overshoots(s, e) && !Orphan(s, c) then -1
      else 0
    case Disconnect(c) =>
      if !s.clients[c] then 0
      else if c in s.flights && s.flights[c].Waiting? then (if s.blocked != 0 then -1 else 0)
      else if s.blocked != 0 then 0
      else 1
    case _ => 0
  }

  function DriftOf(s: State, events: seq<Event>): int
    requires Run(s, events).Some?
    decreases |events|
  {
    if events == [] then 0 else Drift(s, events[0]) + DriftOf(Apply(s, events[0]), events[1..])
  }

  /** Equal in 8 bits. */
  predicate Congruent(a: int, b: int) {
    (a - b) % 256 == 0
  }

  lemma CongruentSteps(b: nat)
    requires b < 256
    ensures Congruent(b, b) && Congruent((b + 1) % 256, b + 1) && Congruent((b + 255) % 256, b - 1)
  {
  }

  lemma CongruentSum(a: int, b: int, c: int, more: int)
    requires Congruent(a, b) && Congruent(c, a + more)
    ensures Congruent(c, b + more)
  {
  }

  /** In range, congruent is equal. */
  lemma CongruentInRange(a: nat, b: int)
    requires a < 256
    ensures Congruent(a, b) <==> a == b % 256
  {
  }

  lemma HeldAfterArrival(s: State, e: Event)
    requires Sane(s) && Enabled(s, e) && (e.Count? || e.Insert? || e.InsertFree?)
    ensures Held(Apply(s, e)) == Held(s) + if e.Count? then 1 else 0
  {
    hide Holding;
    match e
    case Insert(c) => Arrives(s.clients, s.flights, c, true);
    case InsertFree(c) => Arrives(s.clients, s.flights, c, false);
    case Count(_) =>
  }

  lemma HeldAfterTakeOff(s: State, e: Event)
    requires Sane(s) && Enabled(s, e) && (e.Advance? || e.ReadClock? || e.StartWaiting?)
    ensures Held(Apply(s, e)) == Held(s) - if e.StartWaiting? && !Orphan(s, e.c) then 1 else 0
  {
    hide Holding;
    match e
    case Advance(c, steps) => Flies(s.clients, s.flights, c, Checked(steps));
    case ReadClock(c) => Flies(s.clients, s.flights, c, Apply(s, e).flights[c]);
    case StartWaiting(c) => Flies(s.clients, s.flights, c, Apply(s, e).flights[c]);
  }

  lemma DriftOnTheGround(s: State, e: Event)
    requires Sane(s) && Enabled(s, e) && !e.Observe? && !e.Disconnect?
    ensures Congruent(Apply(s, e).blocked, s.blocked + Held(Apply(s, e)) - Held(s) + Drift(s, e))
  {
    SaneCounter(s);
    CongruentSteps(s.blocked);
    if e.Count? || e.Insert? || e.InsertFree? { HeldAfterArrival(s, e); }
    if e.Advance? || e.ReadClock? || e.StartWaiting? { HeldAfterTakeOff(s, e); }
    if e.ClockTo? || e.Attach? || e.Monitor? || e.Deliver? { assert Held(Apply(s, e)) == Held(s); }
    hide Held, Sane, Congruent;
  }

  lemma DriftOnLanding(s: State, e: Event)
    requires Sane(s) && Enabled(s, e) && (e.Observe? || e.Disconnect?)
    ensures Congruent(Apply(s, e).blocked, s.blocked + Held(Apply(s, e)) - Held(s) + Drift(s, e))
  {
    CongruentSteps(s.blocked);
    hide Holding, Congruent;
    match e
    case Observe(c) => Lands(s.clients, s.flights, c);
    case Disconnect(c) => Leaves(s.clients, s.flights, c);
  }

  /** Over every run the counter is, in 8 bits, what it should count plus what it has drifted by. */
  lemma {:induction false} CounterDrifts(s: State, events: seq<Event>)
    requires Sane(s) && Run(s, events).Some?
    ensures var t := Run(s, events).value;
            Sane(t) && Congruent(t.blocked, s.blocked + Held(t) - Held(s) + DriftOf(s, events))
    decreases |events|
  {
    hide Sane, Enabled, Apply, Held, Drift, Congruent;
    if events == [] {
      SaneCounter(s);
      CongruentSteps(s.blocked);
    } else {
      var e, t := events[0], Apply(s, events[0]);
      if e.Observe? || e.Disconnect? { DriftOnLanding(s, e); } else { DriftOnTheGround(s, e); }
      ApplyKeepsSane(s, e);
      CounterDrifts(t, events[1..]);
      var u := Run(s, events).value;
      CongruentSum(t.blocked, s.blocked + Held(t) - Held(s) + Drift(s, e), u.blocked,
                   Held(u) - Held(t) + DriftOf(t, events[1..]));
    }
  }

  /** So after a run from an accurate counter it is accurate if and only if the drift cancels out. */
  lemma AccurateAfterIff(s: State, events: seq<Event>)
    requires Sane(s) && Counts(s, 0) && Run(s, events).Some? && FitsCounter(Run(s, events).value, 0)
    ensures Counts(Run(s, events).value, 0) <==> DriftOf(s, events) % 256 == 0
  {
    var t := Run(s, events).value;
    HoldingFits(t.clients, t.flights);
    CounterDrifts(s, events);
    SaneCounter(t);
    CongruentInRange(t.blocked, Held(t) + DriftOf(s, events));
    hide Holding, Blocking, Sane, Run, DriftOf, Congruent;
  }

  lemma SaneCounter(s: State)
    requires Sane(s)
    ensures s.blocked < 256
  {
  }

  /** A step spoils an accurate counter exactly if it drifts. */
  lemma SpoilsIffDrifts(s: State, e: Event, excess: nat)
    requires Sane(s) && Enabled(s, e) && Counts(s, excess)
    ensures Spoils(s, e) <==> Drift(s, e) != 0
  {
    if e.Disconnect? { Leaves(s.clients, s.flights, e.c); }
  }

  function Started0(): State {
    State(map[], {}, map[], 0, 0, [], Watch(false, false, true, true, None))
  }

  predicate NobodyLeft(s: State) {
    s.clients == map[] && s.flights == map[] && s.registering == {}
  }

  /** A first client registers and asks for one step. */
  function ToWait(c: Uuid): seq<Event> {
    [Count(c), Insert(c), Advance(c, 1), ReadClock(c), StartWaiting(c)]
  }

  lemma Waits(s: State, c: Uuid) returns (t: State)
    requires NobodyLeft(s) && s.blocked < 255
    ensures Run(s, ToWait(c)) == Some(t)
    ensures t.clients == map[c := true] && t.flights == map[c := Waiting(s.clock, 1)] && t.registering == {}
    ensures t.blocked == s.blocked && t.clock == s.clock
  {
    RunNone(s);
    hide Run;
    var e1, s1 := Then(s, [], s, Count(c));
    var e2, s2 := Then(s, e1, s1, Insert(c));
    var e3, s3 := Then(s, e2, s2, Advance(c, 1));
    var e4, s4 := Then(s, e3, s3, ReadClock(c));
    var e5, s5 := Then(s, e4, s4, StartWaiting(c));
    assert e5 == ToWait(c);
    t := s5;
  }

  /** The clock jumps past a target: the client is refused and the counter stays one too low, so its
      next request wraps the counter around to 255. */
  lemma OvershootWraps(c: Uuid)
    ensures var events := ToWait(c) + [ClockTo(2)] + [Observe(c)]
                          + [Advance(c, 1)] + [ReadClock(c)] + [StartWaiting(c)];
            Run(Started0(), events).Some? && Run(Started0(), events).value.blocked == 255
  {
    var s := Started0();
    var s5 := Waits(s, c);
    hide Run, ToWait;
    var e6, s6 := Then(s, ToWait(c), s5, ClockTo(2));
    var e7, s7 := Then(s, e6, s6, Observe(c));
    var e8, s8 := Then(s, e7, s7, Advance(c, 1));
    var e9, s9 := Then(s, e8, s8, ReadClock(c));
    var e10, s10 := Then(s, e9, s9, StartWaiting(c));
  }

  function ToLeave(c: Uuid): seq<Event> {
    ToWait(c) + [Disconnect(c)] + [ClockTo(1)] + [Observe(c)]
  }

  lemma LeavesAlone(c: Uuid) returns (s8: State)
    ensures Run(Started0(), ToLeave(c)) == Some(s8) && NobodyLeft(s8) && s8.blocked == 1
  {
    var s := Started0();
    var s5 := Waits(s, c);
    hide Run, ToWait;
    var e6, s6 := Then(s, ToWait(c), s5, Disconnect(c));
    var e7, s7 := Then(s, e6, s6, ClockTo(1));
    var e8, t := Then(s, e7, s7, Observe(c));
    s8 := t;
  }

  lemma LaterDrift(s: State, later: seq<Event>)
    requires NobodyLeft(s) && s.blocked == 1 && Run(s, later).Some?
    ensures var t := Run(s, later).value; t.blocked == (Held(t) + 1 + DriftOf(s, later)) % 256
    ensures Tame(s, later, 1) ==> Run(s, later).value.blocked >= 1
  {
    NobodyHolds(s);
    hide NobodyLeft, Run, DriftOf, Held, Tame, Sane, Holding, Congruent;
    CounterDrifts(s, later);
    var t := Run(s, later).value;
    SaneCounter(t);
    CongruentInRange(t.blocked, Held(t) + 1 + DriftOf(s, later));
    if Tame(s, later, 1) { TameRunsCount(s, later, 1); }
  }

  /** A client that leaves while it waits alone: its request still raises the counter later, so the worker
      is held back with no client left. After that the counter is one too high, plus what further steps
      make it drift; in tame runs it never comes back to zero. */
  lemma {:induction false} LeavingRaisesCounter(c: Uuid) returns (s8: State)
    ensures Run(Started0(), ToLeave(c)) == Some(s8) && NobodyLeft(s8) && s8.blocked == 1
    ensures forall later :: Run(s8, later).Some? ==>
              var t := Run(s8, later).value; t.blocked == (Held(t) + 1 + DriftOf(s8, later)) % 256
    ensures forall later :: Run(s8, later).Some? && Tame(s8, later, 1) ==> Run(s8, later).value.blocked >= 1
  {
    hide *;
    s8 := LeavesAlone(c);
    forall later | Run(s8, later).Some?
      ensures var t := Run(s8, later).value; t.blocked == (Held(t) + 1 + DriftOf(s8, later)) % 256
      ensures Tame(s8, later, 1) ==> Run(s8, later).value.blocked >= 1
    {
      LaterDrift(s8, later);
    }
  }

  /** An overshoot of another client makes up for it: the counter is zero again once that one is gone. */
  lemma OvershootMakesUp(s: State, d: Uuid)
    requires NobodyLeft(s) && s.blocked == 1
    ensures var later := ToWait(d) + [ClockTo(s.clock + 2)] + [Observe(d)] + [Disconnect(d)];
            Run(s, later).Some? && NobodyLeft(Run(s, later).value) && Run(s, later).value.blocked == 0
  {
    var s5 := Waits(s, d);
    hide Run, ToWait;
    var e6, s6 := Then(s, ToWait(d), s5, ClockTo(s.clock + 2));
    var e7, s7 := Then(s, e6, s6, Observe(d));
    var e8, s8 := Then(s, e7, s7, Disconnect(d));
  }

  lemma NobodyHolds(s: State)
    requires NobodyLeft(s) && s.blocked == 1
    ensures Sane(s) && NoOrphans(s) && Counts(s, 1) && FitsCounter(s, 1) && Held(s) == 0
  {
    assert Holding(s.clients, s.flights) == {} && Blocking(s.clients) == {};
  }

  lemma {:induction false} RunSnoc(s: State, events: seq<Event>, e: Event)
    requires Run(s, events).Some? && Enabled(Run(s, events).value, e)
    ensures Run(s, events + [e]) == Some(Apply(Run(s, events).value, e))
    decreases |events|
  {
    hide Apply, Enabled;
    if events == [] {
      assert events + [e] == [e];
    } else {
      assert (events + [e])[1..] == events[1..] + [e];
      RunSnoc(Apply(s, events[0]), events[1..], e);
    }
  }

  lemma RunNone(s: State)
    ensures Run(s, []) == Some(s)
  {
  }

  lemma Then(s: State, events: seq<Event>, now: State, e: Event) returns (more: seq<Event>, t: State)
    requires Run(s, events) == Some(now) && Enabled(now, e)
    ensures t == Apply(now, e) && more == events + [e] && Run(s, more) == Some(t)
  {
    RunSnoc(s, events, e);
    more, t := events + [e], Apply(now, e);
  }

  // ----- what the worker is told -----

  /** This step tells the worker. */
  predicate Tells(s: State, e: Event) {
    e == Deliver(true) && s.watch.sent.Some?
  }

  ghost predicate TellsAt(s: State, events: seq<Event>, k: nat) {
    k < |events| && Run(s, events[..k]).Some? && Tells(Run(s, events[..k]).value, events[k])
  }

  ghost predicate LastTelling(s: State, events: seq<Event>, k: nat) {
    TellsAt(s, events, k) && forall j: nat :: k < j ==> !TellsAt(s, events, j)
  }

  /** The worker knows whether it is held back. */
  predicate Right(s: State) {
    s.watch.told == (s.blocked != 0)
  }

  /** What the worker heard last, or knew at the start. */
  ghost predicate HeardLast(s: State, events: seq<Event>, told: bool) {
    if exists k: nat :: LastTelling(s, events, k)
    then exists k: nat :: LastTelling(s, events, k) && told == Run(s, events[..k]).value.watch.sent.value
    else told == s.watch.told
  }

  lemma {:induction false} RunFront(s: State, events: seq<Event>)
    requires events != [] && Run(s, events).Some?
    ensures var front, e := events[..|events| - 1], events[|events| - 1];
            Run(s, front).Some? && Enabled(Run(s, front).value, e)
            && Run(s, events) == Some(Apply(Run(s, front).value, e))
    decreases |events|
  {
    hide Apply, Enabled;
    if |events| == 1 {
      assert events[..0] == [] && events[1..] == [];
    } else {
      RunFront(Apply(s, events[0]), events[1..]);
      assert events[1..][..|events| - 2] == events[..|events| - 1][1..];
    }
  }

  /** A step that is not a telling leaves what was told. */
  lemma OnlyTellingTells(s: State, e: Event)
    requires Enabled(s, e)
    ensures Apply(s, e).watch.told == if Tells(s, e) then s.watch.sent.value else s.watch.told
  {
    match e
    case Advance(_, _) =>
    case Observe(_) =>
    case Disconnect(_) =>
    case _ =>
  }

  lemma TellingSnoc(s: State, front: seq<Event>, e: Event, k: nat)
    requires Run(s, front).Some?
    ensures TellsAt(s, front + [e], k) <==> if k == |front| then Tells(Run(s, front).value, e) else TellsAt(s, front, k)
    ensures k <= |front| ==> (front + [e])[..k] == front[..k]
  {
    hide Run, Tells;
    var events := front + [e];
    assert events[..|front|] == front;
    if k < |front| { assert events[k] == front[k] && events[..k] == front[..k]; }
  }

  lemma {:induction false} ToldIsHeardLast(s: State, events: seq<Event>)
    requires Run(s, events).Some?
    ensures HeardLast(s, events, Run(s, events).value.watch.told)
    decreases |events|
  {
    if events == [] {
      assert forall k: nat :: !TellsAt(s, events, k);
    } else {
      var front, e := events[..|events| - 1], events[|events| - 1];
      assert events == front + [e];
      RunFront(s, events);
      ToldIsHeardLast(s, front);
      OnlyTellingTells(Run(s, front).value, e);
      HeardSnoc(s, front, e, Run(s, events).value.watch.told);
    }
  }

  lemma HeardSnoc(s: State, front: seq<Event>, e: Event, told: bool)
    requires Run(s, front).Some? && HeardLast(s, front, Run(s, front).value.watch.told)
    requires told == if Tells(Run(s, front).value, e) then Run(s, front).value.watch.sent.value
                     else Run(s, front).value.watch.told
    ensures HeardLast(s, front + [e], told)
  {
    hide Run, Tells;
    var events, n := front + [e], |front|;
    forall k: nat
      ensures TellsAt(s, events, k) <==> if k == n then Tells(Run(s, front).value, e) else TellsAt(s, front, k)
      ensures k <= n ==> events[..k] == front[..k]
    {
      TellingSnoc(s, front, e, k);
    }
    hide TellsAt;
    assert front[..n] == front;
    if Tells(Run(s, front).value, e) {
      assert forall j: nat :: n < j ==> !TellsAt(s, front, j) by { BeyondTheEnd(s, front); }
      assert LastTelling(s, events, n);
    } else {
      assert forall k: nat :: LastTelling(s, events, k) <==> LastTelling(s, front, k) by {
        BeyondTheEnd(s, front);
      }
      assert forall k: nat :: LastTelling(s, front, k) ==> k < n by { BeyondTheEnd(s, front); }
    }
  }

  lemma BeyondTheEnd(s: State, events: seq<Event>)
    ensures forall j: nat :: |events| <= j ==> !TellsAt(s, events, j)
  {
  }

  /** The monitor has seen every change, and nothing is on its way. */
  predicate Settled(s: State) {
    !s.watch.pending && s.watch.sent.None?
  }

  /** Where no change is unseen, what is on its way is right, or the worker is. */
  predicate Informed(s: State) {
    !s.watch.pending ==> if s.watch.sent.Some? then s.watch.sent.value == (s.blocked != 0) else Right(s)
  }

  /** Nobody has woken the monitor, or when it last woke it held a handle and its call, once through,
      was heard. */
  ghost predicate ToldOnWaking(s: State, events: seq<Event>)
    decreases |events|
  {
    events == [] ||
    var front, e := events[..|events| - 1], events[|events| - 1];
    match e
    case Monitor(_) => Run(s, front).Some? && Run(s, front).value.watch.handle
    case Deliver(heard) => heard
    case _ => ToldOnWaking(s, front)
  }

  /** What is on its way is right as long as nothing changes. */
  predicate SentInformed(s: State) {
    !s.watch.pending && s.watch.sent.Some? ==> s.watch.sent.value == (s.blocked != 0)
  }

  lemma SentStaysInformed(s: State, e: Event)
    requires Enabled(s, e) && SentInformed(s)
    ensures SentInformed(Apply(s, e))
    ensures e == Deliver(true) || (e.Monitor? && s.watch.handle) ==> Informed(Apply(s, e))
    ensures !e.Monitor? && !e.Deliver? && Informed(s) ==> Informed(Apply(s, e))
  {
    match e
    case Advance(_, _) =>
    case Observe(_) =>
    case Disconnect(_) =>
    case _ =>
  }

  lemma {:induction false} ToldOnWakingInforms(s: State, events: seq<Event>)
    requires Run(s, events).Some? && Informed(s)
    ensures SentInformed(Run(s, events).value)
    ensures ToldOnWaking(s, events) ==> Informed(Run(s, events).value)
    decreases |events|
  {
    hide Enabled, Apply, Informed, SentInformed;
    if events == [] {
      InformedMeans(s);
    } else {
      var front, e := events[..|events| - 1], events[|events| - 1];
      RunFront(s, events);
      ToldOnWakingInforms(s, front);
      SentStaysInformed(Run(s, front).value, e);
    }
  }

  lemma InformedMeans(s: State)
    requires Informed(s)
    ensures SentInformed(s) && (Settled(s) ==> Right(s))
  {
  }

  /** The worker is right about being held back if and only if the counter is zero exactly as the last
      call it heard said. Once everything is settled that is so if the last call was heard, made with a
      handle; otherwise if and only if the counter has come back to what the worker heard before. */
  lemma WorkerIsRightIff(s: State, events: seq<Event>, told: bool)
    requires Run(s, events).Some? && HeardLast(s, events, told)
    ensures var t := Run(s, events).value;
            && (Right(t) <==> told == (t.blocked != 0))
            && (Settled(t) && Informed(s) ==>
                  (Right(t) <==> ToldOnWaking(s, events) || told == (t.blocked != 0)))
  {
    ToldIsHeardLast(s, events);
    LastTellingIsOne(s, events);
    if Informed(s) && ToldOnWaking(s, events) {
      ToldOnWakingInforms(s, events);
      InformedMeans(Run(s, events).value);
    }
  }

  lemma LastTellingIsOne(s: State, events: seq<Event>)
    ensures forall k: nat, l: nat :: LastTelling(s, events, k) && LastTelling(s, events, l) ==> k == l
  {
  }

  // ----- when the monitor wakes, by the events and the counter alone -----

  /** The server has a worker. */
  function IsAttached(attached: bool, events: seq<Event>): bool {
    attached || Attach in events
  }

  /** The monitor has found it: it looked for it when the server was not busy. */
  function HasHandle(handle: bool, attached: bool, events: seq<Event>): bool
    decreases |events|
  {
    if events == [] then handle
    else
      var front, e := events[..|events| - 1], events[|events| - 1];
      HasHandle(handle, attached, front) || (e == Monitor(false) && IsAttached(attached, front))
  }

  /** The counter has changed since the monitor woke last. */
  predicate ChangedSince(s: State, events: seq<Event>)
    requires Run(s, events).Some?
    decreases |events|
  {
    if events == [] then s.watch.pending
    else
      var front, e := events[..|events| - 1], events[|events| - 1];
      RunFront(s, events);
      !e.Monitor? && (ChangedSince(s, front) || Run(s, front).value.blocked != Run(s, events).value.blocked)
  }

  lemma WatchStep(s: State, e: Event)
    requires Enabled(s, e) && s.blocked < 256
    ensures var t := Apply(s, e);
            && (t.watch.pending <==> !e.Monitor? && (s.watch.pending || t.blocked != s.blocked))
            && (t.watch.attached <==> s.watch.attached || e == Attach)
            && (t.watch.handle <==> s.watch.handle || (e == Monitor(false) && s.watch.attached))
  {
    match e
    case Advance(_, _) =>
    case Observe(_) =>
    case Disconnect(_) =>
    case _ =>
  }

  /** Over every run the monitor wakes exactly when the counter has changed since it woke last and its last
      call is through; and it makes a call then exactly if it has found the worker before, which it does
      by waking while the server has a worker and is not busy. */
  lemma {:induction false} MonitorWakesIff(s: State, events: seq<Event>, locked: bool)
    requires Sane(s) && Run(s, events).Some?
    ensures var t := Run(s, events).value;
            && (t.watch.pending <==> ChangedSince(s, events))
            && (t.watch.attached <==> IsAttached(s.watch.attached, events))
            && (t.watch.handle <==> HasHandle(s.watch.handle, s.watch.attached, events))
            && (Enabled(t, Monitor(locked)) <==> ChangedSince(s, events) && t.watch.sent.None?)
            && (Enabled(t, Monitor(locked)) ==>
                  (Apply(t, Monitor(locked)).watch.sent
                   == if HasHandle(s.watch.handle, s.watch.attached, events) then Some(t.blocked != 0) else None))
    decreases |events|
  {
    if events != [] {
      var front, e := events[..|events| - 1], events[|events| - 1];
      assert events == front + [e];
      RunFront(s, events);
      MonitorWakesIff(s, front, locked);
      hide Apply, Enabled, Sane, Run;
      RunKeepsSane(s, front);
      SaneCounter(Run(s, front).value);
      WatchStep(Run(s, front).value, e);
    }
    WakesWithHandle(Run(s, events).value, locked);
  }

  lemma WakesWithHandle(t: State, locked: bool)
    ensures Enabled(t, Monitor(locked)) <==> t.watch.pending && t.watch.sent.None?
    ensures Enabled(t, Monitor(locked)) ==>
              Apply(t, Monitor(locked)).watch.sent == if t.watch.handle then Some(t.blocked != 0) else None
  {
  }

  lemma {:induction false} RunKeepsSane(s: State, events: seq<Event>)
    requires Sane(s) && Run(s, events).Some?
    ensures Sane(Run(s, events).value)
    decreases |events|
  {
    hide Sane, Enabled, Apply;
    if events != [] {
      ApplyKeepsSane(s, events[0]);
      RunKeepsSane(Apply(s, events[0]), events[1..]);
    }
  }

  /** Once the monitor has found the worker, a change that is unseen can always be told to it. */
  lemma ChangeCanBeTold(s: State) returns (events: seq<Event>)
    requires s.watch.handle && s.watch.pending
    ensures Run(s, events).Some?
    ensures var t := Run(s, events).value; Settled(t) && Right(t) && t.blocked == s.blocked
  {
    RunNone(s);
    events := [];
    var t := s;
    hide Run;
    if s.watch.sent.Some? { events, t := Then(s, events, t, Deliver(true)); }
    events, t := Then(s, events, t, Monitor(false));
    events, t := Then(s, events, t, Deliver(true));
  }

  /** So a server that got its worker after it started leaves that worker unaware of its first
      blocking client. */
  lemma FirstClientIsMissed(c: Uuid)
    ensures var s := Started0().(watch := Watch(false, false, false, false, None));
            var events := [Attach] + [Count(c)] + [Monitor(false)] + [Insert(c)];
            Run(s, events).Some?
            && var t := Run(s, events).value;
            t.blocked == 1 && !t.watch.pending && !t.watch.told
  {
    var s := Started0().(watch := Watch(false, false, false, false, None));
    RunNone(s);
    hide Run;
    var e1, s1 := Then(s, [], s, Attach);
    assert e1 == [Attach];
    var e2, s2 := Then(s, e1, s1, Count(c));
    var e3, s3 := Then(s, e2, s2, Monitor(false));
    var e4, s4 := Then(s, e3, s3, Insert(c));
  }

  // ----- the answers, by the events alone -----

  /** Whether the client is registered after the events, and whether it is a blocking one. */
  function Registered(events: seq<Event>, c: Uuid): Option<bool>
    decreases |events|
  {
    if events == [] then None
    else
      match events[|events| - 1]
      case Insert(d) => if d == c then Some(true) else Registered(events[..|events| - 1], c)
      case InsertFree(d) => if d == c then Some(false) else Registered(events[..|events| - 1], c)
      case Disconnect(d) => if d == c then None else Registered(events[..|events| - 1], c)
      case _ => Registered(events[..|events| - 1], c)
  }

  /** The clock after the events. */
  function ClockAfter(clock: nat, events: seq<Event>): nat
    decreases |events|
  {
    if events == [] then clock
    else if events[|events| - 1].ClockTo? then events[|events| - 1].clock
    else ClockAfter(clock, events[..|events| - 1])
  }

  /** The clock that the client's request read last. */
  function StartOf(clock: nat, events: seq<Event>, c: Uuid): nat
    decreases |events|
  {
    if events == [] then clock
    else if events[|events| - 1] == ReadClock(c) then ClockAfter(clock, events[..|events| - 1])
    else StartOf(clock, events[..|events| - 1], c)
  }

  /** A request that is taken up: by a blocking client, for one step or more. */
  predicate TakenUp(front: seq<Event>, e: Event) {
    e.Advance? && Registered(front, e.c) == Some(true) && e.steps >= 1
  }

  /** The steps that the client asked for last. */
  function StepsOf(events: seq<Event>, c: Uuid): int
    decreases |events|
  {
    if events == [] then 0
    else
      var front, e := events[..|events| - 1], events[|events| - 1];
      if TakenUp(front, e) && e.c == c then e.steps else StepsOf(front, c)
  }

  /** The answer that an event brings, after the events before it. */
  function Due(clock: nat, front: seq<Event>, e: Event): seq<Answer> {
    match e
    case Advance(c, k) =>
      if Registered(front, c) != Some(true) then [Refused(c)] else if k < 1 then [Invalid(c, k)] else []
    case Observe(c) =>
      var now, start, k := ClockAfter(clock, front), StartOf(clock, front, c), StepsOf(front, c);
      if now == start + k then [Advanced(c, start, k, now)]
      else if now > start + k then [TooFar(c, start, k, now)]
      else []
    case _ => []
  }

  function AllDue(clock: nat, events: seq<Event>): seq<Answer>
    decreases |events|
  {
    if events == [] then []
    else
      var front, e := events[..|events| - 1], events[|events| - 1];
      AllDue(clock, front) + Due(clock, front, e)
  }

  /** What the state records of a client is what the events say. */
  predicate Recorded(s: State, clock: nat, events: seq<Event>, c: Uuid) {
    && s.clock == ClockAfter(clock, events)
    && Registered(events, c) == (if c in s.clients then Some(s.clients[c]) else None)
    && (c in s.flights ==>
          && s.flights[c].steps == StepsOf(events, c)
          && (!s.flights[c].Checked? ==> s.flights[c].start == StartOf(clock, events, c)))
  }

  lemma RecordSnoc(clock: nat, front: seq<Event>, e: Event, c: Uuid)
    ensures var all := front + [e];
            && ClockAfter(clock, all) == (if e.ClockTo? then e.clock else ClockAfter(clock, front))
            && Registered(all, c)
               == (if e == Insert(c) then Some(true) else if e == InsertFree(c) then Some(false)
                   else if e == Disconnect(c) then None else Registered(front, c))
            && StartOf(clock, all, c)
               == (if e == ReadClock(c) then ClockAfter(clock, front) else StartOf(clock, front, c))
            && StepsOf(all, c) == if TakenUp(front, e) && e.c == c then e.steps else StepsOf(front, c)
  {
    var all := front + [e];
    assert all[..|all| - 1] == front && all[|all| - 1] == e;
  }

  lemma StepRecords(s: State, clock: nat, front: seq<Event>, e: Event, c: Uuid)
    requires Recorded(s, clock, front, c) && Enabled(s, e)
    ensures Recorded(Apply(s, e), clock, front + [e], c)
  {
    RecordSnoc(clock, front, e, c);
    hide ClockAfter, Registered, StartOf, StepsOf;
    match e
    case Advance(d, k) =>
    case Observe(d) =>
    case Disconnect(d) =>
    case _ =>
  }

  lemma StepAnswers(s: State, clock: nat, front: seq<Event>, e: Event)
    requires Enabled(s, e) && (e.Advance? || e.Observe? ==> Recorded(s, clock, front, e.c))
    ensures Apply(s, e).answers == s.answers + Due(clock, front, e)
  {
    hide ClockAfter, Registered, StartOf, StepsOf;
    match e
    case Advance(c, k) =>
    case Observe(c) =>
    case Disconnect(c) =>
    case _ =>
  }

  lemma {:induction false} RunRecords(s: State, events: seq<Event>, c: Uuid)
    requires NobodyLeft(s) && Run(s, events).Some?
    ensures Recorded(Run(s, events).value, s.clock, events, c)
    decreases |events|
  {
    if events != [] {
      hide Recorded, Enabled, Apply, NobodyLeft;
      var front, e := events[..|events| - 1], events[|events| - 1];
      assert events == front + [e];
      RunFront(s, events);
      RunRecords(s, front, c);
      StepRecords(Run(s, front).value, s.clock, front, e, c);
    }
  }

  /** Over every run from a server without clients the answers are those that the events call for: what
      was asked by whom, what the clock was then, and what it was when it was looked at. */
  lemma {:induction false} AnswersAreDue(s: State, events: seq<Event>)
    requires NobodyLeft(s) && s.answers == [] && Run(s, events).Some?
    ensures Run(s, events).value.answers == AllDue(s.clock, events)
    decreases |events|
  {
    hide Recorded, Enabled, Apply, Due, NobodyLeft;
    if events != [] {
      var front, e := events[..|events| - 1], events[|events| - 1];
      RunFront(s, events);
      AnswersAreDue(s, front);
      if e.Advance? || e.Observe? { RunRecords(s, front, e.c); }
      StepAnswers(Run(s, front).value, s.clock, front, e);
    }
  }

  // ----- every request is answered once -----

  /** Requests of the client that were taken up; those refused because it does not block; those refused
      for their steps; and the times it was seen past its target. */
  function TakenUpBy(events: seq<Event>, c: Uuid): nat
    decreases |events|
  {
    if events == [] then 0
    else
      var front, e := events[..|events| - 1], events[|events| - 1];
      TakenUpBy(front, c) + if TakenUp(front, e) && e.c == c then 1 else 0
  }

  function UnblockingBy(events: seq<Event>, c: Uuid): nat
    decreases |events|
  {
    if events == [] then 0
    else
      var front, e := events[..|events| - 1], events[|events| - 1];
      UnblockingBy(front, c) + if e.Advance? && e.c == c && Registered(front, c) != Some(true) then 1 else 0
  }

  function StepslessBy(events: seq<Event>, c: Uuid): nat
    decreases |events|
  {
    if events == [] then 0
    else
      var front, e := events[..|events| - 1], events[|events| - 1];
      StepslessBy(front, c)
      + if e.Advance? && e.c == c && Registered(front, c) == Some(true) && e.steps < 1 then 1 else 0
  }

  function PastTargetBy(clock: nat, events: seq<Event>, c: Uuid): nat
    decreases |events|
  {
    if events == [] then 0
    else
      var front, e := events[..|events| - 1], events[|events| - 1];
      PastTargetBy(clock, front, c)
      + if e == Observe(c) && ClockAfter(clock, front) > StartOf(clock, front, c) + StepsOf(front, c) then 1 else 0
  }

  /** The answers of one kind that the client got. */
  function Got(answers: seq<Answer>, c: Uuid, kind: Kind): nat
    decreases |answers|
  {
    if answers == [] then 0
    else
      var a := answers[|answers| - 1];
      Got(answers[..|answers| - 1], c, kind) + if a.c == c && KindOf(a) == kind then 1 else 0
  }

  datatype Kind = InTime | TooLate | NotBlocking | NoSteps

  function KindOf(a: Answer): Kind {
    match a
    case Refused(_) => NotBlocking
    case Invalid(_, _) => NoSteps
    case Advanced(_, _, _, _) => InTime
    case TooFar(_, _, _, _) => TooLate
  }

  lemma GotSnoc(answers: seq<Answer>, more: seq<Answer>, c: Uuid, kind: Kind)
    requires |more| <= 1
    ensures Got(answers + more, c, kind)
         == Got(answers, c, kind) + if more != [] && more[0].c == c && KindOf(more[0]) == kind then 1 else 0
  {
    if more == [] {
      assert answers + more == answers;
    } else {
      assert (answers + more)[..|answers + more| - 1] == answers;
    }
  }

  /** The counts after the events. */
  predicate Tallied(s: State, clock: nat, events: seq<Event>, c: Uuid) {
    && TakenUpBy(events, c)
       == Got(s.answers, c, InTime) + Got(s.answers, c, TooLate) + (if c in s.flights then 1 else 0)
    && PastTargetBy(clock, events, c) == Got(s.answers, c, TooLate)
    && UnblockingBy(events, c) == Got(s.answers, c, NotBlocking)
    && StepslessBy(events, c) == Got(s.answers, c, NoSteps)
  }

  /** What the answer to one event adds to the counts. */
  lemma TooLateCounts(clock: nat, front: seq<Event>, e: Event, answers: seq<Answer>, c: Uuid)
    ensures Got(answers + Due(clock, front, e), c, TooLate) - Got(answers, c, TooLate)
         == PastTargetBy(clock, front + [e], c) - PastTargetBy(clock, front, c)
  {
    var all, more := front + [e], Due(clock, front, e);
    assert all[..|all| - 1] == front && all[|all| - 1] == e;
    GotSnoc(answers, more, c, TooLate);
    hide Got, ClockAfter, Registered, StartOf, StepsOf;
  }

  lemma NotBlockingCounts(clock: nat, front: seq<Event>, e: Event, answers: seq<Answer>, c: Uuid)
    ensures Got(answers + Due(clock, front, e), c, NotBlocking) - Got(answers, c, NotBlocking)
         == UnblockingBy(front + [e], c) - UnblockingBy(front, c)
  {
    var all, more := front + [e], Due(clock, front, e);
    assert all[..|all| - 1] == front && all[|all| - 1] == e;
    GotSnoc(answers, more, c, NotBlocking);
    hide Got, ClockAfter, Registered, StartOf, StepsOf;
  }

  lemma NoStepsCounts(clock: nat, front: seq<Event>, e: Event, answers: seq<Answer>, c: Uuid)
    ensures Got(answers + Due(clock, front, e), c, NoSteps) - Got(answers, c, NoSteps)
         == StepslessBy(front + [e], c) - StepslessBy(front, c)
  {
    var all, more := front + [e], Due(clock, front, e);
    assert all[..|all| - 1] == front && all[|all| - 1] == e;
    GotSnoc(answers, more, c, NoSteps);
    hide Got, ClockAfter, Registered, StartOf, StepsOf;
  }

  /** A request that is taken up is under way until it is answered. */
  lemma FlightStep(s: State, clock: nat, front: seq<Event>, e: Event, c: Uuid)
    requires Enabled(s, e) && Recorded(s, clock, front, c)
    ensures c in Apply(s, e).flights
       <==> (TakenUp(front, e) && e.c == c) || (c in s.flights && (e == Observe(c) ==> Due(clock, front, e) == []))
    ensures TakenUp(front, e) && e.c == c ==> c !in s.flights
    ensures e == Observe(c) ==> c in s.flights
  {
    hide ClockAfter, Registered, StartOf, StepsOf;
    match e
    case Advance(_, _) =>
    case Observe(_) =>
    case Disconnect(_) =>
    case _ =>
  }

  lemma FlightCounts(s: State, clock: nat, front: seq<Event>, e: Event, c: Uuid)
    requires Enabled(s, e) && Recorded(s, clock, front, c)
    ensures var t, more := Apply(s, e), s.answers + Due(clock, front, e);
            TakenUpBy(front + [e], c) - TakenUpBy(front, c)
            == Got(more, c, InTime) - Got(s.answers, c, InTime) + Got(more, c, TooLate) - Got(s.answers, c, TooLate)
               + (if c in t.flights then 1 else 0) - (if c in s.flights then 1 else 0)
  {
    FlightStep(s, clock, front, e, c);
    var all, more := front + [e], Due(clock, front, e);
    assert all[..|all| - 1] == front && all[|all| - 1] == e;
    GotSnoc(s.answers, more, c, InTime);
    GotSnoc(s.answers, more, c, TooLate);
    DueKind(clock, front, e);
    hide Got, Due, Enabled, Apply, Recorded, TakenUp;
  }

  lemma DueKind(clock: nat, front: seq<Event>, e: Event)
    ensures var more := Due(clock, front, e);
            && |more| <= 1
            && (more != [] ==> (e.Advance? || e.Observe?) && more[0].c == e.c)
            && (more != [] ==> ((KindOf(more[0]) == InTime || KindOf(more[0]) == TooLate) <==> e.Observe?))
  {
  }

  /** Over every run from a server without clients each request that is taken up is answered once or
      still under way; it fails exactly if the client was seen past its target. A request of a client
      that does not block, or for no steps, is refused each time. */
  lemma {:induction false} EachIsAnswered(s: State, events: seq<Event>, c: Uuid)
    requires NobodyLeft(s) && s.answers == [] && Run(s, events).Some?
    ensures var t := Run(s, events).value;
            && TakenUpBy(events, c)
               == Got(t.answers, c, InTime) + Got(t.answers, c, TooLate) + (if c in t.flights then 1 else 0)
            && Got(t.answers, c, TooLate) == PastTargetBy(s.clock, events, c)
            && Got(t.answers, c, NotBlocking) == UnblockingBy(events, c)
            && Got(t.answers, c, NoSteps) == StepslessBy(events, c)
  {
    TalliedRun(s, events, c);
  }

  lemma TallyStep(s: State, clock: nat, front: seq<Event>, e: Event, c: Uuid)
    requires Enabled(s, e) && Recorded(s, clock, front, c) && Tallied(s, clock, front, c)
    requires e.Advance? || e.Observe? ==> Recorded(s, clock, front, e.c)
    ensures Tallied(Apply(s, e), clock, front + [e], c)
  {
    hide Recorded, Enabled, Apply, Due, Got, TakenUpBy, PastTargetBy, UnblockingBy, StepslessBy;
    StepAnswers(s, clock, front, e);
    TooLateCounts(clock, front, e, s.answers, c);
    NotBlockingCounts(clock, front, e, s.answers, c);
    NoStepsCounts(clock, front, e, s.answers, c);
    FlightCounts(s, clock, front, e, c);
  }

  lemma {:induction false} TalliedRun(s: State, events: seq<Event>, c: Uuid)
    requires NobodyLeft(s) && s.answers == [] && Run(s, events).Some?
    ensures Tallied(Run(s, events).value, s.clock, events, c)
    decreases |events|
  {
    if events != [] {
      var front, e := events[..|events| - 1], events[|events| - 1];
      assert events == front + [e];
      hide Tallied, Recorded, Enabled, Apply, NobodyLeft;
      RunFront(s, events);
      hide Run;
      TalliedRun(s, front, c);
      RunRecords(s, front, c);
      if e.Advance? || e.Observe? { RunRecords(s, front, e.c); }
      TallyStep(Run(s, front).value, s.clock, front, e, c);
    }
  }
}
