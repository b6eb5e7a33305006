/** The two-phase step: the leader waits until every worker is unblocked, then all step in parallel. */
module Barrier {
  import opened Common
  import opened Rpc

  datatype Phase = Idle | Asking | Stepping

  /** How far a worker got in the current round. `Unheard`, `Missed` and `Botched` stand for failed
      calls, which the leader only logs: a missed step has not written the clock, a botched one has. */
  datatype Stage =
    | Resting | Asked | Reported | Unheard
    | StepSent | ClockRead(clock: nat) | ClockWritten | Stepped | Missed | Botched

  datatype State = State(
    leader: nat, phase: Phase, clocks: map<Uuid, nat>, stages: map<Uuid, Stage>,
    blocked: map<Uuid, bool>, missed: map<Uuid, nat>)

  /** One atomic step of the leader, of a worker, or of whoever blocks a worker. What a worker does
      after it has written its clock ends in `StepDone` or in `RestFails`. */
  datatype Event =
    | Toggle(w: Uuid, value: bool)
    | Begin
    | Report(w: Uuid)
    | AskFails(w: Uuid)
    | Release
    | ReadClock(w: Uuid)
    | WriteClock(w: Uuid)
    | StepDone(w: Uuid)
    | StepFails(w: Uuid)
    | RestFails(w: Uuid)
    | Finish

  predicate Answered(t: Stage) {
    t.Reported? || t.Unheard?
  }

  predicate Done(t: Stage) {
    t.Stepped? || t.Missed? || t.Botched?
  }

  /** The worker's clock will not change any more in this round. */
  predicate Through(t: Stage) {
    t.ClockWritten? || Done(t)
  }

  predicate WellFormed(s: State) {
    s.stages.Keys == s.clocks.Keys && s.blocked.Keys == s.clocks.Keys && s.missed.Keys == s.clocks.Keys
  }

  predicate Enabled(s: State, e: Event)
    requires WellFormed(s)
  {
    match e
    case Toggle(w, _) => w in s.clocks
    case Begin => s.phase.Idle? && s.clocks != map[]
    case Report(w) => s.phase.Asking? && w in s.clocks && s.stages[w].Asked? && !s.blocked[w]
    case AskFails(w) => s.phase.Asking? && w in s.clocks && s.stages[w].Asked?
    case Release => s.phase.Asking? && forall w :: w in s.stages ==> Answered(s.stages[w])
    case ReadClock(w) => s.phase.Stepping? && w in s.clocks && s.stages[w].StepSent?
    case WriteClock(w) => s.phase.Stepping? && w in s.clocks && s.stages[w].ClockRead?
    case StepDone(w) => s.phase.Stepping? && w in s.clocks && s.stages[w].ClockWritten?
    case StepFails(w) => s.phase.Stepping? && w in s.clocks && (s.stages[w].StepSent? || s.stages[w].ClockRead?)
    case RestFails(w) => s.phase.Stepping? && w in s.clocks && s.stages[w].ClockWritten?
    case Finish => s.phase.Stepping? && forall w :: w in s.stages ==> Done(s.stages[w])
  }

  function AllAt(s: State, t: Stage): map<Uuid, Stage> {
    map w | w in s.stages :: t
  }

  function Apply(s: State, e: Event): (t: State)
    requires WellFormed(s) && Enabled(s, e)
    ensures WellFormed(t) && t.clocks.Keys == s.clocks.Keys
  {
    match e
    case Toggle(w, b) => s.(blocked := s.blocked[w := b])
    case Begin => s.(phase := Asking, stages := AllAt(s, Asked))
    case Report(w) => s.(stages := s.stages[w := Reported])
    case AskFails(w) => s.(stages := s.stages[w := Unheard])
    case Release => s.(phase := Stepping, stages := AllAt(s, StepSent))
    case ReadClock(w) => s.(stages := s.stages[w := ClockRead(s.clocks[w])])
    case WriteClock(w) => s.(clocks := s.clocks[w := s.stages[w].clock + 1], stages := s.stages[w := ClockWritten])
    case StepDone(w) => s.(stages := s.stages[w := Stepped])
    case StepFails(w) => s.(stages := s.stages[w := Missed], missed := s.missed[w := s.missed[w] + 1])
    case RestFails(w) => s.(stages := s.stages[w := Botched])
    case Finish => s.(leader := s.leader + 1, phase := Idle, stages := AllAt(s, Resting))
  }

  // ----- runs -----

  /** The state after the events, if each of them was enabled in turn. */
  function Run(s: State, events: seq<Event>): (r: Option<State>)
    requires WellFormed(s)
    ensures r.Some? ==> WellFormed(r.value) && r.value.clocks.Keys == s.clocks.Keys
    decreases |events|
  {
    if events == [] then Some(s)
    else
      var before := Run(s, events[..|events| - 1]);
      if before.Some? && Enabled(before.value, events[|events| - 1])
      then Some(Apply(before.value, events[|events| - 1]))
      else None
  }

  ghost predicate Initial(s: State) {
    && WellFormed(s) && s.phase.Idle?
    && forall w :: w in s.clocks ==> s.clocks[w] == s.leader && s.stages[w].Resting? && s.missed[w] == 0
  }

  predicate Fits(p: Phase, t: Stage) {
    match p
    case Idle => t.Resting?
    case Asking => t.Asked? || Answered(t)
    case Stepping => t.StepSent? || t.ClockRead? || Through(t)
  }

  /** A worker's clock and its missed steps add up to the rounds it is through. */
  predicate InvAt(phase: Phase, leader: nat, stage: Stage, clock: nat, missed: nat) {
    && Fits(phase, stage)
    && clock + missed == leader + (if Through(stage) then 1 else 0)
    && (stage.ClockRead? ==> stage.clock == clock)
  }

  ghost predicate Inv(s: State) {
    && WellFormed(s)
    && forall w :: w in s.clocks ==> InvAt(s.phase, s.leader, s.stages[w], s.clocks[w], s.missed[w])
  }

  lemma ApplyKeepsAt(s: State, e: Event, w: Uuid)
    requires WellFormed(s) && Enabled(s, e) && w in s.clocks
    requires InvAt(s.phase, s.leader, s.stages[w], s.clocks[w], s.missed[w])
    ensures var t := Apply(s, e); InvAt(t.phase, t.leader, t.stages[w], t.clocks[w], t.missed[w])
  {
    assert w in s.stages;
    match e
    case Toggle(_, _) =>
    case Begin =>
    case Release =>
    case Finish =>
    case _ => if e.w == w { OwnStepKeeps(s, e); }
  }

  lemma OwnStepKeeps(s: State, e: Event)
    requires WellFormed(s) && Enabled(s, e) && !e.Begin? && !e.Release? && !e.Finish? && !e.Toggle?
    requires InvAt(s.phase, s.leader, s.stages[e.w], s.clocks[e.w], s.missed[e.w])
    ensures var t := Apply(s, e); InvAt(t.phase, t.leader, t.stages[e.w], t.clocks[e.w], t.missed[e.w])
  {
    match e
    case WriteClock(_) =>
    case StepFails(_) =>
    case _ =>
  }

  lemma {:induction false} ApplyKeepsInv(s: State, e: Event)
    requires Inv(s) && Enabled(s, e)
    ensures Inv(Apply(s, e))
  {
    hide Apply, Enabled, InvAt;
    var t := Apply(s, e);
    forall w | w in t.clocks
      ensures InvAt(t.phase, t.leader, t.stages[w], t.clocks[w], t.missed[w])
    {
      ApplyKeepsAt(s, e, w);
    }
  }

  lemma {:induction false} RunKeepsInv(s: State, events: seq<Event>)
    requires Initial(s) && Run(s, events).Some?
    ensures Inv(Run(s, events).value)
    decreases |events|
  {
    if events != [] {
      var front := events[..|events| - 1];
      RunKeepsInv(s, front);
      ApplyKeepsInv(Run(s, front).value, events[|events| - 1]);
    }
  }

  /** What a worker has missed is the steps that failed before they had written its clock. */
  lemma {:induction false} MissedIff(s: State, events: seq<Event>, w: Uuid)
    requires Initial(s) && Run(s, events).Some? && w in s.clocks
    ensures Run(s, events).value.missed[w] == 0 <==> StepFails(w) !in events
    decreases |events|
  {
    hide Apply, Enabled;
    if events != [] {
      var front, e := events[..|events| - 1], events[|events| - 1];
      assert events == front + [e];
      MissedIff(s, front, w);
      MissedStep(Run(s, front).value, e, w);
    }
  }

  lemma MissedStep(s: State, e: Event, w: Uuid)
    requires WellFormed(s) && Enabled(s, e) && w in s.clocks
    ensures Apply(s, e).missed[w] == s.missed[w] + if e == StepFails(w) then 1 else 0
  {
  }

  /** In every interleaving a worker none of whose steps failed before it had written the clock is at the
      leader's clock or one more, and at the leader's between rounds. */
  lemma {:induction false} ClocksStayTogether(s: State, events: seq<Event>, w: Uuid)
    requires Initial(s) && Run(s, events).Some? && w in s.clocks && StepFails(w) !in events
    ensures var t := Run(s, events).value;
            t.leader <= t.clocks[w] <= t.leader + 1 && (t.phase.Idle? ==> t.clocks[w] == t.leader)
  {
    RunKeepsInv(s, events);
    MissedIff(s, events, w);
  }

  /** With failures the leader counts the round all the same: a worker agrees with it between rounds
      if and only if it missed no step, that is, each one wrote its clock, whatever came of the rest. */
  lemma {:induction false} AgreesIffNothingMissed(s: State, events: seq<Event>, w: Uuid)
    requires Initial(s) && Run(s, events).Some? && w in s.clocks && Run(s, events).value.phase.Idle?
    ensures Run(s, events).value.clocks[w] == Run(s, events).value.leader <==> Run(s, events).value.missed[w] == 0
    ensures Run(s, events).value.clocks[w] == Run(s, events).value.leader <==> StepFails(w) !in events
  {
    RunKeepsInv(s, events);
    MissedIff(s, events, w);
  }

  /** No worker starts its next step before every other one is through with the current one. */
  lemma {:induction false} NobodyRunsAhead(s: State, events: seq<Event>, v: Uuid, w: Uuid)
    requires Initial(s) && Run(s, events).Some? && v in s.clocks && w in s.clocks
    requires Enabled(Run(s, events).value, ReadClock(w))
    ensures var t := Run(s, events).value; t.clocks[w] + t.missed[w] <= t.clocks[v] + t.missed[v]
  {
    RunKeepsInv(s, events);
  }

  // ----- what a round waits for -----

  /** The j-th event ends the leader's question to the worker: an answer while it is not blocked, or a
      call that failed. */
  ghost predicate AnswerAt(s: State, events: seq<Event>, j: nat, w: Uuid)
    requires WellFormed(s) && j < |events|
  {
    || events[j] == AskFails(w)
    || (events[j] == Report(w)
        && var t := Run(s, events[..j]); t.Some? && w in t.value.blocked && !t.value.blocked[w])
  }

  /** In the current round the worker's question was ended. */
  ghost predicate AnsweredSince(s: State, events: seq<Event>, w: Uuid)
    requires WellFormed(s)
  {
    exists j :: 0 <= j < |events| && AnswerAt(s, events, j, w) && forall k :: j < k < |events| ==> !events[k].Begin?
  }

  lemma AnsweredSnoc(s: State, events: seq<Event>, e: Event, w: Uuid)
    requires WellFormed(s) && Run(s, events).Some? && Enabled(Run(s, events).value, e) && !e.Begin?
    requires AnsweredSince(s, events, w) || e == Report(w) || e == AskFails(w)
    ensures AnsweredSince(s, events + [e], w)
  {
    hide Run;
    var more := events + [e];
    assert more[..|events|] == events;
    if e == Report(w) || e == AskFails(w) {
      assert AnswerAt(s, more, |events|, w);
    } else {
      var j :| 0 <= j < |events| && AnswerAt(s, events, j, w) && forall k :: j < k < |events| ==> !events[k].Begin?;
      assert more[j] == events[j] && more[..j] == events[..j];
      assert AnswerAt(s, more, j, w);
    }
  }

  lemma AnswersComeFirst(s: State, e: Event, w: Uuid)
    requires Inv(s) && Enabled(s, e) && w in s.clocks
    requires Answered(Apply(s, e).stages[w]) || Apply(s, e).phase.Stepping?
    ensures !e.Begin?
    ensures Answered(s.stages[w]) || s.phase.Stepping? || e == Report(w) || e == AskFails(w)
  {
    assert w in s.stages && Fits(s.phase, s.stages[w]);
  }

  lemma {:induction false} StagesRecordAnswers(s: State, events: seq<Event>, w: Uuid)
    requires Initial(s) && Run(s, events).Some? && w in s.clocks
    ensures Answered(Run(s, events).value.stages[w]) || Run(s, events).value.phase.Stepping?
        ==> AnsweredSince(s, events, w)
    decreases |events|
  {
    hide Apply, Enabled, Inv, AnsweredSince;
    if events != [] {
      var front, e := events[..|events| - 1], events[|events| - 1];
      assert events == front + [e];
      StagesRecordAnswers(s, front, w);
      RunKeepsInv(s, front);
      var t := Run(s, events).value;
      if Answered(t.stages[w]) || t.phase.Stepping? {
        AnswersComeFirst(Run(s, front).value, e, w);
        AnsweredSnoc(s, front, e, w);
      }
    }
  }

  /** No step is sent before, in that round, every worker answered while it was not blocked; or the
      call that asked it failed. */
  lemma {:induction false} StepsWaitForAnswers(s: State, events: seq<Event>, i: nat, w: Uuid)
    requires Initial(s) && i < |events| && Run(s, events[..i + 1]).Some? && events[i].Release? && w in s.clocks
    ensures AnsweredSince(s, events[..i], w)
  {
    assert events[..i + 1][..i] == events[..i];
    StagesRecordAnswers(s, events[..i], w);
  }

  /** How often the worker's question was ended in the current round. */
  function AnswersInRound(events: seq<Event>, w: Uuid): nat
    decreases |events|
  {
    if events == [] then 0
    else
      var front, e := events[..|events| - 1], events[|events| - 1];
      if e.Begin? then 0
      else AnswersInRound(front, w) + if e == Report(w) || e == AskFails(w) then 1 else 0
  }

  lemma AnswersSnoc(front: seq<Event>, e: Event, w: Uuid)
    ensures AnswersInRound(front + [e], w)
         == if e.Begin? then 0 else AnswersInRound(front, w) + if e == Report(w) || e == AskFails(w) then 1 else 0
  {
    var events := front + [e];
    assert events[..|events| - 1] == front && events[|events| - 1] == e;
  }

  /** Whether it was, as the state has it. */
  predicate AnswersRecorded(s: State, n: nat, w: Uuid) {
    && w in s.stages && n <= 1
    && (s.phase.Asking? ==> n == if Answered(s.stages[w]) then 1 else 0)
    && (s.phase.Stepping? ==> n == 1)
  }

  lemma StepRecordsAnswers(s: State, e: Event, n: nat, w: Uuid)
    requires Inv(s) && Enabled(s, e) && AnswersRecorded(s, n, w)
    ensures var more := if e.Begin? then 0 else n + if e == Report(w) || e == AskFails(w) then 1 else 0;
            AnswersRecorded(Apply(s, e), more, w)
  {
    assert w in s.clocks && InvAt(s.phase, s.leader, s.stages[w], s.clocks[w], s.missed[w]);
    match e
    case Report(v) =>
    case AskFails(v) =>
    case Release =>
    case _ =>
  }

  /** In each round every worker's question is ended once at most, and once before steps are sent. */
  lemma {:induction false} AnswersOnce(s: State, events: seq<Event>, w: Uuid)
    requires Initial(s) && Run(s, events).Some? && w in s.clocks
    ensures AnswersRecorded(Run(s, events).value, AnswersInRound(events, w), w)
    decreases |events|
  {
    if events != [] {
      hide Apply, Enabled, Inv, AnswersRecorded, AnswersInRound;
      var front, e := events[..|events| - 1], events[|events| - 1];
      assert events == front + [e];
      AnswersOnce(s, front, w);
      RunKeepsInv(s, front);
      StepRecordsAnswers(Run(s, front).value, e, AnswersInRound(front, w), w);
      AnswersSnoc(front, e, w);
    }
  }

  /** Without workers no round begins. */
  lemma {:induction false} NoWorkersNoRound(s: State, events: seq<Event>)
    requires Initial(s) && s.clocks == map[] && Run(s, events).Some?
    ensures Run(s, events) == Some(s)
    decreases |events|
  {
    if events != [] { NoWorkersNoRound(s, events[..|events| - 1]); }
  }

  predicate Toggles(e: Event, w: Uuid) {
    e.Toggle? && e.w == w
  }

  /** The worker was blocked after its last answer, and that was the last change. */
  ghost predicate BlockedAgain(events: seq<Event>, w: Uuid) {
    exists i ::
      && 0 <= i < |events| && events[i] == Toggle(w, true)
      && forall k :: i < k < |events| ==> events[k] != Report(w) && !Toggles(events[k], w)
  }

  lemma BlockedAgainSnoc(events: seq<Event>, e: Event, w: Uuid)
    ensures BlockedAgain(events + [e], w)
       <==> if e == Report(w) then false else if Toggles(e, w) then e.value else BlockedAgain(events, w)
  {
    var more, n := events + [e], |events|;
    if e == Toggle(w, true) {
      assert more[n] == e;
    }
    if BlockedAgain(more, w) && e != Toggle(w, true) {
      var i :| 0 <= i < |more| && more[i] == Toggle(w, true)
            && forall k :: i < k < |more| ==> more[k] != Report(w) && !Toggles(more[k], w);
      assert more[n] == e && i < n && events[i] == more[i];
      assert forall k :: i < k < n ==> events[k] == more[k];
    }
    if e != Report(w) && !Toggles(e, w) && BlockedAgain(events, w) {
      var i :| 0 <= i < |events| && events[i] == Toggle(w, true)
            && forall k :: i < k < |events| ==> events[k] != Report(w) && !Toggles(events[k], w);
      assert more[i] == events[i] && forall k :: i < k < |more| ==> more[k] == if k < n then events[k] else e;
    }
  }

  lemma BlockedStep(s: State, e: Event, w: Uuid)
    requires Inv(s) && Enabled(s, e) && w in s.clocks && e != AskFails(w)
    requires !s.stages[w].Unheard?
    ensures var t := Apply(s, e);
            && !t.stages[w].Unheard?
            && t.blocked[w] == (if Toggles(e, w) then e.value else s.blocked[w])
            && (e == Report(w) ==> !s.blocked[w])
            && (!(t.stages[w].Resting? || t.stages[w].Asked?) && e != Report(w)
                ==> !(s.stages[w].Resting? || s.stages[w].Asked?))
  {
    assert w in s.stages && Fits(s.phase, s.stages[w]);
  }

  /** An answer is not taken back. From its answer to the end of the round a worker that could be
      asked is blocked if and only if it was blocked again after the answer. */
  lemma {:induction false} BlockedSinceAnswerIff(s: State, events: seq<Event>, w: Uuid)
    requires Initial(s) && Run(s, events).Some? && w in s.clocks && AskFails(w) !in events
    ensures var t := Run(s, events).value;
            && !t.stages[w].Unheard?
            && (!(t.stages[w].Resting? || t.stages[w].Asked?) ==> (t.blocked[w] <==> BlockedAgain(events, w)))
    decreases |events|
  {
    hide Apply, Enabled, Inv, BlockedAgain;
    if events != [] {
      var front, e := events[..|events| - 1], events[|events| - 1];
      assert events == front + [e];
      BlockedSinceAnswerIff(s, front, w);
      RunKeepsInv(s, front);
      BlockedStep(Run(s, front).value, e, w);
      BlockedAgainSnoc(front, e, w);
    }
  }

  /** So a worker that is about to step is blocked if and only if that happened in this round. */
  lemma BlockedWhenSteppedIff(s: State, events: seq<Event>, w: Uuid)
    requires Initial(s) && Run(s, events).Some? && w in s.clocks && AskFails(w) !in events
    requires Enabled(Run(s, events).value, ReadClock(w))
    ensures Run(s, events).value.blocked[w] <==> BlockedAgain(events, w)
    ensures AnsweredSince(s, events, w)
  {
    hide BlockedAgain, AnsweredSince;
    BlockedSinceAnswerIff(s, events, w);
    StagesRecordAnswers(s, events, w);
  }

  ghost predicate Held(s: State, w: Uuid, leader: nat, clocks: map<Uuid, nat>) {
    && WellFormed(s) && w in s.clocks
    && s.leader == leader && s.clocks == clocks
    && s.phase.Asking? && s.stages[w].Asked? && s.blocked[w]
  }

  lemma StepKeepsHeld(s: State, e: Event, w: Uuid, leader: nat, clocks: map<Uuid, nat>)
    requires Held(s, w, leader, clocks) && Enabled(s, e) && e != Toggle(w, false) && e != AskFails(w)
    ensures Held(Apply(s, e), w, leader, clocks)
  {
    assert w in s.stages;
  }

  /** While one worker that was asked stays blocked and reachable, no clock anywhere changes. */
  lemma {:induction false} BlockedWorkerHoldsAll(s: State, events: seq<Event>, w: Uuid, leader: nat,
                                                 clocks: map<Uuid, nat>)
    requires Held(s, w, leader, clocks) && Run(s, events).Some?
    requires forall e :: e in events ==> e != Toggle(w, false) && e != AskFails(w)
    ensures Held(Run(s, events).value, w, leader, clocks)
    decreases |events|
  {
    hide Apply, Enabled;
    if events != [] {
      var front, e := events[..|events| - 1], events[|events| - 1];
      assert e in events && forall x :: x in front ==> x in events;
      BlockedWorkerHoldsAll(s, front, w, leader, clocks);
      StepKeepsHeld(Run(s, front).value, e, w, leader, clocks);
    }
  }

  // ----- a round gets through -----

  lemma RunSnoc(s: State, events: seq<Event>, e: Event)
    requires WellFormed(s) && Run(s, events).Some? && Enabled(Run(s, events).value, e)
    ensures Run(s, events + [e]) == Some(Apply(Run(s, events).value, e))
  {
    assert (events + [e])[..|events|] == events;
  }

  lemma RunNone(s: State)
    requires WellFormed(s)
    ensures Run(s, []) == Some(s)
  {
  }

  lemma Then(s: State, events: seq<Event>, e: Event, now: State) returns (more: seq<Event>, t: State)
    requires WellFormed(s) && Run(s, events) == Some(now) && Enabled(now, e)
    ensures t == Apply(now, e) && more == events + [e] && Run(s, more) == Some(t)
  {
    RunSnoc(s, events, e);
    t := Apply(now, e);
    more := events + [e];
  }

  lemma {:induction false} RunConcat(s: State, a: seq<Event>, b: seq<Event>)
    requires WellFormed(s) && Run(s, a).Some?
    ensures Run(s, a + b) == Run(Run(s, a).value, b)
    decreases |b|
  {
    if b == [] {
      assert a + b == a;
    } else {
      var front := b[..|b| - 1];
      RunConcat(s, a, front);
      assert (a + b)[..|a + b| - 1] == a + front;
    }
  }

  function AskedOnes(s: State): set<Uuid> {
    set w | w in s.stages && s.stages[w].Asked?
  }

  function UnsteppedOnes(s: State): set<Uuid> {
    set w | w in s.stages && !Done(s.stages[w])
  }

  predicate Kept(s: State, t: State) {
    t.leader == s.leader && t.missed == s.missed && t.blocked == s.blocked
  }

  lemma Answering(s: State, w: Uuid)
    requires Inv(s) && s.phase.Asking? && w in AskedOnes(s) && !s.blocked[w]
    ensures Enabled(s, Report(w))
    ensures var t := Apply(s, Report(w));
            t.phase.Asking? && Kept(s, t)
            && AskedOnes(t) == AskedOnes(s) - {w}
  {
  }

  lemma {:induction false} AnswersArrive(s: State) returns (events: seq<Event>)
    requires Inv(s) && s.phase.Asking?
    requires forall w :: w in AskedOnes(s) ==> w in s.blocked && !s.blocked[w]
    ensures Run(s, events).Some? && Inv(Run(s, events).value) && Enabled(Run(s, events).value, Release)
    ensures Kept(s, Run(s, events).value)
    decreases |AskedOnes(s)|
  {
    RunNone(s);
    events := [];
    if w :| w in AskedOnes(s) {
      Answering(s, w);
      ApplyKeepsInv(s, Report(w));
      hide Run, Enabled, Apply, Inv;
      var first, t := Then(s, [], Report(w), s);
      var rest := AnswersArrive(t);
      RunConcat(s, first, rest);
      events := first + rest;
    } else {
      forall w | w in s.stages
        ensures Answered(s.stages[w])
      {
        assert w !in AskedOnes(s);
        assert w in s.clocks && Fits(s.phase, s.stages[w]);
      }
    }
  }

  lemma ReadingClock(s: State, w: Uuid)
    requires Inv(s) && s.phase.Stepping? && w in s.clocks && s.stages[w].StepSent?
    ensures Enabled(s, ReadClock(w))
    ensures var t := Apply(s, ReadClock(w));
            t.phase.Stepping? && Kept(s, t)
            && UnsteppedOnes(t) == UnsteppedOnes(s) && t.stages[w].ClockRead?
  {
  }

  lemma WritingClock(s: State, w: Uuid)
    requires Inv(s) && s.phase.Stepping? && w in s.clocks && s.stages[w].ClockRead?
    ensures Enabled(s, WriteClock(w))
    ensures var t := Apply(s, WriteClock(w));
            t.phase.Stepping? && Kept(s, t)
            && UnsteppedOnes(t) == UnsteppedOnes(s) && t.stages[w].ClockWritten?
  {
  }

  lemma DoingRest(s: State, w: Uuid)
    requires Inv(s) && s.phase.Stepping? && w in s.clocks && s.stages[w].ClockWritten?
    ensures Enabled(s, StepDone(w))
    ensures var t := Apply(s, StepDone(w));
            t.phase.Stepping? && Kept(s, t)
            && UnsteppedOnes(t) == UnsteppedOnes(s) - {w}
  {
  }

  /** The three steps of one worker, or those that are left of them. */
  lemma OneStepArrives(s: State, w: Uuid) returns (events: seq<Event>, t: State)
    requires Inv(s) && s.phase.Stepping? && w in UnsteppedOnes(s)
    ensures Run(s, events) == Some(t) && Inv(t) && t.phase.Stepping?
    ensures Kept(s, t) && UnsteppedOnes(t) == UnsteppedOnes(s) - {w}
  {
    RunNone(s);
    assert w in s.clocks && Fits(s.phase, s.stages[w]);
    assert s.stages[w].StepSent? || s.stages[w].ClockRead? || s.stages[w].ClockWritten?;
    hide Run, Enabled, Apply, Inv, UnsteppedOnes;
    events := [];
    var r := s;
    if s.stages[w].StepSent? {
      ReadingClock(s, w);
      ApplyKeepsInv(s, ReadClock(w));
      events, r := Then(s, events, ReadClock(w), s);
    }
    if r.stages[w].ClockRead? {
      WritingClock(r, w);
      ApplyKeepsInv(r, WriteClock(w));
      events, r := Then(s, events, WriteClock(w), r);
    }
    DoingRest(r, w);
    ApplyKeepsInv(r, StepDone(w));
    events, t := Then(s, events, StepDone(w), r);
  }

  lemma {:induction false} StepsArrive(s: State) returns (events: seq<Event>)
    requires Inv(s) && s.phase.Stepping?
    ensures Run(s, events).Some? && Inv(Run(s, events).value) && Enabled(Run(s, events).value, Finish)
    ensures Kept(s, Run(s, events).value)
    decreases |UnsteppedOnes(s)|
  {
    if w :| w in UnsteppedOnes(s) {
      var first, t := OneStepArrives(s, w);
      var rest := StepsArrive(t);
      RunConcat(s, first, rest);
      events := first + rest;
    } else {
      events := [];
      forall w | w in s.stages
        ensures Done(s.stages[w])
      {
        assert w !in UnsteppedOnes(s);
      }
    }
  }

  /** A round never deadlocks: if nobody that was asked is blocked it can be brought to its end, where
      every clock has advanced to the leader's new one. */
  lemma {:induction false} RoundCanComplete(s: State) returns (events: seq<Event>)
    requires Inv(s) && s.phase.Asking?
    requires forall w :: w in s.clocks && s.stages[w].Asked? ==> !s.blocked[w]
    ensures Run(s, events).Some?
    ensures var t := Run(s, events).value;
            t.phase.Idle? && t.leader == s.leader + 1 && t.missed == s.missed && t.blocked == s.blocked
            && forall w :: w in t.clocks ==> t.clocks[w] + t.missed[w] == t.leader
  {
    var asked := AnswersArrive(s);
    var a := Run(s, asked).value;
    RunSnoc(s, asked, Release);
    ApplyKeepsInv(a, Release);
    var b := Apply(a, Release);
    var stepped := StepsArrive(b);
    RunConcat(s, asked + [Release], stepped);
    var c := Run(b, stepped).value;
    RunSnoc(s, asked + [Release] + stepped, Finish);
    ApplyKeepsInv(c, Finish);
    events := asked + [Release] + stepped + [Finish];
  }

  /** Blocking a worker that has answered does not keep the round from completing. */
  lemma {:induction false} BlockedAgainIsStepped(s: State, w: Uuid) returns (events: seq<Event>)
    requires Inv(s) && s.phase.Asking? && w in s.clocks && s.stages[w].Reported?
    requires forall v :: v in s.clocks && s.stages[v].Asked? ==> !s.blocked[v]
    ensures events != [] && events[0] == Toggle(w, true) && Run(s, events).Some?
    ensures var t := Run(s, events).value;
            t.phase.Idle? && t.leader == s.leader + 1 && t.blocked[w] && t.missed == s.missed
            && t.clocks[w] == s.clocks[w] + 1
  {
    var e := Toggle(w, true);
    var t := Apply(s, e);
    ApplyKeepsInv(s, e);
    var rest := RoundCanComplete(t);
    RunNone(s);
    RunSnoc(s, [], e);
    assert [] + [e] == [e];
    hide Run;
    RunConcat(s, [e], rest);
    events := [e] + rest;
  }

  /** From the steps on a round can always be brought to its end. */
  lemma {:induction false} StepsCanComplete(s: State) returns (events: seq<Event>)
    requires Inv(s) && s.phase.Stepping?
    ensures Run(s, events).Some?
    ensures var t := Run(s, events).value;
            t.phase.Idle? && t.leader == s.leader + 1 && t.missed == s.missed && t.blocked == s.blocked && Inv(t)
  {
    events := StepsArrive(s);
    var t := Run(s, events).value;
    RunSnoc(s, events, Finish);
    ApplyKeepsInv(t, Finish);
    events := events + [Finish];
  }

  /** A worker whose step is under way may fail at any time. That does not hold up the round, and it costs
      the worker a step exactly if its clock was not written yet. */
  lemma {:induction false} FailedStepIsPassed(s: State, w: Uuid) returns (events: seq<Event>)
    requires Inv(s) && s.phase.Stepping? && w in s.clocks && !Done(s.stages[w])
    ensures events != [] && (events[0] == StepFails(w) || events[0] == RestFails(w)) && Run(s, events).Some?
    ensures var t := Run(s, events).value;
            && t.phase.Idle? && t.leader == s.leader + 1
            && t.missed == s.missed[w := s.missed[w] + if s.stages[w].ClockWritten? then 0 else 1]
  {
    FailingStep(s, w);
    hide Run, Apply, Enabled, Inv;
    events := AfterOne(s, if s.stages[w].ClockWritten? then RestFails(w) else StepFails(w));
  }

  lemma FailingStep(s: State, w: Uuid)
    requires Inv(s) && s.phase.Stepping? && w in s.clocks && !Done(s.stages[w])
    ensures var e := if s.stages[w].ClockWritten? then RestFails(w) else StepFails(w);
            && Enabled(s, e)
            && var t := Apply(s, e);
               t.phase.Stepping? && t.leader == s.leader
               && t.missed == s.missed[w := s.missed[w] + if s.stages[w].ClockWritten? then 0 else 1]
  {
    assert InvAt(s.phase, s.leader, s.stages[w], s.clocks[w], s.missed[w]);
  }

  /** The event, and then the rest of the round. */
  lemma {:induction false} AfterOne(s: State, e: Event) returns (events: seq<Event>)
    requires Inv(s) && Enabled(s, e) && Apply(s, e).phase.Stepping?
    ensures events != [] && events[0] == e && Run(s, events).Some?
    ensures var t := Run(s, events).value;
            t.phase.Idle? && t.leader == Apply(s, e).leader + 1 && t.missed == Apply(s, e).missed
  {
    ApplyKeepsInv(s, e);
    RunNone(s);
    hide Run, Apply, Enabled, Inv;
    var first, t := Then(s, [], e, s);
    var rest := StepsCanComplete(t);
    RunConcat(s, first, rest);
    events := first + rest;
  }

  /** A worker that is asked may become unreachable, blocked or not. That does not hold up the round
      either, unless another one is blocked. */
  lemma {:induction false} FailedAskIsPassed(s: State, w: Uuid) returns (events: seq<Event>)
    requires Inv(s) && s.phase.Asking? && w in s.clocks && s.stages[w].Asked?
    requires forall v :: v in s.clocks && v != w && s.stages[v].Asked? ==> !s.blocked[v]
    ensures events != [] && events[0] == AskFails(w) && Run(s, events).Some?
    ensures var t := Run(s, events).value; t.phase.Idle? && t.leader == s.leader + 1 && t.missed == s.missed
  {
    var e := AskFails(w);
    var t := Apply(s, e);
    ApplyKeepsInv(s, e);
    var rest := RoundCanComplete(t);
    RunNone(s);
    RunSnoc(s, [], e);
    assert [] + [e] == [e];
    hide Run;
    RunConcat(s, [e], rest);
    events := [e] + rest;
  }

  /** Where there are workers, none of them blocked, a whole round can be run. */
  lemma {:induction false} RoundCanRun(s: State) returns (events: seq<Event>)
    requires Inv(s) && s.phase.Idle? && s.clocks != map[] && forall v :: v in s.clocks ==> !s.blocked[v]
    ensures events != [] && events[0] == Begin && Run(s, events).Some?
    ensures var t := Run(s, events).value;
            && t.phase.Idle? && t.leader == s.leader + 1 && t.missed == s.missed && t.clocks.Keys == s.clocks.Keys
            && forall w :: w in s.clocks ==> t.clocks[w] == s.clocks[w] + 1
  {
    var e := Begin;
    var t := Apply(s, e);
    ApplyKeepsInv(s, e);
    var rest := RoundCanComplete(t);
    RunNone(s);
    RunSnoc(s, [], e);
    assert [] + [e] == [e];
    assert forall w :: w in s.clocks ==> InvAt(s.phase, s.leader, s.stages[w], s.clocks[w], s.missed[w]);
    hide Run;
    RunConcat(s, [e], rest);
    events := [e] + rest;
  }
}
