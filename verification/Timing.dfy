/** Step timeouts and the time a round may take, in milliseconds. Processing time
    is not counted. */
module Timing {
  import opened Config

  const MAX_STEP_TIMEOUT: nat := 40_000
  const TIMEOUT_INCREASE: nat := 2_000
  const MIN_EMERGENCY_BLOCK_TIME: nat := 3 * MAX_STEP_TIMEOUT * (CONSENSUS_MAX_ITER + 1)

  datatype Timeouts = Timeouts(proposal: nat, validation: nat, ratification: nat) {
    function Of(step: StepName): nat {
      match step
      case Proposal => proposal
      case Validation => validation
      case Ratification => ratification
    }

    /** `on_timeout_event` */
    function Increased(step: StepName): Timeouts {
      match step
      case Proposal => Timeouts(Longer(proposal), validation, ratification)
      case Validation => Timeouts(proposal, Longer(validation), ratification)
      case Ratification => Timeouts(proposal, validation, Longer(ratification))
    }

    predicate Bounded() {
      proposal <= MAX_STEP_TIMEOUT && validation <= MAX_STEP_TIMEOUT && ratification <= MAX_STEP_TIMEOUT
    }
  }

  function Longer(timeout: nat): nat {
    if timeout + TIMEOUT_INCREASE > MAX_STEP_TIMEOUT then MAX_STEP_TIMEOUT else timeout + TIMEOUT_INCREASE
  }

  /** The timeouts after a step has timed out `n` times. */
  function After(t: Timeouts, step: StepName, n: nat): Timeouts {
    if n == 0 then t else After(t, step, n - 1).Increased(step)
  }

  /** Each timeout adds two seconds to that step alone, up to forty. */
  lemma {:induction false} TimeoutsGrow(t: Timeouts, step: StepName, n: nat, other: StepName)
    requires t.Bounded()
    ensures After(t, step, n).Of(other)
            == if other != step then t.Of(other)
               else if t.Of(step) + 2_000 * n <= 40_000 then t.Of(step) + 2_000 * n else 40_000
  {
    if n > 0 { TimeoutsGrow(t, step, n - 1, other); }
  }

  /** How a step ends: by the message it waits for, by a Quorum message, or at its
      deadline. */
  datatype End = Message(elapsed: nat) | QuorumMessage(elapsed: nat) | TimedOut

  /** Milliseconds to the next slot, from a clock read in whole seconds. */
  function NextSlotIn(now: nat, tip: nat, minBlockTime: nat): nat {
    if now / 1000 >= tip + minBlockTime then 0 else (tip + minBlockTime - now / 1000) * 1000
  }

  function WaitUntilNextSlot(now: nat, tip: nat, minBlockTime: nat): nat {
    now + NextSlotIn(now, tip, minBlockTime)
  }

  function Stop(now: nat, timeout: nat, end: End): nat {
    if end.TimedOut? || end.elapsed > timeout then now + timeout else now + end.elapsed
  }

  datatype Clock = Clock(now: nat, timeouts: Timeouts)

  /** One executed step: the Proposal step adds the time to the next slot to its
      timeout and then waits for the slot; a timeout makes the next one longer. */
  function AfterStep(c: Clock, tip: nat, minBlockTime: nat, step: StepName, end: End): Clock {
    var base := c.timeouts.Of(step);
    var stop :=
      if step.Proposal? then
        WaitUntilNextSlot(Stop(c.now, base + NextSlotIn(c.now, tip, minBlockTime), end), tip, minBlockTime)
      else Stop(c.now, base, end);
    Clock(stop, if end.TimedOut? then c.timeouts.Increased(step) else c.timeouts)
  }

  /** A Proposal step never ends before its slot. A message ends a step when it
      comes, or a Proposal at its slot if that is later; without one the deadline
      does. Only a timeout changes the timeouts. */
  lemma StepEnds(c: Clock, tip: nat, minBlockTime: nat, step: StepName, end: End)
    ensures var after := AfterStep(c, tip, minBlockTime, step, end);
            && (step.Proposal? ==> after.now / 1000 >= tip + minBlockTime)
            && (!end.TimedOut? && end.elapsed <= c.timeouts.Of(step) ==>
                  && (!step.Proposal? || (c.now + end.elapsed) / 1000 >= tip + minBlockTime ==>
                        after.now == c.now + end.elapsed)
                  && (step.Proposal? ==> after.now <= (tip + minBlockTime) * 1000 + 999
                                         || after.now == c.now + end.elapsed))
            && (end.TimedOut? && (!step.Proposal? || c.now / 1000 >= tip + minBlockTime) ==>
                  after.now == c.now + c.timeouts.Of(step))
            && (!end.TimedOut? ==> after.timeouts == c.timeouts)
            && (end.TimedOut? ==> after.timeouts == c.timeouts.Increased(step))
  {
  }

  function RunSteps(c: Clock, tip: nat, minBlockTime: nat, steps: seq<(StepName, End)>): Clock {
    if steps == [] then c
    else
      var before := RunSteps(c, tip, minBlockTime, steps[..|steps| - 1]);
      AfterStep(before, tip, minBlockTime, steps[|steps| - 1].0, steps[|steps| - 1].1)
  }

  /** The start, or the last moment the slot can begin on a whole-second clock. */
  function Origin(t0: nat, tip: nat, minBlockTime: nat): nat {
    var slot := (tip + minBlockTime) * 1000 + 999;
    if t0 >= slot then t0 else slot
  }

  /** However its steps end, a run of `n` steps is over `n` maximal timeouts after
      the start or the first slot, and no timeout ever exceeds the maximum. */
  lemma {:induction false} RunBound(c: Clock, tip: nat, minBlockTime: nat, steps: seq<(StepName, End)>)
    requires c.timeouts.Bounded()
    ensures RunSteps(c, tip, minBlockTime, steps).timeouts.Bounded()
    ensures RunSteps(c, tip, minBlockTime, steps).now
            <= Origin(c.now, tip, minBlockTime) + |steps| * MAX_STEP_TIMEOUT
  {
    if steps != [] {
      var init := steps[..|steps| - 1];
      RunBound(c, tip, minBlockTime, init);
      var before := RunSteps(c, tip, minBlockTime, init);
      var (step, end) := steps[|steps| - 1];
      assert before.timeouts.Of(step) <= MAX_STEP_TIMEOUT;
      SlotBound(before.now, tip, minBlockTime);
      StepBound(before, tip, minBlockTime, step, end);
    }
  }

  lemma SlotBound(now: nat, tip: nat, minBlockTime: nat)
    ensures WaitUntilNextSlot(now, tip, minBlockTime) <= Origin(now, tip, minBlockTime)
  {
    assert now == now / 1000 * 1000 + now % 1000;
  }

  lemma StepBound(c: Clock, tip: nat, minBlockTime: nat, step: StepName, end: End)
    ensures AfterStep(c, tip, minBlockTime, step, end).now
            <= Origin(c.now, tip, minBlockTime) + c.timeouts.Of(step)
  {
    SlotBound(c.now, tip, minBlockTime);
    if step.Proposal? {
      var stop := Stop(c.now, c.timeouts.Of(step) + NextSlotIn(c.now, tip, minBlockTime), end);
      SlotBound(stop, tip, minBlockTime);
    }
  }

  // ------------------------------------------------------ the round's steps

  /** Where a round is: at a step of an iteration, or in Open Consensus, which it
      does not leave. */
  datatype Place = At(iter: nat, step: StepName) | OpenConsensus

  /** The Ratification step waits for nothing but a Quorum. */
  predicate EndsIteration(step: StepName, end: End) {
    end.QuorumMessage? || (step.Ratification? && !end.TimedOut?)
  }

  /** A Quorum ends the iteration; the last step, timing out, enters Open Consensus. */
  function NextPlace(p: Place, end: End): Place
    requires p.At?
  {
    if EndsIteration(p.step, end) then At(NextIter(p.iter), Proposal)
    else
      match p.step
      case Proposal => At(p.iter, Validation)
      case Validation => At(p.iter, Ratification)
      case Ratification =>
        if p.iter == CONSENSUS_MAX_ITER - 1 then OpenConsensus else At(NextIter(p.iter), Proposal)
  }

  /** The steps a round executes from a place on, given how each one ends. */
  function Executed(p: Place, ends: seq<End>): seq<(StepName, End)>
    decreases |ends|
  {
    if ends == [] || p.OpenConsensus? then []
    else [(p.step, ends[0])] + Executed(NextPlace(p, ends[0]), ends[1..])
  }

  function PlaceAfter(p: Place, ends: seq<End>): Place
    decreases |ends|
  {
    if ends == [] || p.OpenConsensus? then p else PlaceAfter(NextPlace(p, ends[0]), ends[1..])
  }

  /** How often a Quorum ends the last iteration, which is then executed again. */
  function Repeats(p: Place, ends: seq<End>): nat
    decreases |ends|
  {
    if ends == [] || p.OpenConsensus? then 0
    else
      (if p.iter == CONSENSUS_MAX_ITER - 1 && EndsIteration(p.step, ends[0]) then 1 else 0)
      + Repeats(NextPlace(p, ends[0]), ends[1..])
  }

  /** The steps left when nothing is repeated. */
  function Remaining(p: Place): int {
    if p.OpenConsensus? then 0 else 3 * (CONSENSUS_MAX_ITER - p.iter) - StepIndex(p.step)
  }

  /** Every step brings Open Consensus nearer, but each repetition of the last
      iteration costs three more. */
  lemma {:induction false} StepsBound(p: Place, ends: seq<End>)
    requires p.At? ==> p.iter < CONSENSUS_MAX_ITER
    ensures |Executed(p, ends)| + Remaining(PlaceAfter(p, ends)) <= Remaining(p) + 3 * Repeats(p, ends)
    ensures PlaceAfter(p, ends).At? ==>
              PlaceAfter(p, ends).iter < CONSENSUS_MAX_ITER && |Executed(p, ends)| == |ends|
    decreases |ends|
  {
    if ends != [] && p.At? {
      StepsBound(NextPlace(p, ends[0]), ends[1..]);
    }
  }

  const FIRST := At(0, Proposal)

  /** A round that starts at any iteration and in which a Quorum ends the last one
      `r` times is over, or in Open Consensus, within 6000 seconds and 120 more for
      each of the `r`, whatever else happens. Without repetition that is less than
      the time after which an emergency block is allowed. */
  lemma RoundBound(c: Clock, tip: nat, minBlockTime: nat, iter: nat, ends: seq<End>)
    requires c.timeouts.Bounded() && iter < CONSENSUS_MAX_ITER
    ensures var start := At(iter, Proposal);
            var r := Repeats(start, ends);
            && RunSteps(c, tip, minBlockTime, Executed(start, ends)).now
                 <= Origin(c.now, tip, minBlockTime) + 6_000_000 + 120_000 * r
            && (|ends| >= 3 * (CONSENSUS_MAX_ITER - iter + r) ==> PlaceAfter(start, ends).OpenConsensus?)
    ensures 6_000_000 < MIN_EMERGENCY_BLOCK_TIME
  {
    var start := At(iter, Proposal);
    StepsBound(start, ends);
    RunBound(c, tip, minBlockTime, Executed(start, ends));
  }

  // ------------------------------------------------------ the worst rounds

  /** All steps from iteration `iter` on take their full time, and a Quorum ends
      the last iteration `r` times. */
  function WorstEnds(iter: nat, r: nat): seq<End>
    requires iter < CONSENSUS_MAX_ITER
    decreases CONSENSUS_MAX_ITER - iter, r
  {
    if iter < CONSENSUS_MAX_ITER - 1 then [TimedOut, TimedOut, TimedOut] + WorstEnds(iter + 1, r)
    else if r > 0 then [TimedOut, TimedOut, QuorumMessage(MAX_STEP_TIMEOUT)] + WorstEnds(iter, r - 1)
    else [TimedOut, TimedOut, TimedOut]
  }

  lemma ThreeSteps(iter: nat, e: End, rest: seq<End>)
    requires iter < CONSENSUS_MAX_ITER
    ensures var p := At(iter, Proposal);
            var ends := [TimedOut, TimedOut, e] + rest;
            var next := NextPlace(At(iter, Ratification), e);
            && Executed(p, ends)
                 == [(Proposal, TimedOut), (Validation, TimedOut), (Ratification, e)] + Executed(next, rest)
            && PlaceAfter(p, ends) == PlaceAfter(next, rest)
            && Repeats(p, ends) == (if iter == CONSENSUS_MAX_ITER - 1 && !e.TimedOut? then 1 else 0)
                                   + Repeats(next, rest)
  {
    var p := At(iter, Proposal);
    var ends := [TimedOut, TimedOut, e] + rest;
    var ends1, ends2 := ends[1..], ends[1..][1..];
    assert ends1 == [TimedOut, e] + rest && ends2 == [e] + rest && ends2[1..] == rest;
    assert NextPlace(p, TimedOut) == At(iter, Validation);
    assert NextPlace(At(iter, Validation), TimedOut) == At(iter, Ratification);
    assert Executed(At(iter, Ratification), ends2) == [(Ratification, e)] + Executed(NextPlace(At(iter, Ratification), e), rest);
    assert Executed(At(iter, Validation), ends1) == [(Validation, TimedOut)] + Executed(At(iter, Ratification), ends2);
    assert Repeats(At(iter, Validation), ends1) == Repeats(At(iter, Ratification), ends2);
    assert PlaceAfter(At(iter, Validation), ends1) == PlaceAfter(At(iter, Ratification), ends2);
  }

  /** Such a round executes every step the bound allows, and then opens. */
  lemma {:induction false} WorstRound(iter: nat, r: nat)
    requires iter < CONSENSUS_MAX_ITER
    ensures var p := At(iter, Proposal);
            var ends := WorstEnds(iter, r);
            && Repeats(p, ends) == r && PlaceAfter(p, ends).OpenConsensus?
            && |Executed(p, ends)| == Remaining(p) + 3 * r
            && FullSteps(Executed(p, ends)) && Executed(p, ends)[0] == (Proposal, TimedOut)
    decreases CONSENSUS_MAX_ITER - iter, r
  {
    if iter < CONSENSUS_MAX_ITER - 1 {
      WorstRound(iter + 1, r);
      ThreeSteps(iter, TimedOut, WorstEnds(iter + 1, r));
    } else if r > 0 {
      WorstRound(iter, r - 1);
      ThreeSteps(iter, QuorumMessage(MAX_STEP_TIMEOUT), WorstEnds(iter, r - 1));
    } else {
      ThreeSteps(iter, TimedOut, []);
      assert WorstEnds(iter, r) == [TimedOut, TimedOut, TimedOut] + [];
    }
  }

  ghost predicate FullSteps(steps: seq<(StepName, End)>) {
    forall i | 0 <= i < |steps| :: steps[i].1.TimedOut? || steps[i].1.elapsed == MAX_STEP_TIMEOUT
  }

  /** Timeouts at their maximum, just before the slot begins. */
  function LateClock(tip: nat, minBlockTime: nat): Clock
    requires tip + minBlockTime >= 1
  {
    Clock((tip + minBlockTime) * 1000 - 1, Timeouts(MAX_STEP_TIMEOUT, MAX_STEP_TIMEOUT, MAX_STEP_TIMEOUT))
  }

  lemma {:induction false} FullRun(tip: nat, minBlockTime: nat, steps: seq<(StepName, End)>)
    requires tip + minBlockTime >= 1
    requires steps != [] && steps[0] == (Proposal, TimedOut) && FullSteps(steps)
    ensures var c := LateClock(tip, minBlockTime);
            var r := RunSteps(c, tip, minBlockTime, steps);
            && r.timeouts == c.timeouts
            && r.now == Origin(c.now, tip, minBlockTime) + |steps| * MAX_STEP_TIMEOUT
  {
    var c, init := LateClock(tip, minBlockTime), steps[..|steps| - 1];
    if |steps| == 1 {
      assert init == [] && RunSteps(c, tip, minBlockTime, init) == c;
    } else {
      FullRun(tip, minBlockTime, init);
    }
  }

  /** The bound is met for every number of repetitions; so all rounds that repeat
      the last iteration `r` times are over within 150 steps, and within 6000
      seconds, if and only if `r` is zero. */
  lemma RoundBoundIsMet(tip: nat, minBlockTime: nat, r: nat)
    requires tip + minBlockTime >= 1
    ensures var c := LateClock(tip, minBlockTime);
            && c.timeouts.Bounded() && Repeats(FIRST, WorstEnds(0, r)) == r
            && RunSteps(c, tip, minBlockTime, Executed(FIRST, WorstEnds(0, r))).now
                 == Origin(c.now, tip, minBlockTime) + 6_000_000 + 120_000 * r
    ensures (forall ends | Repeats(FIRST, ends) == r :: |Executed(FIRST, ends)| <= 3 * CONSENSUS_MAX_ITER)
            <==> r == 0
  {
    WorstRound(0, r);
    FullRun(tip, minBlockTime, Executed(FIRST, WorstEnds(0, r)));
    if r == 0 {
      forall ends | Repeats(FIRST, ends) == r ensures |Executed(FIRST, ends)| <= 3 * CONSENSUS_MAX_ITER {
        StepsBound(FIRST, ends);
        RemainingPositive(PlaceAfter(FIRST, ends));
      }
    }
  }

  lemma RemainingPositive(p: Place)
    requires p.At? ==> p.iter < CONSENSUS_MAX_ITER
    ensures Remaining(p) >= 0
  {
  }

  function Quorums(n: nat): seq<End> {
    if n == 0 then [] else [QuorumMessage(0)] + Quorums(n - 1)
  }

  /** A round in which every step ends by a Quorum never enters Open Consensus. */
  lemma {:induction false} NeverOpens(iter: nat, n: nat)
    requires iter < CONSENSUS_MAX_ITER
    ensures PlaceAfter(At(iter, Proposal), Quorums(n)).At?
    decreases n
  {
    if n > 0 {
      assert Quorums(n)[1..] == Quorums(n - 1);
      NeverOpens(NextIter(iter), n - 1);
    }
  }

  /** The adaptive timeouts of the iteration context. */
  class TimeoutSet {
    var timeouts: Timeouts

    constructor (base: Timeouts)
      ensures timeouts == base
    {
      timeouts := base;
    }

    method OnTimeoutEvent(step: StepName)
      modifies this
      ensures timeouts == old(timeouts).Increased(step)
      ensures old(timeouts).Bounded() ==> timeouts.Bounded()
    {
      var longer := Longer(timeouts.Of(step));
      match step
      case Proposal => timeouts := timeouts.(proposal := longer);
      case Validation => timeouts := timeouts.(validation := longer);
      case Ratification => timeouts := timeouts.(ratification := longer);
    }
  }
}
