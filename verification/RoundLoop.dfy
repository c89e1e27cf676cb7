/** The round execution loop across crashes and restarts, and the ratification
    votes a node signs on the way. */
module RoundLoop {
  import opened Config
  import opened Messages
  import opened Collections
  import opened Sortition
  import opened IterationContext

  /** The last stored iteration, and the running round if any. */
  datatype Active = Active(tip: Hash, iter: Byte, begun: bool, voted: bool)

  datatype Ballot = Ballot(tip: Hash, iteration: Byte, vote: Vote)

  datatype Loop = Loop(
    stored: (Hash, Byte), active: Option<Active>, executed: seq<(Hash, Byte)>, signed: seq<Ballot>)

  datatype LoopEvent =
    | Spawn(tip: Hash)
    | BeginIteration
    | CastRatification(vote: Vote)
    | PastVote(iteration: Byte, vote: Vote)
    | EndIteration
    | Crash

  /** Where a round starts: after the saved iteration, capped at the emergency
      threshold, when the tip is the saved one; at zero otherwise. */
  function RestoredIter(stored: (Hash, Byte), tip: Hash): (r: Byte)
    ensures stored.0 != tip ==> r == 0
    ensures stored.0 == tip && stored.1 <= 16 ==> r == stored.1 + 1
    ensures stored.0 == tip && stored.1 > 16 ==> r == 17
  {
    if stored.0 == tip then
      (if stored.1 < EMERGENCY_MODE_ITERATION_THRESHOLD then stored.1
       else EMERGENCY_MODE_ITERATION_THRESHOLD) + 1
    else 0
  }

  function FirstIterations(n: Byte): (r: seq<Byte>)
    ensures |r| == n && forall i | 0 <= i < n :: r[i] == i
  {
    if n == 0 then [] else FirstIterations(n - 1) + [n - 1]
  }

  /** The iteration counter is restored by counting up while the committees of
      the skipped iterations are requested again. */
  method Restore(ctx: IterationCtx, stored: (Hash, Byte), tip: Hash, p: Provisioners, seed: Seed,
                 ghost rs: RoundSeed) returns (iter: Byte)
    requires ctx.Serves(rs) && rs.provisioners == p && rs.seed == seed
    modifies ctx
    ensures iter == RestoredIter(stored, tip) && ctx.Serves(rs)
    ensures ctx.committees == CacheAfter(rs, old(ctx.committees), FirstIterations(iter))
    ensures Consistent(rs, old(ctx.committees)) ==> Consistent(rs, ctx.committees)
  {
    hide RoundSeed.Eligible, WellFormed, AddIteration, CacheAfter, Consistent, NoClashes;
    iter := 0;
    ghost var before := ctx.committees;
    NothingAsked(rs, before);
    var saved := if stored.1 < EMERGENCY_MODE_ITERATION_THRESHOLD then stored.1
                 else EMERGENCY_MODE_ITERATION_THRESHOLD;
    if stored.0 == tip {
      while iter <= saved
        invariant iter <= saved + 1 && ctx.Serves(rs)
        invariant ctx.committees == CacheAfter(rs, before, FirstIterations(iter))
        decreases saved + 1 - iter
      {
        ctx.GenerateIterationCommittees(iter, p, seed, rs);
        CacheAppend(rs, before, FirstIterations(iter), [iter]);
        CacheOne(rs, CacheAfter(rs, before, FirstIterations(iter)), iter);
        iter := iter + 1;
      }
    }
    if Consistent(rs, before) {
      SmallRequests(rs, before, FirstIterations(iter));
      CacheExact(rs, before, FirstIterations(iter));
    }
  }

  /** One step of the loop; an event that does not apply is ignored. The iteration
      is stored before it is executed, and its Ratification step casts one vote.
      Votes for past steps are cast in emergency iterations only, which a wrapped
      step number can make one not reached yet. */
  function Step(l: Loop, e: LoopEvent): Loop {
    match e
    case Spawn(tip) => l.(active := Some(Active(tip, RestoredIter(l.stored, tip), false, false)))
    case Crash => l.(active := None)
    case BeginIteration =>
      if l.active.Some? && !l.active.value.begun then
        var a := l.active.value;
        l.(stored := (a.tip, a.iter), active := Some(a.(begun := true)),
           executed := l.executed + [(a.tip, a.iter)])
      else l
    case CastRatification(vote) =>
      if l.active.Some? && l.active.value.begun && !l.active.value.voted then
        var a := l.active.value;
        l.(active := Some(a.(voted := true)), signed := l.signed + [Ballot(a.tip, a.iter, vote)])
      else l
    case PastVote(it, vote) =>
      if l.active.Some? && IsEmergencyIter(it) then
        l.(signed := l.signed + [Ballot(l.active.value.tip, it, vote)])
      else l
    case EndIteration =>
      if l.active.Some? && l.active.value.begun then
        var a := l.active.value;
        l.(active := Some(Active(a.tip, NextIter(a.iter), false, false)))
      else l
  }

  function RunLoop(l: Loop, events: seq<LoopEvent>): Loop
    decreases |events|
  {
    if events == [] then l else RunLoop(Step(l, events[0]), events[1..])
  }

  function Fresh(stored: (Hash, Byte)): Loop {
    Loop(stored, None, [], [])
  }

  /** No iteration of another tip was executed between two of this one. */
  ghost predicate Contiguous(executed: seq<(Hash, Byte)>, tip: Hash) {
    forall i, j, k | 0 <= i < j < k < |executed| && executed[i].0 == tip && executed[k].0 == tip ::
      executed[j].0 == tip
  }

  /** No iteration of the tip up to the threshold was executed twice. */
  ghost predicate AtMostOnce(executed: seq<(Hash, Byte)>, tip: Hash) {
    forall i, j | 0 <= i < j < |executed| && executed[i] == executed[j] && executed[i].0 == tip ::
      executed[i].1 > EMERGENCY_MODE_ITERATION_THRESHOLD
  }

  // ------------------------------------------------- the stored iteration

  /** The store holds the last iteration executed, of whatever tip. */
  ghost predicate StoreInv(l: Loop) {
    && (l.active.Some? ==> l.active.value.iter < CONSENSUS_MAX_ITER)
    && (l.active.Some? && l.active.value.begun ==>
          l.executed != [] && l.stored == (l.active.value.tip, l.active.value.iter))
    && (l.executed != [] ==> l.stored == l.executed[|l.executed| - 1])
    && (forall x | x in l.executed :: x.1 < CONSENSUS_MAX_ITER)
  }

  lemma StepKeepsStore(l: Loop, e: LoopEvent)
    requires StoreInv(l)
    ensures StoreInv(Step(l, e))
  {
  }

  /** Iteration `it` is behind the store and behind the running round of the tip,
      or is the running one and, when `done`, cannot come again. */
  ghost predicate Behind(l: Loop, tip: Hash, it: Byte, done: bool) {
    it <= l.stored.1
    && (l.active.Some? && l.active.value.tip == tip ==>
          it < l.active.value.iter
          || (it == l.active.value.iter && l.active.value.begun && done))
  }

  ghost predicate Voted(l: Loop, tip: Hash) {
    l.active.Some? && l.active.value.tip == tip ==> l.active.value.voted
  }

  /** What was executed on the tip is behind, as long as the store is the tip's. */
  ghost predicate ExecutedInv(l: Loop, tip: Hash) {
    && (l.stored.0 == tip ==>
          forall x | x in l.executed && x.0 == tip && x.1 <= EMERGENCY_MODE_ITERATION_THRESHOLD ::
            Behind(l, tip, x.1, true))
    && AtMostOnce(l.executed, tip)
  }

  predicate NormalBallot(b: Ballot, tip: Hash) {
    b.tip == tip && b.iteration < EMERGENCY_MODE_ITERATION_THRESHOLD
  }

  /** And so is what was signed, which was executed. */
  ghost predicate SignedInv(l: Loop, tip: Hash) {
    && (l.stored.0 == tip ==>
          forall b | b in l.signed && NormalBallot(b, tip) :: Behind(l, tip, b.iteration, Voted(l, tip)))
    && (forall i, j | 0 <= i < j < |l.signed| && NormalBallot(l.signed[i], tip) && NormalBallot(l.signed[j], tip) ::
          l.signed[i].iteration != l.signed[j].iteration)
    && (forall b | b in l.signed && NormalBallot(b, tip) :: (tip, b.iteration) in l.executed)
  }

  ghost predicate TipInv(l: Loop, tip: Hash) {
    ExecutedInv(l, tip) && SignedInv(l, tip)
  }

  /** Executing an iteration of the tip after one of another tip, when the tip had
      been executed before, breaks contiguity. */
  lemma ContiguousStore(l: Loop, e: LoopEvent, tip: Hash, x: (Hash, Byte))
    requires StoreInv(l) && x in l.executed && x.0 == tip && l.stored.0 != tip
    requires Contiguous(Step(l, e).executed, tip)
    ensures Step(l, e).stored.0 != tip
  {
    var executed := Step(l, e).executed;
    if executed != l.executed {
      var i :| 0 <= i < |l.executed| && l.executed[i] == x;
      var last := |l.executed| - 1;
      assert executed[i].0 == tip && executed[last] == l.stored && i < last;
      assert executed[last + 1] == Step(l, e).stored;
    }
  }

  lemma StepKeepsExecuted(l: Loop, e: LoopEvent, tip: Hash)
    requires StoreInv(l) && ExecutedInv(l, tip) && Contiguous(Step(l, e).executed, tip)
    ensures ExecutedInv(Step(l, e), tip)
  {
    if x :| x in l.executed && x.0 == tip && l.stored.0 != tip {
      ContiguousStore(l, e, tip, x);
    }
  }

  lemma StepKeepsSigned(l: Loop, e: LoopEvent, tip: Hash)
    requires StoreInv(l) && SignedInv(l, tip) && Contiguous(Step(l, e).executed, tip)
    ensures SignedInv(Step(l, e), tip)
  {
    if b :| b in l.signed && NormalBallot(b, tip) && l.stored.0 != tip {
      ContiguousStore(l, e, tip, (tip, b.iteration));
    }
  }

  lemma StepKeepsInv(l: Loop, e: LoopEvent, tip: Hash)
    requires StoreInv(l) && TipInv(l, tip) && Contiguous(Step(l, e).executed, tip)
    ensures TipInv(Step(l, e), tip)
  {
    hide Step, ExecutedInv, SignedInv;
    StepKeepsExecuted(l, e, tip);
    StepKeepsSigned(l, e, tip);
  }

  lemma StepExtends(l: Loop, e: LoopEvent)
    ensures l.executed <= Step(l, e).executed
  {
  }

  lemma {:induction false} RunExtends(l: Loop, events: seq<LoopEvent>)
    ensures l.executed <= RunLoop(l, events).executed
    decreases |events|
  {
    if events != [] {
      StepExtends(l, events[0]);
      RunExtends(Step(l, events[0]), events[1..]);
    }
  }

  lemma {:induction false} RunLoopInv(l: Loop, events: seq<LoopEvent>, tip: Hash)
    requires StoreInv(l) && TipInv(l, tip) && Contiguous(RunLoop(l, events).executed, tip)
    ensures StoreInv(RunLoop(l, events)) && TipInv(RunLoop(l, events), tip)
    decreases |events|
  {
    hide StoreInv, TipInv, Step;
    if events != [] {
      var l1 := Step(l, events[0]);
      RunExtends(l1, events[1..]);
      assert Contiguous(l1.executed, tip);
      StepKeepsStore(l, events[0]);
      StepKeepsInv(l, events[0], tip);
      RunLoopInv(l1, events[1..], tip);
    }
  }

  /** Over any crashes and restarts, on any tips and whatever was stored before,
      no iteration exceeds 49, and when the iterations of a tip are contiguous,
      those up to 16 are executed at most once. */
  lemma NoIterationTwice(stored: (Hash, Byte), events: seq<LoopEvent>, tip: Hash)
    ensures var executed := RunLoop(Fresh(stored), events).executed;
            && (forall x | x in executed :: x.1 < CONSENSUS_MAX_ITER)
            && (Contiguous(executed, tip) ==> AtMostOnce(executed, tip))
  {
    hide RunLoop, Contiguous, AtMostOnce;
    RunStore(Fresh(stored), events);
    FreshInv(stored, tip);
    if Contiguous(RunLoop(Fresh(stored), events).executed, tip) {
      RunLoopInv(Fresh(stored), events, tip);
    }
  }

  lemma FreshInv(stored: (Hash, Byte), tip: Hash)
    ensures StoreInv(Fresh(stored)) && TipInv(Fresh(stored), tip)
  {
  }

  lemma {:induction false} RunStore(l: Loop, events: seq<LoopEvent>)
    requires StoreInv(l)
    ensures StoreInv(RunLoop(l, events))
    decreases |events|
  {
    hide StoreInv, Step;
    if events != [] {
      StepKeepsStore(l, events[0]);
      RunStore(Step(l, events[0]), events[1..]);
    }
  }

  /** Hence a node signs at most one ratification vote per normal iteration. */
  lemma OneBallotPerIteration(stored: (Hash, Byte), events: seq<LoopEvent>, tip: Hash, a: Ballot, b: Ballot)
    requires Contiguous(RunLoop(Fresh(stored), events).executed, tip)
    requires a in RunLoop(Fresh(stored), events).signed && b in RunLoop(Fresh(stored), events).signed
    requires a.tip == b.tip == tip && a.iteration == b.iteration < EMERGENCY_MODE_ITERATION_THRESHOLD
    ensures a == b
  {
    hide RunLoop, Contiguous;
    FreshInv(stored, tip);
    RunLoopInv(Fresh(stored), events, tip);
    var signed := RunLoop(Fresh(stored), events).signed;
    var i :| 0 <= i < |signed| && signed[i] == a;
    var j :| 0 <= j < |signed| && signed[j] == b;
    assert NormalBallot(signed[i], tip) && NormalBallot(signed[j], tip);
  }

  // ------------------------------------------------- when one runs twice

  /** The tip is executed at `i` and was not just before. */
  ghost predicate BlockStart(executed: seq<(Hash, Byte)>, tip: Hash, i: nat)
    requires i < |executed|
  {
    executed[i].0 == tip && (i == 0 || executed[i - 1].0 != tip)
  }

  /** Every block of iterations of the tip starts at iteration zero. */
  ghost predicate StartsAtZero(l: Loop, tip: Hash) {
    && (forall i: nat | i < |l.executed| && BlockStart(l.executed, tip, i) :: l.executed[i] == (tip, 0))
    && (l.executed == [] ==> l.stored.0 != tip)
    && (l.active.Some? && l.active.value.tip == tip && l.stored.0 != tip ==> l.active.value.iter == 0)
  }

  lemma {:induction false} RunStartsAtZero(l: Loop, events: seq<LoopEvent>, tip: Hash)
    requires StoreInv(l) && StartsAtZero(l, tip)
    ensures StartsAtZero(RunLoop(l, events), tip)
    decreases |events|
  {
    if events != [] {
      StepKeepsStore(l, events[0]);
      StepStartsAtZero(l, events[0], tip);
      RunStartsAtZero(Step(l, events[0]), events[1..], tip);
    }
  }

  lemma StepStartsAtZero(l: Loop, e: LoopEvent, tip: Hash)
    requires StoreInv(l) && StartsAtZero(l, tip)
    ensures StartsAtZero(Step(l, e), tip)
  {
    var executed := Step(l, e).executed;
    forall i: nat | i < |executed| && BlockStart(executed, tip, i) ensures executed[i] == (tip, 0) {
      if i < |l.executed| { assert BlockStart(l.executed, tip, i); }
    }
  }

  /** The first entry of the tip from `i` on, when the one before is not the tip's. */
  lemma {:induction false} NextBlock(executed: seq<(Hash, Byte)>, tip: Hash, i: nat, k: nat) returns (m: nat)
    requires i <= k < |executed| && executed[k].0 == tip && (i == 0 || executed[i - 1].0 != tip)
    ensures i <= m <= k && BlockStart(executed, tip, m)
    decreases k - i
  {
    if executed[i].0 == tip { m := i; } else { m := NextBlock(executed, tip, i + 1, k); }
  }

  /** From a store on another tip, the iterations of a tip up to 16 are executed at
      most once if and only if they are contiguous. */
  lemma OnceIffContiguous(stored: (Hash, Byte), events: seq<LoopEvent>, tip: Hash)
    requires stored.0 != tip
    ensures var executed := RunLoop(Fresh(stored), events).executed;
            AtMostOnce(executed, tip) <==> Contiguous(executed, tip)
  {
    hide RunLoop, Contiguous;
    NoIterationTwice(stored, events, tip);
    FreshInv(stored, tip);
    RunStartsAtZero(Fresh(stored), events, tip);
    var executed := RunLoop(Fresh(stored), events).executed;
    if !Contiguous(executed, tip) {
      var i, j, k := Gap(executed, tip);
      var first := NextBlock(executed, tip, 0, i);
      var second := NextBlock(executed, tip, j + 1, k);
      assert executed[first] == (tip, 0);
      assert executed[second] == (tip, 0);
    }
  }

  lemma Gap(executed: seq<(Hash, Byte)>, tip: Hash) returns (i: nat, j: nat, k: nat)
    requires !Contiguous(executed, tip)
    ensures i < j < k < |executed| && executed[i].0 == tip == executed[k].0 && executed[j].0 != tip
  {
    i, j, k :| 0 <= i < j < k < |executed| && executed[i].0 == tip && executed[k].0 == tip && executed[j].0 != tip;
  }

  // ------------------------------------------------- from any store

  /** The entry follows the iteration before it, or is one a round can start at: zero,
      the one restored from the first store, or 17; or it is the last one again. */
  ghost predicate ChainedAt(executed: seq<(Hash, Byte)>, tip: Hash, start: Byte, i: nat)
    requires i < |executed|
  {
    executed[i].1 == 0 || executed[i].1 == start
    || (i > 0 && executed[i - 1] == (tip, executed[i].1 - 1))
    || (i > 0 && executed[i].1 == 17 && executed[i - 1].0 == tip && executed[i - 1].1 > 16)
    || (i > 0 && executed[i].1 == 49 && executed[i - 1] == (tip, 49))
  }

  ghost predicate Chained(executed: seq<(Hash, Byte)>, tip: Hash, start: Byte) {
    forall i: nat | i < |executed| && executed[i].0 == tip :: ChainedAt(executed, tip, start, i)
  }

  ghost predicate ChainInv(l: Loop, tip: Hash, start: Byte) {
    && Chained(l.executed, tip, start)
    && (l.executed == [] ==> RestoredIter(l.stored, tip) == start)
    && (l.active.Some? && l.active.value.tip == tip && !l.active.value.begun ==>
          || (l.stored.0 != tip && l.active.value.iter == 0)
          || (l.executed == [] && l.active.value.iter == start)
          || (l.executed != [] && l.stored.0 == tip
              && l.active.value.iter in {NextIter(l.stored.1), RestoredIter(l.stored, tip)}))
  }

  lemma LastIsChained(l: Loop, tip: Hash, start: Byte)
    requires StoreInv(l) && ChainInv(l, tip, start) && l.active.Some? && !l.active.value.begun
    requires l.active.value.tip == tip
    ensures ChainedAt(l.executed + [(tip, l.active.value.iter)], tip, start, |l.executed|)
  {
    hide Chained;
    var executed := l.executed + [(tip, l.active.value.iter)];
    if l.executed != [] && l.stored.0 == tip {
      assert executed[|l.executed| - 1] == l.stored;
    }
  }

  lemma BeginKeepsChain(l: Loop, tip: Hash, start: Byte)
    requires StoreInv(l) && ChainInv(l, tip, start) && l.active.Some? && !l.active.value.begun
    ensures Chained(l.executed + [(l.active.value.tip, l.active.value.iter)], tip, start)
  {
    hide StoreInv;
    var executed := l.executed + [(l.active.value.tip, l.active.value.iter)];
    forall i: nat | i < |executed| && executed[i].0 == tip ensures ChainedAt(executed, tip, start, i)
    {
      if i < |l.executed| {
        assert ChainedAt(l.executed, tip, start, i);
      } else {
        LastIsChained(l, tip, start);
      }
    }
  }

  lemma StepKeepsChain(l: Loop, e: LoopEvent, tip: Hash, start: Byte)
    requires StoreInv(l) && ChainInv(l, tip, start)
    ensures ChainInv(Step(l, e), tip, start)
  {
    hide Chained;
    if e.BeginIteration? && l.active.Some? && !l.active.value.begun {
      BeginKeepsChain(l, tip, start);
    }
  }

  lemma {:induction false} RunKeepsChain(l: Loop, events: seq<LoopEvent>, tip: Hash, start: Byte)
    requires StoreInv(l) && ChainInv(l, tip, start)
    ensures ChainInv(RunLoop(l, events), tip, start)
    decreases |events|
  {
    hide StoreInv, ChainInv, Step;
    if events != [] {
      StepKeepsStore(l, events[0]);
      StepKeepsChain(l, events[0], tip, start);
      RunKeepsChain(Step(l, events[0]), events[1..], tip, start);
    }
  }

  /** Over any run no iteration is skipped: each one executed on a tip is one more
      than the one before on that tip, or one that a round starts at. */
  lemma IterationsInOrder(stored: (Hash, Byte), events: seq<LoopEvent>, tip: Hash, i: nat)
    requires i < |RunLoop(Fresh(stored), events).executed|
    requires RunLoop(Fresh(stored), events).executed[i].0 == tip
    ensures ChainedAt(RunLoop(Fresh(stored), events).executed, tip, RestoredIter(stored, tip), i)
  {
    hide RunLoop;
    FreshInv(stored, tip);
    RunKeepsChain(Fresh(stored), events, tip, RestoredIter(stored, tip));
  }

  ghost predicate Once(executed: seq<(Hash, Byte)>, x: (Hash, Byte)) {
    forall i, j | 0 <= i < j < |executed| :: !(executed[i] == x && executed[j] == x)
  }

  lemma Twice(executed: seq<(Hash, Byte)>, i: nat, j: nat)
    requires i < j < |executed| && executed[i] == executed[j]
    ensures !Once(executed, executed[i])
  {
  }

  lemma ChainAt(executed: seq<(Hash, Byte)>, tip: Hash, start: Byte, i: nat)
    requires Chained(executed, tip, start) && i < |executed| && executed[i].0 == tip
    ensures ChainedAt(executed, tip, start, i)
  {
  }

  /** A repeated iteration leads back to one that a round started at. */
  lemma {:induction false} RepeatFromStart(executed: seq<(Hash, Byte)>, tip: Hash, start: Byte, i: nat, j: nat)
    requires Chained(executed, tip, start) && i < j < |executed| && executed[i] == executed[j]
    requires executed[i].0 == tip && executed[i].1 <= EMERGENCY_MODE_ITERATION_THRESHOLD
    ensures !Once(executed, (tip, 0)) || (start <= EMERGENCY_MODE_ITERATION_THRESHOLD && !Once(executed, (tip, start)))
    decreases executed[i].1
  {
    hide Chained, Once;
    ChainAt(executed, tip, start, i);
    ChainAt(executed, tip, start, j);
    Twice(executed, i, j);
    if executed[i].1 != 0 && executed[i].1 != start {
      RepeatFromStart(executed, tip, start, i - 1, j - 1);
    }
  }

  /** From any store, the iterations of a tip up to 16 are executed at most once if
      and only if those a round can start at are: zero, and the one restored from
      the store. */
  lemma OnceIffStarts(stored: (Hash, Byte), events: seq<LoopEvent>, tip: Hash)
    ensures var executed := RunLoop(Fresh(stored), events).executed;
            var start := RestoredIter(stored, tip);
            AtMostOnce(executed, tip) <==>
              Once(executed, (tip, 0)) && (start <= EMERGENCY_MODE_ITERATION_THRESHOLD ==> Once(executed, (tip, start)))
  {
    hide RunLoop;
    var start, executed := RestoredIter(stored, tip), RunLoop(Fresh(stored), events).executed;
    FreshInv(stored, tip);
    RunKeepsChain(Fresh(stored), events, tip, start);
    if !AtMostOnce(executed, tip) {
      var i, j :| 0 <= i < j < |executed| && executed[i] == executed[j] && executed[i].0 == tip
                  && executed[i].1 <= EMERGENCY_MODE_ITERATION_THRESHOLD;
      RepeatFromStart(executed, tip, start, i, j);
    }
  }

  /** A round spawned on another tip in between is enough to lose the record: the
      same iteration then runs twice. */
  lemma OtherTipRunsTwice(stored: (Hash, Byte), tip: Hash, other: Hash)
    requires stored.0 != tip && tip != other
    ensures RunLoop(Fresh(stored), Visit(tip) + Visit(other) + Visit(tip)).executed
            == [(tip, 0), (other, 0), (tip, 0)]
  {
    var l0 := Fresh(stored);
    var l1 := VisitRun(l0, tip, Visit(other) + Visit(tip));
    var l2 := VisitRun(l1, other, Visit(tip));
    var l3 := VisitRun(l2, tip, []);
    assert Visit(tip) + Visit(other) + Visit(tip) == Visit(tip) + (Visit(other) + Visit(tip));
    assert Visit(tip) + [] == Visit(tip);
  }

  function Visit(tip: Hash): seq<LoopEvent> {
    [Spawn(tip), BeginIteration, Crash]
  }

  lemma VisitRun(l: Loop, tip: Hash, rest: seq<LoopEvent>) returns (l': Loop)
    requires l.stored.0 != tip
    ensures RunLoop(l, Visit(tip) + rest) == RunLoop(l', rest)
    ensures l'.stored == (tip, 0) && l'.executed == l.executed + [(tip, 0)]
  {
    l' := Step(Step(Step(l, Spawn(tip)), BeginIteration), Crash);
    var events := Visit(tip) + rest;
    assert events[1..] == [BeginIteration, Crash] + rest;
    assert events[1..][1..] == [Crash] + rest;
    assert events[1..][1..][1..] == rest;
    assert RunLoop(l, events) == RunLoop(Step(l, Spawn(tip)), events[1..]);
    assert RunLoop(Step(l, Spawn(tip)), events[1..])
        == RunLoop(Step(Step(l, Spawn(tip)), BeginIteration), events[1..][1..]);
  }
}
