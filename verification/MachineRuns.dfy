/**
 Whole runs: every engine stops, after an exactly known number of calls, having visited every
 pair of limbs once and written the product.
 */
module MachineRuns {
  import opened Limbs
  import opened Convolution
  import opened Machine
  import opened MachineProofs

  function Max(x: int, y: int): int { if x < y then y else x }
  function Dec(x: nat): nat { if x == 0 then 0 else x - 1 }

  // ------------------------------------------------------------ clocks to the end of a diagonal

  /** Clock in which the last batch of q leaves the queue, one batch per clock, after clock prev. */
  function DrainFrom(q: seq<Item>, prev: nat): nat {
    if q == [] then prev else DrainFrom(q[1..], Max(prev + 1, q[0].remain + 1))
  }

  /** Clocks of the last queued and of the last direct retirement known so far. */
  datatype Due = Due(queued: nat, direct: nat) {
    function Last(): nat { Max(queued, direct) }
    function Earlier(): Due { Due(Dec(queued), Dec(direct)) }
  }

  /** A batch that leaves the multiplier in clock t. */
  function Arrive(d: Due, depth: nat, t: nat): Due {
    if depth == 0 then Due(d.queued, Max(d.direct, t))
    else Due(Max(d.queued + 1, depth + t + 1), d.direct)
  }

  function Least(x: int, y: int): int { if x < y then x else y }

  /** Batches generated in clocks t, t+1, ... leave the multiplier three clocks later. */
  function LeftDue(left: int, t: nat, d: Due): Due
    decreases left
  {
    if left <= 0 then d
    else LeftDue(left - BATCH, t + 1, Arrive(d, CsaDepth(Least(left, BATCH)), t + 3))
  }

  function QueueDue(st: State): Due {
    var d0 := Due(DrainFrom(st.queue, 0), 0);
    if st.mul.Full? then Arrive(d0, st.depth, 1) else d0
  }

  function FlightDue(st: State): Due {
    var d1 := QueueDue(st);
    var d2 := if st.load != [] then Arrive(d1, CsaDepth(|st.load|), 2) else d1;
    if st.gen != [] then Arrive(d2, CsaDepth(|st.gen|), 3) else d2
  }

  /** Calls until the current diagonal is emitted. */
  function Rank(e: Engine, n: int, st: State): int
    requires |st.stages| == 4
  {
    match e
    case SingleCycle => BatchesLeft(n, st)
    case CsaOnly =>
      if Left(n, st) > 0 then BatchesLeft(n, st) + 4
      else if st.stages[0].Full? then 4
      else if st.stages[1].Full? then 3
      else if st.stages[2].Full? then 2
      else if st.stages[3].Full? then 1
      else 0
    case Staged3 =>
      if Left(n, st) > 0 then BatchesLeft(n, st) + 3
      else if st.gen != [] then 3
      else if st.load != [] then 2
      else if st.mul.Full? then 1
      else 0
    case Stage7 => LeftDue(Left(n, st), 1, FlightDue(st)).Last()
  }

  /** Calls a whole diagonal of len pairs takes. */
  function DiagCalls(e: Engine, len: int): int {
    match e
    case SingleCycle => Batches(len)
    case CsaOnly => Batches(len) + 4
    case Staged3 => Batches(len) + 3
    case Stage7 => LeftDue(len, 1, Due(0, 0)).Last()
  }

  lemma {:induction false} AgeDrains(q: seq<Item>, p: nat)
    ensures DrainFrom(Age(q), p) + 1 == DrainFrom(q, p + 1)
    decreases |q|
  {
    if q != [] {
      assert Age(q)[1..] == Age(q[1..]);
      AgeDrains(q[1..], Max(p + 1, Age(q)[0].remain + 1));
    }
  }

  /** One clock brings the emptying of the queue one clock nearer. */
  lemma PopDrains(q: seq<Item>)
    ensures DrainFrom(Age(Popped(q)), 0) == Dec(DrainFrom(q, 0))
  {
    if q != [] {
      if q[0].remain == 0 {
        AgeDrains(q[1..], 0);
      } else {
        assert Age(q)[1..] == Age(q[1..]);
        AgeDrains(q[1..], q[0].remain);
      }
    }
  }

  lemma {:induction false} DrainAppend(q: seq<Item>, x: Item, p: nat)
    ensures DrainFrom(q + [x], p) == Max(DrainFrom(q, p) + 1, x.remain + 1)
    decreases |q|
  {
    if q == [] {
      assert q + [x] == [x];
    } else {
      assert (q + [x])[1..] == q[1..] + [x];
      DrainAppend(q[1..], x, Max(p + 1, q[0].remain + 1));
    }
  }

  lemma ArriveEarlier(d: Due, depth: nat, t: nat)
    requires t >= 1
    ensures Arrive(d.Earlier(), depth, t - 1) == Arrive(d, depth, t).Earlier()
  {
  }

  lemma {:induction false} LeftDueEarlier(left: int, t: nat, d: Due)
    requires t >= 1
    ensures LeftDue(left, t - 1, d.Earlier()) == LeftDue(left, t, d).Earlier()
    decreases left
  {
    if left > 0 {
      ArriveEarlier(d, CsaDepth(Least(left, BATCH)), t + 3);
      LeftDueEarlier(left - BATCH, t + 1, Arrive(d, CsaDepth(Least(left, BATCH)), t + 3));
    }
  }

  lemma {:induction false} LeftDueGrows(left: int, t: nat, d: Due)
    ensures LeftDue(left, t, d).Last() >= d.Last()
    ensures left > 0 ==> LeftDue(left, t, d).Last() >= t + 3
    decreases left
  {
    if left > 0 {
      LeftDueGrows(left - BATCH, t + 1, Arrive(d, CsaDepth(Least(left, BATCH)), t + 3));
    }
  }

  lemma {:induction false} DrainGrows(q: seq<Item>, p: nat)
    ensures DrainFrom(q, p) >= p + |q|
    decreases |q|
  {
    if q != [] { DrainGrows(q[1..], Max(p + 1, q[0].remain + 1)); }
  }

  /** The queue and the multiplier register after a clock are due one clock earlier. */
  lemma QueueOnSchedule(a: seq<u64>, b: seq<u64>, st: State)
    requires Shape(a, b, st)
    ensures DrainFrom(Advance(Stage7, a, b, st).queue, 0) == QueueDue(st).Earlier().queued
    ensures QueueDue(st).Earlier().direct == 0
  {
    PopDrains(st.queue);
    DrainAppend(Age(Popped(st.queue)), Item(st.mul.Sum(), st.depth), 0);
  }

  lemma FlightOnSchedule(a: seq<u64>, b: seq<u64>, st: State)
    requires Shape(a, b, st)
    ensures var c := Count(|a|, st);
            FlightDue(Advance(Stage7, a, b, st))
            == (if c > 0 then Arrive(FlightDue(st), CsaDepth(c), 4) else FlightDue(st)).Earlier()
  {
    var st', c := Advance(Stage7, a, b, st), Count(|a|, st);
    QueueOnSchedule(a, b, st);
    var d1 := QueueDue(st);
    assert Due(DrainFrom(st'.queue, 0), 0) == d1.Earlier();
    ArriveEarlier(d1, CsaDepth(|st.load|), 2);
    var d2 := if st.load != [] then Arrive(d1, CsaDepth(|st.load|), 2) else d1;
    ArriveEarlier(d2, CsaDepth(|st.gen|), 3);
    ArriveEarlier(FlightDue(st), CsaDepth(c), 4);
  }

  /** The delay queue releases every batch on schedule: all due clocks move one nearer. */
  lemma Stage7OnSchedule(a: seq<u64>, b: seq<u64>, st: State)
    requires Shape(a, b, st)
    ensures var st' := Advance(Stage7, a, b, st);
            |st'.stages| == 4 && Rank(Stage7, |a|, st') == Dec(Rank(Stage7, |a|, st))
  {
    var n := |a|;
    var st', c, d := Advance(Stage7, a, b, st), Count(n, st), FlightDue(st);
    FlightOnSchedule(a, b, st);
    if c > 0 {
      var d4 := Arrive(d, CsaDepth(c), 4);
      LeftDueEarlier(Left(n, st) - BATCH, 2, d4);
      LeftDueOver(Left(n, st'), Left(n, st) - BATCH, 1, d4.Earlier());
    }
  }

  lemma LeftDueOver(left: int, left': int, t: nat, d: Due)
    requires left == left' || (left <= 0 && left' <= 0)
    ensures LeftDue(left, t, d) == LeftDue(left', t, d)
  {
  }

  lemma Stage7Pending(n: int, st: State)
    requires |st.stages| == 4
    ensures Rank(Stage7, n, st) == 0 <==> DiagonalDone(Stage7, n, st)
  {
    LeftDueGrows(Left(n, st), 1, FlightDue(st));
    DrainGrows(st.queue, 0);
  }

  lemma Stage7RankDrops(a: seq<u64>, b: seq<u64>, st: State)
    requires Shape(a, b, st) && !DiagonalDone(Stage7, |a|, st)
    ensures var st' := Advance(Stage7, a, b, st);
            && |st'.stages| == 4 && Rank(Stage7, |a|, st) == Rank(Stage7, |a|, st') + 1
            && (Rank(Stage7, |a|, st') == 0 <==> DiagonalDone(Stage7, |a|, st'))
  {
    var st' := Advance(Stage7, a, b, st);
    Stage7OnSchedule(a, b, st);
    Stage7Pending(|a|, st);
    Stage7Pending(|a|, st');
  }

  /** Each clock brings the end of the diagonal exactly one call nearer. */
  lemma RankDrops(e: Engine, a: seq<u64>, b: seq<u64>, st: State)
    requires Shape(a, b, st) && !DiagonalDone(e, |a|, st)
    ensures var st' := Advance(e, a, b, st);
            && Shape(a, b, st') && Rank(e, |a|, st) == Rank(e, |a|, st') + 1
            && (Rank(e, |a|, st') == 0 <==> DiagonalDone(e, |a|, st'))
  {
    if e.Stage7? {
      hide Advance, Shape, Rank, DiagonalDone;
      AdvanceKeepsShape(e, a, b, st);
      Stage7RankDrops(a, b, st);
    } else {
      hide Dot, Fetch, Pairs, RangeSum, InRange, Age, Popped;
      AdvanceKeepsShape(e, a, b, st);
    }
  }

  /** A new diagonal starts with nothing in flight. */
  lemma FreshRank(e: Engine, n: int, st: State)
    requires n >= 1 && st.s < 2 * n - 2 && |st.res| >= 2 * n && |st.stages| == 4 && DiagonalDone(e, n, st)
    ensures Rank(e, n, Emit(n, st)) == DiagCalls(e, DiagLen(n, st.s + 1))
  {
  }

  // ------------------------------------------------------------ whole runs

  lemma StepRank(e: Engine, a: seq<u64>, b: seq<u64>, st: State)
    requires Inv(e, a, b, st) && st.running
    ensures var st' := Step(e, a, b, st);
            && |st'.stages| == 4
            && if st'.running && st'.s == st.s then Rank(e, |a|, st) == Rank(e, |a|, st') + 1
               else
                 && Rank(e, |a|, st) == 1
                 && (if st'.running then st'.s == st.s + 1 && Rank(e, |a|, st') == DiagCalls(e, DiagLen(|a|, st'.s))
                     else st.s == 2 * |a| - 2)
  {
    AdvanceKeepsShape(e, a, b, st);
    RankDrops(e, a, b, st);
    var st1 := Advance(e, a, b, st);
    if DiagonalDone(e, |a|, st1) && st1.s < 2 * |a| - 2 {
      FreshRank(e, |a|, st1);
    }
  }

  lemma RankNat(e: Engine, a: seq<u64>, b: seq<u64>, st: State)
    requires Inv(e, a, b, st)
    ensures Rank(e, |a|, st) >= 1
  {
    if e.Stage7? { Stage7Pending(|a|, st); }
  }

  /** The state a call works on: a stopped unit is started first. */
  function Current(st: State): State { if st.running then st else Start(st) }

  /** One call of the engine on a running or a stopped unit. */
  function Call(e: Engine, a: seq<u64>, b: seq<u64>, st: State): (r: State)
    requires |a| == |b| >= 1 && |st.res| >= 2 * |a|
    requires st.running ==> Inv(e, a, b, st)
  {
    StartInv(e, a, b, st);
    Step(e, a, b, Current(st))
  }

  /** What a call does to the position of a run: nearer the end of this diagonal, or at the start of the next. */
  lemma StepProgress(e: Engine, a: seq<u64>, b: seq<u64>, st: State)
    requires Inv(e, a, b, st) && st.running
    ensures Rank(e, |a|, st) >= 1 && 0 <= Count(|a|, st) <= Left(|a|, st)
    ensures var st' := Step(e, a, b, st);
            && (st'.running ==> Inv(e, a, b, st'))
            && if st'.running && st'.s == st.s then
                 Rank(e, |a|, st') == Rank(e, |a|, st) - 1 && st'.k == st.k + Count(|a|, st)
               else
                 && Rank(e, |a|, st) == 1 && Count(|a|, st) == Left(|a|, st)
                 && if st'.running then
                      && st'.s == st.s + 1 && st'.k == IMin(|a|, st'.s)
                      && Rank(e, |a|, st') == DiagCalls(e, DiagLen(|a|, st'.s))
                    else st.s == 2 * |a| - 2
  {
    StepInv(e, a, b, st);
    StepRank(e, a, b, st);
    RankNat(e, a, b, st);
    AdvanceKeepsShape(e, a, b, st);
    var st1 := Advance(e, a, b, st);
    if DiagonalDone(e, |a|, st1) && st1.s < 2 * |a| - 2 {
      assert Emit(|a|, st1).running;
    }
  }

  /** The unit when the engine has been called until it stops. */
  function Run(e: Engine, a: seq<u64>, b: seq<u64>, st: State): (r: State)
    requires st.running ==> Inv(e, a, b, st)
    decreases if st.running then 2 * |a| - st.s else 0, if st.running then Rank(e, |a|, st) else 0
  {
    if !st.running then st
    else
      StepInv(e, a, b, st);
      StepRank(e, a, b, st);
      RankNat(e, a, b, st);
      Run(e, a, b, Step(e, a, b, st))
  }

  /** How many calls that takes. */
  function Calls(e: Engine, a: seq<u64>, b: seq<u64>, st: State): nat
    requires st.running ==> Inv(e, a, b, st)
    decreases if st.running then 2 * |a| - st.s else 0, if st.running then Rank(e, |a|, st) else 0
  {
    if !st.running then 0
    else
      StepInv(e, a, b, st);
      StepRank(e, a, b, st);
      RankNat(e, a, b, st);
      1 + Calls(e, a, b, Step(e, a, b, st))
  }

  /** The pairs the generator visits on the way, in order. */
  function Visits(e: Engine, a: seq<u64>, b: seq<u64>, st: State): seq<(int, int)>
    requires st.running ==> Inv(e, a, b, st)
    decreases if st.running then 2 * |a| - st.s else 0, if st.running then Rank(e, |a|, st) else 0
  {
    if !st.running then []
    else
      StepInv(e, a, b, st);
      StepRank(e, a, b, st);
      RankNat(e, a, b, st);
      Pairs(st.s, st.k, Count(|a|, st)) + Visits(e, a, b, Step(e, a, b, st))
  }

  lemma {:induction false} RunFinishes(e: Engine, a: seq<u64>, b: seq<u64>, st: State)
    requires st.running && Inv(e, a, b, st)
    ensures var r := Run(e, a, b, st);
            Finished(a, b, r) && |r.res| == |st.res| && r.res[2 * |a|..] == st.res[2 * |a|..]
    decreases 2 * |a| - st.s, Rank(e, |a|, st)
  {
    StepInv(e, a, b, st);
    StepRank(e, a, b, st);
    RankNat(e, a, b, st);
    AdvanceKeepsShape(e, a, b, st);
    var st' := Step(e, a, b, st);
    assert |st'.res| == |st.res| && st'.res[2 * |a|..] == st.res[2 * |a|..];
    if st'.running {
      RunFinishes(e, a, b, st');
    }
  }

  /** The result words of a run: the product, then whatever was there before. */
  function Product(a: seq<u64>, b: seq<u64>, res: seq<u64>): (r: seq<u64>)
    requires |a| == |b| && |res| >= 2 * |a|
  {
    ToLimbs(Times(Val(a), Val(b)), 2 * |a|) + res[2 * |a|..]
  }

  /**
   Main result: from any state, whatever the pipeline, queue and accumulator held, every engine
   writes exactly the product of the operands and nothing else.
   */
  lemma RunComputesProduct(e: Engine, a: seq<u64>, b: seq<u64>, st: State)
    requires |a| == |b| >= 1 && |st.res| >= 2 * |a|
    ensures Inv(e, a, b, Start(st))
    ensures Run(e, a, b, Start(st)).res == Product(a, b, st.res)
  {
    StartInv(e, a, b, st);
    RunFinishes(e, a, b, Start(st));
    var r := Run(e, a, b, Start(st)).res;
    ToLimbsVal(r[..2 * |a|]);
    assert r == r[..2 * |a|] + r[2 * |a|..];
  }

  /** All four engines agree word for word, also from different starting states. */
  lemma EnginesAgree(e: Engine, e': Engine, a: seq<u64>, b: seq<u64>, st: State, st': State)
    requires |a| == |b| >= 1 && |st.res| >= 2 * |a| && st.res == st'.res
    ensures Inv(e, a, b, Start(st)) && Inv(e', a, b, Start(st'))
    ensures Run(e, a, b, Start(st)).res == Run(e', a, b, Start(st')).res
  {
    RunComputesProduct(e, a, b, st);
    RunComputesProduct(e', a, b, st');
  }

  // ------------------------------------------------------------ exact number of calls

  /** Calls for diagonals s, s+1, ... of an n-limb product. */
  function CallsFrom(e: Engine, n: nat, s: nat): int
    decreases 2 * n - s
  {
    if s >= 2 * n - 1 then 0 else DiagCalls(e, DiagLen(n, s)) + CallsFrom(e, n, s + 1)
  }

  lemma {:induction false} CallsRemaining(e: Engine, a: seq<u64>, b: seq<u64>, st: State)
    requires st.running && Inv(e, a, b, st)
    ensures Calls(e, a, b, st) == Rank(e, |a|, st) + CallsFrom(e, |a|, st.s + 1)
    decreases 2 * |a| - st.s, Rank(e, |a|, st)
  {
    hide Step, DiagonalDone, Rank, Total, Val, Pow, Partial, Pairs, Batches, BatchesLeft, BatchesInFlight;
    StepProgress(e, a, b, st);
    var st' := Step(e, a, b, st);
    assert Calls(e, a, b, st) == 1 + Calls(e, a, b, st');
    if st'.running {
      CallsRemaining(e, a, b, st');
    }
  }

  /** A run takes the sum over the diagonals of what each takes, whatever the operand values. */
  lemma CallsOfRun(e: Engine, a: seq<u64>, b: seq<u64>, st: State)
    requires |a| == |b| >= 1 && |st.res| >= 2 * |a|
    ensures Inv(e, a, b, Start(st))
    ensures Calls(e, a, b, Start(st)) == CallsFrom(e, |a|, 0)
  {
    hide Val, Pow, Total, Partial, Step;
    StartInv(e, a, b, st);
    CallsRemaining(e, a, b, Start(st));
    assert Rank(e, |a|, Start(st)) == DiagCalls(e, DiagLen(|a|, 0));
  }

  /** One call of a driver loop: the rest of the run is the same run, one call shorter. */
  lemma OneCall(e: Engine, a: seq<u64>, b: seq<u64>, st: State)
    requires |a| == |b| >= 1 && |st.res| >= 2 * |a| && st.writeDone
    requires st.running ==> Inv(e, a, b, st)
    ensures Inv(e, a, b, Current(st))
    ensures var r := Call(e, a, b, st);
            && r.running == r.writeDone
            && (r.running ==> Inv(e, a, b, r))
            && Run(e, a, b, Current(st)) == Run(e, a, b, r)
            && Calls(e, a, b, Current(st)) == 1 + Calls(e, a, b, r)
            && (!r.running ==> Run(e, a, b, r) == r && Calls(e, a, b, r) == 0)
  {
    StartInv(e, a, b, st);
    var c := Current(st);
    StepProgress(e, a, b, c);
    AdvanceKeepsShape(e, a, b, c);
  }

  /** A driver loop that has made this many calls of a run from st0 and has more to make. */
  predicate Underway(e: Engine, a: seq<u64>, b: seq<u64>, st0: State, st: State, calls: nat)
    requires |a| == |b| >= 1 && |st0.res| >= 2 * |a|
  {
    StartInv(e, a, b, st0);
    && |st.res| >= 2 * |a|
    && (st.running ==> Inv(e, a, b, st))
    && (StartInv(e, a, b, st);
        Run(e, a, b, Current(st)) == Run(e, a, b, Start(st0)))
    && calls + Calls(e, a, b, Current(st)) == CallsFrom(e, |a|, 0)
  }

  /** A driver loop that started in st0 and has made this many calls. */
  predicate OnCourse(e: Engine, a: seq<u64>, b: seq<u64>, st0: State, st: State, calls: nat) {
    && |a| == |b| >= 1 && |st0.res| >= 2 * |a|
    && calls <= CallsFrom(e, |a|, 0)
    && if st.writeDone then Underway(e, a, b, st0, st, calls)
       else !st.running && st.res == Product(a, b, st0.res) && calls == CallsFrom(e, |a|, 0)
  }

  lemma CourseStarts(e: Engine, a: seq<u64>, b: seq<u64>, st0: State)
    requires |a| == |b| >= 1 && |st0.res| >= 2 * |a| && !st0.running && st0.writeDone
    ensures OnCourse(e, a, b, st0, st0, 0)
  {
    StartInv(e, a, b, st0);
    CallsOfRun(e, a, b, st0);
  }

  lemma CourseGoesOn(e: Engine, a: seq<u64>, b: seq<u64>, st0: State, st: State, calls: nat)
    requires OnCourse(e, a, b, st0, st, calls)
    requires st.writeDone
    ensures calls < CallsFrom(e, |a|, 0) && |st.res| >= 2 * |a| && (st.running ==> Inv(e, a, b, st))
    ensures OnCourse(e, a, b, st0, Call(e, a, b, st), calls + 1)
  {
    OneCall(e, a, b, st);
    RunComputesProduct(e, a, b, st0);
    RunFinishes(e, a, b, Start(st0));
  }

  lemma CourseEnds(e: Engine, a: seq<u64>, b: seq<u64>, st0: State, st: State, calls: nat)
    requires OnCourse(e, a, b, st0, st, calls)
    requires !st.writeDone
    ensures |a| == |b| && |st0.res| >= 2 * |a|
    ensures !st.running && st.res == Product(a, b, st0.res) && calls == CallsFrom(e, |a|, 0)
  {
  }

  /** Calls the seven-stage engine spends on a diagonal of at most 64 pairs; the delay depends on the batch sizes. */
  function Stage7Latency(len: int): int {
    if len <= 2 then 4
    else if len <= 4 then 6
    else if len <= 8 then 7
    else if len <= 16 then 8
    else if len <= 27 then 9
    else if len <= 52 then 10
    else 11
  }

  lemma Stage7DiagCalls(len: int)
    requires 1 <= len <= 64
    ensures DiagCalls(Stage7, len) == Stage7Latency(len)
  {
    var c := Least(len, BATCH);
    var d1 := Arrive(Due(0, 0), CsaDepth(c), 4);
    assert LeftDue(len, 1, Due(0, 0)) == LeftDue(len - BATCH, 2, d1);
    if len > 25 {
      var d2 := Arrive(d1, CsaDepth(Least(len - 25, BATCH)), 5);
      assert LeftDue(len - 25, 2, d1) == LeftDue(len - 50, 3, d2);
      if len > 50 {
        var d3 := Arrive(d2, CsaDepth(Least(len - 50, BATCH)), 6);
        assert LeftDue(len - 50, 3, d2) == LeftDue(len - 75, 4, d3);
      }
    }
  }

  lemma {:induction false} CallsOfSegment(e: Engine, n: nat, s: nat, t: nat, v: int)
    requires s <= t <= 2 * n - 1
    requires forall u :: s <= u < t ==> DiagCalls(e, DiagLen(n, u)) == v
    ensures CallsFrom(e, n, s) == (t - s) * v + CallsFrom(e, n, t)
    decreases t - s
  {
    hide DiagCalls, DiagLen;
    if s < t {
      CallsOfSegment(e, n, s + 1, t, v);
      Distribute(v, t - s - 1, 1);
    }
  }

  lemma CallsOver(e: Engine, n: nat)
    ensures CallsFrom(e, n, if n == 0 then 0 else 2 * n - 1) == 0
  {
  }

  /** The batch-synchronous engines on 64 limbs: 231 batches in all, each diagonal plus its pipeline depth. */
  lemma CallsAt64(e: Engine, n: nat, extra: int)
    requires n == 64
    requires (e.SingleCycle? && extra == 0) || (e.CsaOnly? && extra == 4) || (e.Staged3? && extra == 3)
    ensures CallsFrom(e, n, 0) == 231 + 127 * extra
  {
    CallsOver(e, n);
    hide CallsFrom;
    CallsOfSegment(e, n, 0, 25, 1 + extra);
    CallsOfSegment(e, n, 25, 50, 2 + extra);
    CallsOfSegment(e, n, 50, 77, 3 + extra);
    CallsOfSegment(e, n, 77, 102, 2 + extra);
    CallsOfSegment(e, n, 102, 127, 1 + extra);
  }

  lemma Stage7Segment(n: nat, s: nat, t: nat, v: int)
    requires n == 64 && s <= t <= 127
    requires forall u :: s <= u < t ==> Stage7Latency(DiagLen(n, u)) == v
    ensures CallsFrom(Stage7, n, s) == (t - s) * v + CallsFrom(Stage7, n, t)
  {
    forall u | s <= u < t ensures DiagCalls(Stage7, DiagLen(n, u)) == v {
      Stage7DiagCalls(DiagLen(n, u));
    }
    CallsOfSegment(Stage7, n, s, t, v);
  }

  /** The seven-stage engine takes 1175 calls. */
  lemma Stage7CallsAt64(n: nat)
    requires n == 64
    ensures CallsFrom(Stage7, n, 0) == 1175
  {
    CallsOver(Stage7, n);
    hide CallsFrom;
    Stage7Segment(n, 0, 2, 4);
    Stage7Segment(n, 2, 4, 6);
    Stage7Segment(n, 4, 8, 7);
    Stage7Segment(n, 8, 16, 8);
    Stage7Segment(n, 16, 27, 9);
    Stage7Segment(n, 27, 52, 10);
    Stage7Segment(n, 52, 75, 11);
    Stage7Segment(n, 75, 100, 10);
    Stage7Segment(n, 100, 111, 9);
    Stage7Segment(n, 111, 119, 8);
    Stage7Segment(n, 119, 123, 7);
    Stage7Segment(n, 123, 125, 6);
    Stage7Segment(n, 125, 127, 4);
  }

  // ------------------------------------------------------------ every pair once

  /** All pairs of diagonals s, s+1, ... in order. */
  function PairsFrom(n: nat, s: nat): seq<(int, int)>
    decreases 2 * n - s
  {
    if s >= 2 * n - 1 then []
    else Pairs(s, IMin(n, s), if DiagLen(n, s) >= 0 then DiagLen(n, s) else 0) + PairsFrom(n, s + 1)
  }

  lemma PairsSplit(s: int, k: int, c: nat, d: nat, rest: seq<(int, int)>)
    ensures Pairs(s, k, c) + (Pairs(s, k + c, d) + rest) == Pairs(s, k, c + d) + rest
  {
    assert Pairs(s, k, c + d) == Pairs(s, k, c) + Pairs(s, k + c, d);
  }

  lemma {:induction false} VisitsRemaining(e: Engine, a: seq<u64>, b: seq<u64>, st: State)
    requires st.running && Inv(e, a, b, st)
    ensures Visits(e, a, b, st) == Pairs(st.s, st.k, Left(|a|, st)) + PairsFrom(|a|, st.s + 1)
    decreases 2 * |a| - st.s, Rank(e, |a|, st)
  {
    hide Step, DiagonalDone, Rank, Total, Val, Pow, Partial, Pairs, Batches, BatchesLeft, BatchesInFlight;
    StepProgress(e, a, b, st);
    var st', c := Step(e, a, b, st), Count(|a|, st);
    var rest := PairsFrom(|a|, st.s + 1);
    assert Visits(e, a, b, st) == Pairs(st.s, st.k, c) + Visits(e, a, b, st');
    if st'.running {
      VisitsRemaining(e, a, b, st');
      if st'.s == st.s {
        PairsSplit(st.s, st.k, c, Left(|a|, st'), rest);
      } else {
        assert Visits(e, a, b, st') == rest;
      }
    }
  }

  lemma {:induction false} PairsHold(s: int, k: int, c: nat, i: int, j: int)
    ensures multiset(Pairs(s, k, c))[(i, j)] == if i + j == s && k <= i < k + c then 1 else 0
  {
    if c > 0 {
      PairsHold(s, k, c - 1, i, j);
      assert Pairs(s, k, c) == Pairs(s, k, c - 1) + [(k + (c - 1), s - (k + (c - 1)))];
    }
  }

  lemma {:induction false} PairsFromHold(n: nat, s: nat, i: int, j: int)
    ensures multiset(PairsFrom(n, s))[(i, j)] == if 0 <= i < n && 0 <= j < n && i + j >= s then 1 else 0
    decreases 2 * n - s
  {
    if s < 2 * n - 1 {
      PairsFromHold(n, s + 1, i, j);
      PairsHold(s, IMin(n, s), DiagLen(n, s), i, j);
    }
  }

  /** Across a whole run the generator visits each pair of limbs exactly once, and no other pair. */
  lemma EveryPairOnce(e: Engine, a: seq<u64>, b: seq<u64>, st: State, i: int, j: int)
    requires |a| == |b| >= 1 && |st.res| >= 2 * |a|
    ensures Inv(e, a, b, Start(st))
    ensures multiset(Visits(e, a, b, Start(st)))[(i, j)] == if 0 <= i < |a| && 0 <= j < |a| then 1 else 0
  {
    StartInv(e, a, b, st);
    VisitsRemaining(e, a, b, Start(st));
    assert Visits(e, a, b, Start(st)) == PairsFrom(|a|, 0);
    PairsFromHold(|a|, 0, i, j);
  }

  /**
   The cache reads of a run stay inside caches of this many limbs exactly when the operands do. The
   two engines that take their size from the unit pass it on unchecked.
   */
  lemma ReadsInBounds(e: Engine, a: seq<u64>, b: seq<u64>, st: State, limbs: nat)
    requires |a| == |b| >= 1 && |st.res| >= 2 * |a|
    ensures Inv(e, a, b, Start(st))
    ensures InRange(limbs, Visits(e, a, b, Start(st))) <==> |a| <= limbs
  {
    EveryPairOnce(e, a, b, st, |a| - 1, |a| - 1);
    var visits := Visits(e, a, b, Start(st));
    hide Visits, Inv;
    if |a| <= limbs {
      forall t | 0 <= t < |visits| ensures 0 <= visits[t].0 < limbs && 0 <= visits[t].1 < limbs {
        EveryPairOnce(e, a, b, st, visits[t].0, visits[t].1);
        assert visits[t] in visits;
      }
    } else {
      assert (|a| - 1, |a| - 1) in visits;
    }
  }

  /** Size 65, which the decode stage accepts, reads limb 64 of both 64-limb caches. */
  lemma OverrunAt65(e: Engine, a: seq<u64>, b: seq<u64>, st: State)
    requires |a| == |b| == 65 && |st.res| >= 130
    ensures Inv(e, a, b, Start(st))
    ensures (64, 64) in Visits(e, a, b, Start(st))
  {
    EveryPairOnce(e, a, b, st, 64, 64);
  }
}
