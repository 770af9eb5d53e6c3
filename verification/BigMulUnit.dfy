/**
 The bigmul unit as the simulator runs it: 64-bit words, fixed-size buffers, one call per clock.
 Each engine's call is proved to be exactly one clock of the machine.
 */
module BigMulUnit {
  import opened Limbs
  import opened Convolution
  import opened Machine
  import opened MachineProofs
  import opened MachineRuns
  import opened BigMulWords

  predicate TakesSize(e: Engine) { e.SingleCycle? || e.CsaOnly? }

  /** Limbs an engine takes for an operand size: the two staged engines have 64 built in. */
  function TakenBy(e: Engine, size: nat): nat { if TakesSize(e) then size else LIMBS }

  /** The operand size a bigmul instruction leaves, given its second register. */
  function NextSize(size: nat, rs2: u64): nat { if 0 < rs2 < SIZES then rs2 else size }

  class Unit {
    var bigmulDone: bool
    var ldbmDone: bool
    var ldbmOffset: u64
    var bigmulProg: u64
    var writeOffset: u64
    var writeDone: bool
    var baseAddrA: u64
    var baseAddrB: u64
    var baseAddrRes: u64
    const cacheA: array<u64>
    const cacheB: array<u64>
    const resultCache: array<u64>
    var sizeOfOperand: nat

    var sDiag: int
    var iMin: int
    var iMax: int
    var kIter: int
    var genDone: bool

    var pGEN: GenBatch
    var pLOAD: LoadBatch
    var pMUL: MulBatch
    const dq: array<DelayItem>
    var dqLen: int

    var acc0: u64
    var acc1: u64
    var acc2: u64
    var pendingDepth: int

    const accum: array<Acc>
    const accumValid: array<bool>

    ghost predicate Valid()
      reads this, dq
    {
      && ArraysOk(cacheA, cacheB, resultCache, accum, accumValid)
      && 1 <= sizeOfOperand < SIZES
      && RegistersOk(pGEN, pLOAD, sDiag, kIter, pendingDepth)
      && QueueOk(dq[..], dqLen)
    }

    ghost function Accumulator(): nat
      reads this`acc0, this`acc1, this`acc2
    {
      V3(acc0, acc1, acc2)
    }

    ghost function Queue(): seq<Item>
      reads this`dqLen, dq
      requires QueueOk(dq[..], dqLen)
    {
      Items(dq[..dqLen])
    }

    ghost function Stages(): seq<Slot>
      reads accum, accumValid
      requires accum.Length == 4 && accumValid.Length == 4
    {
      [StageAt(0), StageAt(1), StageAt(2), StageAt(3)]
    }

    ghost function StageAt(i: nat): Slot
      reads accum, accumValid
      requires accum.Length == 4 && accumValid.Length == 4 && i < 4
    {
      if accumValid[i] then Full(accum[i].Value()) else Empty
    }

    /** The machine state the unit's words and buffers stand for. */
    ghost function Abs(): State
      reads this, resultCache, dq, accum, accumValid
      requires Valid()
    {
      State(bigmulProg != 0, writeDone, sDiag, kIter, Accumulator(), resultCache[..], Stages(),
            pGEN.Held(), pLOAD.Held(), pMUL.Held(), pendingDepth, Queue())
    }

    /** Limbs the engine multiplies: the two staged engines always take all 64. */
    ghost function Size(e: Engine): nat
      reads this`sizeOfOperand
    {
      TakenBy(e, sizeOfOperand)
    }

    ghost function OpA(e: Engine): (a: seq<u64>)
      reads this`sizeOfOperand, cacheA
      requires cacheA.Length == LIMBS && Size(e) <= LIMBS
      ensures |a| == Size(e)
    {
      cacheA[..Size(e)]
    }

    ghost function OpB(e: Engine): (b: seq<u64>)
      reads this`sizeOfOperand, cacheB
      requires cacheB.Length == LIMBS && Size(e) <= LIMBS
      ensures |b| == Size(e)
    {
      cacheB[..Size(e)]
    }

    /** The engine's operands fit the caches, and a running unit is in a state of a run of this engine. */
    ghost predicate Ready(e: Engine)
      reads this, cacheA, cacheB, resultCache, dq, accum, accumValid
      requires Valid()
    {
      && Size(e) <= LIMBS
      && (bigmulProg != 0 ==>
            && Inv(e, OpA(e), OpB(e), Abs())
            && iMax == IMax(Size(e), sDiag)
            && (e.SingleCycle? || (genDone <==> kIter > iMax)))
    }

    constructor ()
      ensures Valid() && fresh(cacheA) && fresh(cacheB) && fresh(resultCache)
      ensures fresh(dq) && fresh(accum) && fresh(accumValid)
      ensures bigmulDone && writeDone && bigmulProg == 0 && sizeOfOperand == LIMBS
      ensures forall i :: 0 <= i < LIMBS ==> cacheA[i] == 0 && cacheB[i] == 0
    {
      bigmulDone, ldbmDone, writeDone := true, true, true;
      ldbmOffset, bigmulProg, writeOffset := 0, 0, 0;
      baseAddrA, baseAddrB, baseAddrRes := 0, 0, 0;
      sizeOfOperand := LIMBS;
      sDiag, iMin, iMax, kIter, genDone := 0, 0, 0, 0, false;
      pGEN, pLOAD, pMUL := EmptyGen(), EmptyLoad(), EMPTYMUL;
      dqLen, pendingDepth := 0, 0;
      acc0, acc1, acc2 := 0, 0, 0;
      cacheA := new u64[LIMBS](_ => 0);
      cacheB := new u64[LIMBS](_ => 0);
      resultCache := new u64[2 * LIMBS](_ => 0);
      dq := new DelayItem[SLOTS](_ => EMPTYITEM);
      accum := new Acc[4](_ => Acc(0, 0, 0));
      accumValid := new bool[4](_ => false);
    }

    // ---------------------------------------------------------- accumulator

    method AccClear()
      modifies this`acc0, this`acc1, this`acc2
      ensures Accumulator() == 0
    {
      acc0, acc1, acc2 := 0, 0, 0;
    }

    method AccAddU128(lo: u64, hi: u64)
      modifies this`acc0, this`acc1, this`acc2
      ensures Accumulator() == (old(Accumulator()) + lo + B * hi) % B3
    {
      acc0, acc1, acc2 := AddWide(acc0, acc1, acc2, lo, hi);
    }

    method AccAddU192(lo: u64, hi: u64, hi2: u64)
      modifies this`acc0, this`acc1, this`acc2
      ensures Accumulator() == (old(Accumulator()) + V3(lo, hi, hi2)) % B3
      ensures old(Accumulator()) + V3(lo, hi, hi2) < B3 ==> Accumulator() == old(Accumulator()) + V3(lo, hi, hi2)
    {
      ghost var x := Accumulator() + lo + B * hi;
      AccAddU128(lo, hi);
      assert x == B3 * (x / B3) + Accumulator();
      ghost var w := acc2 + hi2;
      acc2 := (acc2 + hi2) % B;
      assert w == B * (w / B) + acc2;
      V3Unique(x + B2 * hi2, x / B3 + w / B, Accumulator());
      V3Exact(old(Accumulator()) + V3(lo, hi, hi2));
    }

    method AccShr64()
      modifies this`acc0, this`acc1, this`acc2
      ensures Accumulator() == old(Accumulator()) / B
    {
      acc0 := acc1;
      acc1 := acc2;
      acc2 := 0;
    }

    // ---------------------------------------------------------- delay queue

    method DqPopFront()
      requires QueueOk(dq[..], dqLen)
      modifies this`dqLen, dq
      ensures QueueOk(dq[..], dqLen)
      ensures Queue() == if old(dqLen) == 0 then [] else old(Queue())[1..]
    {
      if dqLen == 0 { return; }
      var i := 1;
      while i < dqLen
        modifies dq
        invariant 1 <= i <= dqLen
        decreases dqLen - i
        invariant forall t :: 0 <= t < i - 1 ==> dq[t] == old(dq[t + 1])
        invariant forall t :: i - 1 <= t < SLOTS ==> dq[t] == old(dq[t])
      {
        dq[i - 1] := dq[i];
        i := i + 1;
      }
      dqLen := dqLen - 1;
      dq[dqLen] := EMPTYITEM;
      assert forall t :: 0 <= t < dqLen ==> dq[..dqLen][t] == old(dq[..dqLen])[t + 1];
    }

    /** Drops the batch silently when nothing is to be waited for or the queue is full. */
    method DqPush(mb: MulBatch, remain: int)
      requires QueueOk(dq[..], dqLen)
      modifies this`dqLen, dq
      ensures QueueOk(dq[..], dqLen)
      ensures Queue() == if remain <= 0 || old(dqLen) >= SLOTS then old(Queue())
                         else old(Queue()) + [Item(V3(mb.lo, mb.hi, mb.hi2), remain)]
    {
      if remain <= 0 { return; }
      if dqLen >= SLOTS { return; }
      dq[dqLen] := DelayItem(mb, remain, true);
      dqLen := dqLen + 1;
      assert dq[..dqLen] == old(dq[..dqLen]) + [DelayItem(mb, remain, true)];
    }

    /** One clock less to wait for every queued batch. */
    method DqAge()
      requires QueueOk(dq[..], dqLen)
      modifies dq
      ensures QueueOk(dq[..], dqLen)
      ensures Queue() == Age(old(Queue()))
    {
      var i := 0;
      while i < dqLen
        modifies dq
        invariant 0 <= i <= dqLen
        invariant forall t :: 0 <= t < dqLen ==>
          dq[t] == if t < i && old(dq[t]).remain > 0 then old(dq[t]).(remain := old(dq[t]).remain - 1) else old(dq[t])
      {
        if dq[i].valid && dq[i].remain > 0 {
          dq[i] := dq[i].(remain := dq[i].remain - 1);
        }
        i := i + 1;
      }
    }

    // ---------------------------------------------------------- start and end of a diagonal

    method ClearPipeline()
      requires Valid()
      modifies this`pGEN, this`pLOAD, this`pMUL, this`dqLen, this`acc0, this`acc1, this`acc2, dq, accum, accumValid
      ensures pGEN == EmptyGen() && pLOAD == EmptyLoad() && pMUL == EMPTYMUL
      ensures QueueOk(dq[..], dqLen) && Queue() == [] && Stages() == NOSTAGES && Accumulator() == 0
    {
      pGEN := EmptyGen();
      pLOAD := EmptyLoad();
      pMUL := EMPTYMUL;
      for i := 0 to SLOTS
        modifies dq
      {
        dq[i] := EMPTYITEM;
      }
      dqLen := 0;
      AccClear();
      ClearStages();
    }

    method StartBigmul()
      requires Valid()
      modifies this`sDiag, this`iMin, this`iMax, this`kIter, this`genDone, this`pGEN, this`pLOAD, this`pMUL,
        this`dqLen, this`acc0, this`acc1, this`acc2, this`bigmulDone, this`bigmulProg, this`writeDone,
        dq, accum, accumValid
      ensures Valid()
      ensures Abs() == Start(old(Abs()))
      ensures !bigmulDone && bigmulProg == 1 && iMax == 0 && !genDone
    {
      hide V3, Items, StageAt, Stages;
      SetDiagonal(0, 0);
      genDone := false;
      ClearPipeline();
      bigmulDone := false;
      bigmulProg := 1;
      writeDone := true;
    }

    method ClearStages()
      requires accum.Length == 4 && accumValid.Length == 4
      modifies accum, accumValid
      ensures Stages() == NOSTAGES
    {
      for i := 0 to 4
        invariant forall t :: 0 <= t < i ==> !accumValid[t]
      {
        accum[i] := Acc(0, 0, 0);
        accumValid[i] := false;
      }
    }

    method EmitWord(at: int)
      requires 0 <= at < resultCache.Length
      modifies resultCache
      ensures resultCache[..] == old(resultCache[..])[at := Accumulator() % B]
    {
      V3Shift(acc0, acc1, acc2);
      resultCache[at] := acc0;
    }

    method SetDiagonal(s: int, lim: int)
      modifies this`sDiag, this`iMin, this`iMax, this`kIter
      ensures sDiag == s && iMin == IMin(lim + 1, s) && iMax == IMax(lim + 1, s) && kIter == iMin
    {
      sDiag := s;
      iMin := if sDiag > lim then sDiag - lim else 0;
      iMax := if sDiag < lim then sDiag else lim;
      kIter := iMin;
    }

    /** Write the low word of the accumulator at the diagonal's place and keep the rest as carry. */
    method EmitDiagonal()
      requires Valid() && sDiag < resultCache.Length
      modifies this`acc0, this`acc1, this`acc2, resultCache
      ensures Valid()
      ensures Abs() == old(Abs()).(res := old(resultCache[..])[sDiag := old(Accumulator()) % B],
                                   acc := old(Accumulator()) / B)
    {
      hide V3, Items, StageAt, Stages, GenBatch.Held, LoadBatch.Held, MulBatch.Held;
      EmitWord(sDiag);
      AccShr64();
    }

    /** Behind the last diagonal the carry is the top word, and the write-back can begin. */
    method StopRun(last: int)
      requires Valid() && 0 <= last && last + 1 < resultCache.Length
      modifies this`bigmulProg, this`writeDone, resultCache
      ensures Valid() && bigmulProg == 0
      ensures Abs() == old(Abs()).(res := old(resultCache[..])[last + 1 := Accumulator() % B],
                                   running := false, writeDone := false)
    {
      hide V3, Items, StageAt, Stages, GenBatch.Held, LoadBatch.Held, MulBatch.Held;
      EmitWord(last + 1);
      bigmulProg := 0;
      writeDone := false;
    }

    /**
     The tail common to the engines: emit the low word and carry the rest; stop after the last
     diagonal, otherwise set up the next. The pipelined engines also clear their end-of-diagonal
     flag there; singlecycle leaves it alone.
     */
    method FinishDiagonal(lim: int, last: int, clears: bool)
      requires Valid()
      requires 0 <= lim < LIMBS && last == 2 * lim && sDiag <= last && bigmulProg != 0
      modifies this`sDiag, this`iMin, this`iMax, this`kIter, this`genDone, this`acc0, this`acc1, this`acc2,
        this`bigmulProg, this`writeDone, resultCache
      ensures Valid()
      ensures genDone == if old(sDiag) != last && clears then false else old(genDone)
      ensures Abs() == Emit(lim + 1, old(Abs()))
      ensures old(sDiag) != last ==> iMax == IMax(lim + 1, sDiag) && kIter <= iMax
    {
      hide V3, Items, StageAt, Stages, Queue, GenBatch.Held, LoadBatch.Held, MulBatch.Held;
      EmitDiagonal();
      if sDiag == last {
        StopRun(last);
      } else {
        SetDiagonal(sDiag + 1, lim);
        if clears {
          genDone := false;
        }
      }
    }

    // ---------------------------------------------------------- the work of one clock

    /** Generate, load and multiply up to 25 pairs of the current diagonal in one clock. */
    method GenLoadMul(ghost n: nat) returns (processed: int, b0: u64, b1: u64, b2: u64)
      requires Valid() && 1 <= n <= LIMBS && sDiag <= 2 * n - 2
      requires IMin(n, sDiag) <= kIter <= iMax + 1 && iMax == IMax(n, sDiag)
      modifies this`kIter
      ensures var left := iMax + 1 - old(kIter);
              processed == if left < BATCH then left else BATCH
      ensures kIter == old(kIter) + processed
      ensures V3(b0, b1, b2) == RangeSum(cacheA[..n], cacheB[..n], sDiag, old(kIter), kIter)
    {
      ghost var a, b := cacheA[..n], cacheB[..n];
      processed, b0, b1, b2 := 0, 0, 0, 0;
      while processed < BATCH && kIter <= iMax
        invariant 0 <= processed <= BATCH && kIter == old(kIter) + processed && kIter <= iMax + 1
        invariant V3(b0, b1, b2) == RangeSum(a, b, sDiag, old(kIter), kIter)
        decreases BATCH - processed
      {
        var ii := kIter;
        var jj := sDiag - ii;
        kIter := kIter + 1;
        processed := processed + 1;
        var ai := cacheA[ii];
        var bj := cacheB[jj];
        BatchFits(a, b, sDiag, old(kIter), kIter);
        assert RangeSum(a, b, sDiag, old(kIter), kIter) == V3(b0, b1, b2) + Times(ai, bj);
        b0, b1, b2 := AddProduct(b0, b1, b2, ai, bj);
      }
    }

    /** Multiply the loaded batch and sum it. */
    method MulLoaded() returns (mb: MulBatch)
      requires pLOAD.Valid()
      ensures mb.Held() == if pLOAD.Held() != [] then Full(Dot(pLOAD.Held())) else Empty
    {
      mb := EMPTYMUL;
      if pLOAD.valid && pLOAD.count > 0 {
        var b0: u64, b1: u64, b2: u64 := 0, 0, 0;
        ghost var held := pLOAD.Held();
        var t := 0;
        while t < pLOAD.count
          invariant 0 <= t <= pLOAD.count
          invariant V3(b0, b1, b2) == Dot(held[..t])
        {
          DotFits(held[..t + 1]);
          assert held[..t + 1][..t] == held[..t];
          b0, b1, b2 := AddProduct(b0, b1, b2, pLOAD.ai[t], pLOAD.bj[t]);
          t := t + 1;
        }
        assert held[..t] == held;
        mb := MulBatch(b0, b1, b2, true);
      }
    }

    /** Load the limbs of the generated pairs. */
    method LoadGenerated(ghost n: nat) returns (lb: LoadBatch)
      requires Valid() && n <= LIMBS && InRange(n, pGEN.Held())
      ensures lb.Valid() && lb.Held() == Fetch(cacheA[..n], cacheB[..n], pGEN.Held())
    {
      lb := EmptyLoad();
      if pGEN.valid && pGEN.count > 0 {
        var t := 0;
        while t < pGEN.count
          invariant 0 <= t <= pGEN.count && |lb.ai| == |lb.bj| == BATCH
          invariant forall u :: 0 <= u < t ==>
            && lb.ai[u] == cacheA[pGEN.Held()[u].0] && lb.bj[u] == cacheB[pGEN.Held()[u].1]
        {
          assert pGEN.Held()[t] == (pGEN.i[t], pGEN.j[t]);
          lb := lb.(ai := lb.ai[t := cacheA[pGEN.i[t]]], bj := lb.bj[t := cacheB[pGEN.j[t]]]);
          t := t + 1;
        }
        lb := lb.(count := pGEN.count, valid := true);
      }
    }

    /** Generate up to 25 pairs of the current diagonal. */
    method Generate() returns (gb: GenBatch)
      requires 0 <= kIter <= iMax + 1
      modifies this`kIter, this`genDone
      ensures var left := iMax + 1 - old(kIter);
              var c := if old(genDone) then 0 else if left < BATCH then left else BATCH;
              gb.Valid() && gb.Held() == Pairs(sDiag, old(kIter), c) && kIter == old(kIter) + c
      ensures genDone == (old(genDone) || kIter > iMax)
    {
      gb := EmptyGen();
      if !genDone {
        var produced := 0;
        while produced < BATCH && kIter <= iMax
          invariant 0 <= produced <= BATCH && kIter == old(kIter) + produced && kIter <= iMax + 1
          invariant |gb.i| == |gb.j| == BATCH
          invariant forall u :: 0 <= u < produced ==> gb.i[u] == old(kIter) + u && gb.j[u] == sDiag - (old(kIter) + u)
          invariant genDone == old(genDone)
          decreases BATCH - produced
        {
          var ii := kIter;
          var jj := sDiag - ii;
          gb := gb.(i := gb.i[produced := ii], j := gb.j[produced := jj]);
          kIter := kIter + 1;
          produced := produced + 1;
        }
        gb := gb.(count := produced, valid := produced > 0);
        if kIter > iMax {
          genDone := true;
        }
      }
    }

    // ---------------------------------------------------------- the four engines

    /** First active clock: start the unit if it is not running. */
    method Begin(ghost e: Engine)
      requires Valid() && Ready(e) && !bigmulDone
      modifies this, dq, accum, accumValid
      ensures Valid() && Ready(e) && bigmulProg != 0 && !bigmulDone
      ensures Abs() == Current(old(Abs())) && sizeOfOperand == old(sizeOfOperand)
      ensures resultCache[..] == old(resultCache[..])
    {
      if bigmulProg == 0 {
        ghost var st := Abs();
        StartBigmul();
        StartInv(e, OpA(e), OpB(e), st);
      }
    }

    /** Singlecycle up to its test for a finished diagonal: a batch goes straight into the accumulator. */
    method SingleBatch()
      requires Valid() && Ready(SingleCycle) && bigmulProg != 0
      modifies this`kIter, this`acc0, this`acc1, this`acc2
      ensures kIter == Advance(SingleCycle, OpA(SingleCycle), OpB(SingleCycle), old(Abs())).k
      ensures Accumulator() == Advance(SingleCycle, OpA(SingleCycle), OpB(SingleCycle), old(Abs())).acc
    {
      hide Total, Val, Pow, Partial, Batches, BatchesLeft, RangeSum, Stages, Items, Dot, Fetch, Pairs;
      ghost var a, b, st := OpA(SingleCycle), OpB(SingleCycle), Abs();
      AccumulatorFits(SingleCycle, a, b, st);
      assert Shape(a, b, st);
      hide Inv, V3;
      var processed, b0, b1, b2 := GenLoadMul(sizeOfOperand);
      if processed > 0 {
        AccAddU192(b0, b1, b2);
      }
    }

    /**
     The test that ends each clock: when everything of the diagonal has reached the accumulator,
     emit its word and go on. The pipelined engines then take up generating again.
     */
    method EndClock(e: Engine, ghost st: State, done: bool, lim: int, last: int)
      requires Valid() && bigmulProg != 0 && lim == Size(e) - 1 && last == 2 * lim && Size(e) <= LIMBS
      requires Inv(e, OpA(e), OpB(e), st) && st.running
      requires Abs() == Advance(e, OpA(e), OpB(e), st)
      requires done <==> DiagonalDone(e, lim + 1, Abs())
      requires iMax == IMax(lim + 1, sDiag) && (e.SingleCycle? || (genDone <==> kIter > iMax))
      modifies this`sDiag, this`iMin, this`iMax, this`kIter, this`genDone, this`acc0, this`acc1, this`acc2,
        this`bigmulProg, this`writeDone, resultCache
      ensures Valid() && Ready(e)
      ensures Abs() == Step(e, OpA(e), OpB(e), st)
      ensures done ==> Drained(e, Abs())
    {
      hide Total, Val, Pow, Partial, Batches, BatchesLeft, BatchesInFlight, V3, Stages, Items;
      ghost var a, b := OpA(e), OpB(e);
      assert Shape(a, b, st);
      hide Inv, Advance;
      StepInv(e, a, b, st);
      AdvanceKeepsShape(e, a, b, st);
      if done {
        FinishDiagonal(lim, last, !e.SingleCycle?);
      }
    }

    /** The rest of singlecycle once the unit runs. */
    method SingleClock()
      requires Valid() && Ready(SingleCycle) && bigmulProg != 0
      modifies this`sDiag, this`iMin, this`iMax, this`kIter, this`genDone, this`acc0, this`acc1, this`acc2,
        this`bigmulProg, this`writeDone, resultCache
      ensures Valid() && Ready(SingleCycle)
      ensures Abs() == Step(SingleCycle, OpA(SingleCycle), OpB(SingleCycle), old(Abs()))
    {
      ghost var st := Abs();
      hide Advance, Step;
      SingleBatch();
      EndClock(SingleCycle, st, kIter > iMax, sizeOfOperand - 1, sizeOfOperand * 2 - 2);
    }

    /** Retire the oldest stage into the accumulator and move the others down by one. */
    method CsaShift()
      requires Valid()
      requires Accumulator() + Stages()[3].Sum() < B3
      modifies this`acc0, this`acc1, this`acc2, accum, accumValid
      ensures Accumulator() == old(Accumulator() + Stages()[3].Sum())
      ensures Stages() == [Empty, old(Stages()[0]), old(Stages()[1]), old(Stages()[2])]
    {
      var oldAccum, oldValid := accum[..], accumValid[..];
      if oldValid[3] {
        AccAddU192(oldAccum[3].a0, oldAccum[3].a1, oldAccum[3].a2);
      }
      var s := 3;
      while s >= 1
        modifies accum, accumValid
        invariant 0 <= s <= 3
        invariant forall t :: s < t <= 3 ==>
                    accumValid[t] == oldValid[t - 1] && (oldValid[t - 1] ==> accum[t] == oldAccum[t - 1])
      {
        if oldValid[s - 1] {
          accum[s] := oldAccum[s - 1];
          accumValid[s] := true;
        } else {
          accumValid[s] := false;
          accum[s] := Acc(0, 0, 0);
        }
        s := s - 1;
      }
      accumValid[0] := false;
      accum[0] := Acc(0, 0, 0);
    }

    /** Generate, load and multiply a batch and put its sum into the first stage. */
    method CsaInsert(ghost n: nat)
      requires Valid() && 1 <= n <= LIMBS && sDiag <= 2 * n - 2 && StageAt(0) == Empty
      requires IMin(n, sDiag) <= kIter <= iMax + 1 && iMax == IMax(n, sDiag)
      modifies this`kIter, this`genDone, accum, accumValid
      ensures var left := iMax + 1 - old(kIter);
              kIter == old(kIter) + if left < BATCH then left else BATCH
      ensures Stages() == old(Stages())[0 :=
                if kIter > old(kIter) then Full(RangeSum(cacheA[..n], cacheB[..n], sDiag, old(kIter), kIter))
                else Empty]
      ensures genDone == (old(genDone) || kIter > iMax)
    {
      var processed, b0, b1, b2 := GenLoadMul(n);
      if kIter > iMax {
        genDone := true;
      }
      if processed > 0 {
        accum[0] := Acc(b0, b1, b2);
        accumValid[0] := true;
      }
    }

    method CsaEmpty() returns (empty: bool)
      requires accum.Length == 4 && accumValid.Length == 4
      ensures empty <==> forall i :: 0 <= i < 4 ==> Stages()[i].Empty?
    {
      empty := true;
      var i := 0;
      while i < 4
        invariant 0 <= i <= 4
        invariant empty <==> forall t :: 0 <= t < i ==> !accumValid[t]
      {
        if accumValid[i] {
          empty := false;
          assert Stages()[i] == StageAt(i);
          break;
        }
        i := i + 1;
      }
    }

    /** Csa_only_pipeline up to its test for a finished diagonal. */
    method CsaBatch()
      requires Valid() && Ready(CsaOnly) && bigmulProg != 0
      modifies this`kIter, this`genDone, this`acc0, this`acc1, this`acc2, accum, accumValid
      ensures var st' := Advance(CsaOnly, OpA(CsaOnly), OpB(CsaOnly), old(Abs()));
              kIter == st'.k && Accumulator() == st'.acc && Stages() == st'.stages
      ensures genDone <==> kIter > iMax
    {
      hide Total, Val, Pow, Partial, V3, StageAt, Items, Queue, Dot, Fetch, Pairs, RangeSum, Batches, BatchesLeft;
      ghost var st := Abs();
      AccumulatorFits(CsaOnly, OpA(CsaOnly), OpB(CsaOnly), st);
      assert Advance(CsaOnly, OpA(CsaOnly), OpB(CsaOnly), st).acc == Accumulator() + Stages()[3].Sum();
      hide Inv;
      CsaShift();
      CsaInsert(sizeOfOperand);
    }

    /** Clearing an empty pipeline changes nothing that counts. */
    method ClearDrained()
      requires Valid() && Drained(CsaOnly, Abs())
      modifies accum, accumValid
      ensures Valid() && Abs() == old(Abs())
    {
      ClearStages();
    }

    method CsaEnd(ghost st: State, pipeEmpty: bool)
      requires Valid() && bigmulProg != 0 && iMax == IMax(sizeOfOperand, sDiag) && (genDone <==> kIter > iMax)
      requires sizeOfOperand <= LIMBS
      requires Inv(CsaOnly, OpA(CsaOnly), OpB(CsaOnly), st) && st.running
      requires Abs() == Advance(CsaOnly, OpA(CsaOnly), OpB(CsaOnly), st)
      requires pipeEmpty <==> Drained(CsaOnly, Abs())
      modifies this`sDiag, this`iMin, this`iMax, this`kIter, this`genDone, this`acc0, this`acc1, this`acc2,
        this`bigmulProg, this`writeDone, resultCache, accum, accumValid
      ensures Valid() && Ready(CsaOnly)
      ensures Abs() == Step(CsaOnly, OpA(CsaOnly), OpB(CsaOnly), st)
    {
      hide Advance, Step;
      var done := genDone && pipeEmpty;
      EndClock(CsaOnly, st, done, sizeOfOperand - 1, sizeOfOperand * 2 - 2);
      if done {
        ClearDrained();
      }
    }

    /** The rest of csa_only_pipeline once the unit runs. */
    method CsaClock()
      requires Valid() && Ready(CsaOnly) && bigmulProg != 0
      modifies this`sDiag, this`iMin, this`iMax, this`kIter, this`genDone, this`acc0, this`acc1, this`acc2,
        this`bigmulProg, this`writeDone, resultCache, accum, accumValid
      ensures Valid() && Ready(CsaOnly)
      ensures Abs() == Step(CsaOnly, OpA(CsaOnly), OpB(CsaOnly), old(Abs()))
    {
      ghost var st := Abs();
      hide Advance, Step;
      CsaBatch();
      var pipeEmpty := CsaEmpty();
      CsaEnd(st, pipeEmpty);
    }

    /** What the generator produces next; nothing once the diagonal is used up. */
    ghost function NextPairs(): seq<(int, int)>
      reads this`iMax, this`kIter, this`sDiag
      requires kIter <= iMax + 1
    {
      Pairs(sDiag, kIter, if iMax + 1 - kIter < BATCH then iMax + 1 - kIter else BATCH)
    }

    /** Multiply what was loaded, load what was generated, generate anew. */
    method ShiftRegisters()
      requires Valid() && InRange(LIMBS, pGEN.Held())
      requires kIter <= iMax + 1 && (genDone <==> kIter > iMax)
      modifies this`kIter, this`genDone, this`pGEN, this`pLOAD, this`pMUL
      ensures pGEN.Valid() && pLOAD.Valid()
      ensures pMUL.Held() == if old(pLOAD.Held()) != [] then Full(Dot(old(pLOAD.Held()))) else Empty
      ensures pLOAD.Held() == Fetch(cacheA[..LIMBS], cacheB[..LIMBS], old(pGEN.Held()))
      ensures pGEN.Held() == old(NextPairs()) && kIter == old(kIter + |NextPairs()|)
      ensures genDone <==> kIter > iMax
    {
      var nextMUL := MulLoaded();
      var nextLOAD := LoadGenerated(LIMBS);
      var nextGEN := Generate();
      pMUL := nextMUL;
      pLOAD := nextLOAD;
      pGEN := nextGEN;
    }

    /** Staged3pipeline up to its test for a finished diagonal: retire, multiply, load, generate. */
    method Staged3Batch()
      requires Valid() && Ready(Staged3) && bigmulProg != 0
      modifies this`kIter, this`genDone, this`acc0, this`acc1, this`acc2, this`pGEN, this`pLOAD, this`pMUL
      ensures pGEN.Valid() && pLOAD.Valid()
      ensures var st' := Advance(Staged3, OpA(Staged3), OpB(Staged3), old(Abs()));
              && kIter == st'.k && Accumulator() == st'.acc
              && pGEN.Held() == st'.gen && pLOAD.Held() == st'.load && pMUL.Held() == st'.mul
      ensures genDone <==> kIter > iMax
    {
      AccumulatorFits(Staged3, OpA(Staged3), OpB(Staged3), Abs());
      hide Inv, Total, Val, Pow, Partial, V3;
      if pMUL.valid {
        AccAddU192(pMUL.lo, pMUL.hi, pMUL.hi2);
      }
      ShiftRegisters();
    }

    /** The rest of staged3pipeline once the unit runs. */
    method Staged3Clock()
      requires Valid() && Ready(Staged3) && bigmulProg != 0
      modifies this`sDiag, this`iMin, this`iMax, this`kIter, this`genDone, this`acc0, this`acc1, this`acc2,
        this`pGEN, this`pLOAD, this`pMUL, this`bigmulProg, this`writeDone, resultCache
      ensures Valid() && Ready(Staged3)
      ensures Abs() == Step(Staged3, OpA(Staged3), OpB(Staged3), old(Abs()))
    {
      ghost var st := Abs();
      hide Advance, Step;
      Staged3Batch();
      var pipeEmpty := !pGEN.valid && !pLOAD.valid && !pMUL.valid;
      EndClock(Staged3, st, genDone && pipeEmpty, 63, 126);
    }

    /** Retire what is due from the delay queue, let the rest wait one clock less, then retire or queue pMUL. */
    method Stage7Retire(ghost sum: nat)
      requires QueueOk(dq[..], dqLen) && pendingDepth >= 0
      requires sum == Accumulator() + PoppedSum(Queue()) + (if pendingDepth == 0 then pMUL.Held().Sum() else 0) < B3
      requires pMUL.valid ==> dqLen < SLOTS
      modifies this`dqLen, this`acc0, this`acc1, this`acc2, dq
      ensures QueueOk(dq[..], dqLen)
      ensures Accumulator() == sum
      ensures var q := Age(Popped(old(Queue())));
              Queue() == if pMUL.valid && pendingDepth > 0 then q + [Item(pMUL.Held().sum, pendingDepth)] else q
    {
      assert dqLen > 0 ==> Queue()[0] == dq[0].Held();
      if dqLen > 0 && dq[0].valid && dq[0].remain == 0 {
        var mb := dq[0].mb;
        AccAddU192(mb.lo, mb.hi, mb.hi2);
        DqPopFront();
      }
      DqAge();
      if pMUL.valid {
        if pendingDepth <= 0 {
          AccAddU192(pMUL.lo, pMUL.hi, pMUL.hi2);
        } else {
          DqPush(pMUL, pendingDepth);
        }
      }
    }

    /** The share of the clock that drains the delay queue and pMUL, and sets the depth for the next batch. */
    method Stage7Drain()
      requires Valid() && Ready(Stage7) && bigmulProg != 0
      modifies this`acc0, this`acc1, this`acc2, this`dqLen, this`pendingDepth, dq
      ensures Valid()
      ensures var st' := Advance(Stage7, OpA(Stage7), OpB(Stage7), old(Abs()));
              Accumulator() == st'.acc && Queue() == st'.queue && pendingDepth == st'.depth
    {
      ghost var st' := Advance(Stage7, OpA(Stage7), OpB(Stage7), Abs());
      AccumulatorFits(Stage7, OpA(Stage7), OpB(Stage7), Abs());
      QueueHasRoom(OpA(Stage7), OpB(Stage7), Abs());
      hide Inv, Total, Val, Pow, Partial, V3, Batches, StageAt, Stages, Items, Shape, Age, Popped, PoppedSum;
      hide Dot, Fetch, Pairs, CsaDepth, RangeSum;
      Stage7Retire(st'.acc);
      pendingDepth := 0;
      if pLOAD.valid {
        pendingDepth := CsaDepth(pLOAD.count);
      }
    }

    /** Stage7pipeline up to its test for a finished diagonal. */
    method Stage7Batch()
      requires Valid() && Ready(Stage7) && bigmulProg != 0
      modifies this`kIter, this`genDone, this`acc0, this`acc1, this`acc2, this`pGEN, this`pLOAD, this`pMUL,
        this`pendingDepth, this`dqLen, dq
      ensures pGEN.Valid() && pLOAD.Valid() && pendingDepth >= 0 && QueueOk(dq[..], dqLen)
      ensures var st' := Advance(Stage7, OpA(Stage7), OpB(Stage7), old(Abs()));
              && kIter == st'.k && Accumulator() == st'.acc && Queue() == st'.queue && pendingDepth == st'.depth
              && pGEN.Held() == st'.gen && pLOAD.Held() == st'.load && pMUL.Held() == st'.mul
      ensures genDone <==> kIter > iMax
    {
      hide Total, Val, Pow, Partial, V3, Batches, BatchesLeft, BatchesInFlight, StageAt, Stages, Items, Age;
      hide Popped, PoppedSum, Dot, Fetch, CsaDepth, RangeSum, InRange;
      ghost var st := Abs();
      assert InRange(LIMBS, st.gen) && kIter <= iMax + 1;
      hide Inv, Shape;
      Stage7Drain();
      ShiftRegisters();
    }

    method Stage7Empty() returns (empty: bool)
      requires Valid()
      ensures empty <==> Drained(Stage7, Abs())
    {
      empty := !pGEN.valid && !pLOAD.valid && !pMUL.valid && dqLen == 0;
    }

    /** The rest of stage7pipeline once the unit runs. */
    method Stage7Clock()
      requires Valid() && Ready(Stage7) && bigmulProg != 0
      modifies this`sDiag, this`iMin, this`iMax, this`kIter, this`genDone, this`acc0, this`acc1, this`acc2,
        this`pGEN, this`pLOAD, this`pMUL, this`pendingDepth, this`dqLen, this`bigmulProg, this`writeDone,
        resultCache, dq
      ensures Valid() && Ready(Stage7)
      ensures Abs() == Step(Stage7, OpA(Stage7), OpB(Stage7), old(Abs()))
    {
      ghost var st := Abs();
      hide Advance, Step;
      Stage7Batch();
      var pipeEmpty := Stage7Empty();
      hide Drained, Inv, V3, Items, Stages, GenBatch.Held, LoadBatch.Held, MulBatch.Held;
      EndClock(Stage7, st, genDone && pipeEmpty, 63, 126);
    }

    /** One clock of the unpipelined engine. */
    method Singlecycle()
      requires Valid() && Ready(SingleCycle)
      modifies this, resultCache, dq, accum, accumValid
      ensures Valid() && Ready(SingleCycle)
      ensures bigmulDone == old(bigmulDone) && sizeOfOperand == old(sizeOfOperand)
      ensures Abs() == if old(bigmulDone) then old(Abs())
                       else Call(SingleCycle, OpA(SingleCycle), OpB(SingleCycle), old(Abs()))
    {
      hide OpA, OpB, Step, Inv, Current;
      if bigmulDone { return; }
      Begin(SingleCycle);
      SingleClock();
    }

    /** One clock of the engine with a four-stage adder pipeline. */
    method CsaOnlyPipeline()
      requires Valid() && Ready(CsaOnly)
      modifies this, resultCache, dq, accum, accumValid
      ensures Valid() && Ready(CsaOnly)
      ensures bigmulDone == old(bigmulDone) && sizeOfOperand == old(sizeOfOperand)
      ensures Abs() == if old(bigmulDone) then old(Abs()) else Call(CsaOnly, OpA(CsaOnly), OpB(CsaOnly), old(Abs()))
    {
      hide OpA, OpB, Step, Inv, Current;
      if bigmulDone { return; }
      Begin(CsaOnly);
      CsaClock();
    }

    /** One clock of the generate/load/multiply pipeline. */
    method Staged3Pipeline()
      requires Valid() && Ready(Staged3)
      modifies this, resultCache, dq, accum, accumValid
      ensures Valid() && Ready(Staged3)
      ensures bigmulDone == old(bigmulDone) && sizeOfOperand == old(sizeOfOperand)
      ensures Abs() == if old(bigmulDone) then old(Abs()) else Call(Staged3, OpA(Staged3), OpB(Staged3), old(Abs()))
    {
      hide OpA, OpB, Step, Inv, Current;
      if bigmulDone { return; }
      Begin(Staged3);
      Staged3Clock();
    }

    /** One clock of the pipeline with a delay queue before the accumulator. */
    method Stage7Pipeline()
      requires Valid() && Ready(Stage7)
      modifies this, resultCache, dq, accum, accumValid
      ensures Valid() && Ready(Stage7)
      ensures bigmulDone == old(bigmulDone) && sizeOfOperand == old(sizeOfOperand)
      ensures Abs() == if old(bigmulDone) then old(Abs()) else Call(Stage7, OpA(Stage7), OpB(Stage7), old(Abs()))
    {
      hide OpA, OpB, Step, Inv, Current;
      if bigmulDone { return; }
      Begin(Stage7);
      Stage7Clock();
    }

    // ---------------------------------------------------------- whole runs

    /** Call the chosen engine once. */
    method Clock(e: Engine)
      requires Valid() && Ready(e)
      modifies this, resultCache, dq, accum, accumValid
      ensures Valid() && Ready(e)
      ensures bigmulDone == old(bigmulDone) && sizeOfOperand == old(sizeOfOperand)
      ensures Abs() == if old(bigmulDone) then old(Abs()) else Call(e, OpA(e), OpB(e), old(Abs()))
    {
      match e
      case SingleCycle => Singlecycle();
      case CsaOnly => CsaOnlyPipeline();
      case Staged3 => Staged3Pipeline();
      case Stage7 => Stage7Pipeline();
    }

    /** The unit is on the way of a run over a and b that began in st0 and has made this many calls. */
    ghost predicate On(e: Engine, a: seq<u64>, b: seq<u64>, st0: State, calls: nat)
      reads this, cacheA, cacheB, resultCache, dq, accum, accumValid
    {
      && Valid() && Ready(e) && !bigmulDone
      && OpA(e) == a && OpB(e) == b
      && OnCourse(e, a, b, st0, Abs(), calls)
    }

    /** A call of the driver loop. */
    method ClockOnCourse(e: Engine, ghost a: seq<u64>, ghost b: seq<u64>, ghost st0: State, ghost calls: nat)
      requires On(e, a, b, st0, calls) && writeDone
      modifies this, resultCache, dq, accum, accumValid
      ensures On(e, a, b, st0, calls + 1) && sizeOfOperand == old(sizeOfOperand)
      ensures calls < CallsFrom(e, |a|, 0)
    {
      hide Call, OnCourse, CallsFrom, Inv;
      CourseGoesOn(e, a, b, st0, Abs(), calls);
      Clock(e);
    }

    method CallUntilDone(e: Engine, ghost a: seq<u64>, ghost b: seq<u64>, ghost st0: State) returns (calls: nat)
      requires On(e, a, b, st0, 0)
      modifies this, resultCache, dq, accum, accumValid
      ensures On(e, a, b, st0, calls) && !writeDone && sizeOfOperand == old(sizeOfOperand)
    {
      hide On, CallsFrom;
      calls := 0;
      while writeDone
        invariant On(e, a, b, st0, calls) && sizeOfOperand == old(sizeOfOperand)
        decreases writeDone, CallsFrom(e, |a|, 0) - calls
      {
        ClockOnCourse(e, a, b, st0, calls);
        calls := calls + 1;
      }
    }

    /**
     What the simulator does with a bigmul instruction. Whatever the unit held before, the result
     cache then holds the product of the operands, and the number of calls is known beforehand.
     */
    method Multiply(e: Engine) returns (calls: nat)
      requires Valid() && Size(e) <= LIMBS && !bigmulDone && bigmulProg == 0 && writeDone
      modifies this, resultCache, dq, accum, accumValid
      ensures Valid() && !writeDone && bigmulProg == 0 && !bigmulDone && sizeOfOperand == old(sizeOfOperand)
      ensures resultCache[..] == Product(OpA(e), OpB(e), old(resultCache[..]))
      ensures calls == CallsFrom(e, Size(e), 0)
    {
      hide OnCourse, Inv, CallsFrom, Call;
      ghost var a, b, st0 := OpA(e), OpB(e), Abs();
      CourseStarts(e, a, b, st0);
      calls := CallUntilDone(e, a, b, st0);
      CourseEnds(e, a, b, st0, Abs(), calls);
    }

    // ---------------------------------------------------------- undo

    method Snapshot() returns (s: BigmulState)
      requires Valid()
      ensures s == BigmulState(bigmulDone, ldbmDone, writeDone, ldbmOffset, bigmulProg, writeOffset,
                               baseAddrA, baseAddrB, baseAddrRes, cacheA[..], cacheB[..], resultCache[..])
    {
      s := BigmulState(bigmulDone, ldbmDone, writeDone, ldbmOffset, bigmulProg, writeOffset,
                       baseAddrA, baseAddrB, baseAddrRes, cacheA[..], cacheB[..], resultCache[..]);
    }

    method RestoreCaches(s: BigmulState)
      requires ArraysOk(cacheA, cacheB, resultCache, accum, accumValid) && s.Sized()
      modifies cacheA, cacheB, resultCache
      ensures cacheA[..] == s.cacheA && cacheB[..] == s.cacheB && resultCache[..] == s.resultCache
    {
      for i := 0 to LIMBS
        modifies cacheA, cacheB
        invariant forall t :: 0 <= t < i ==> cacheA[t] == s.cacheA[t] && cacheB[t] == s.cacheB[t]
      {
        cacheA[i] := s.cacheA[i];
        cacheB[i] := s.cacheB[i];
      }
      for i := 0 to 2 * LIMBS
        modifies resultCache
        invariant forall t :: 0 <= t < i ==> resultCache[t] == s.resultCache[t]
      {
        resultCache[i] := s.resultCache[i];
      }
    }

    /** Puts back what a snapshot holds; diagonal, pipeline, accumulator and operand size stay as they are. */
    method Restore(s: BigmulState)
      requires Valid() && s.Sized()
      modifies this`bigmulDone, this`ldbmDone, this`writeDone, this`ldbmOffset, this`bigmulProg, this`writeOffset,
        this`baseAddrA, this`baseAddrB, this`baseAddrRes, cacheA, cacheB, resultCache
      ensures Valid()
      ensures s == BigmulState(bigmulDone, ldbmDone, writeDone, ldbmOffset, bigmulProg, writeOffset,
                               baseAddrA, baseAddrB, baseAddrRes, cacheA[..], cacheB[..], resultCache[..])
    {
      RestoreRegisters(s);
      RestoreCaches(s);
    }

    method RestoreRegisters(s: BigmulState)
      modifies this`bigmulDone, this`ldbmDone, this`writeDone, this`ldbmOffset, this`bigmulProg, this`writeOffset,
        this`baseAddrA, this`baseAddrB, this`baseAddrRes
      ensures s == BigmulState(bigmulDone, ldbmDone, writeDone, ldbmOffset, bigmulProg, writeOffset,
                               baseAddrA, baseAddrB, baseAddrRes, s.cacheA, s.cacheB, s.resultCache)
    {
      bigmulDone, ldbmDone, writeDone := s.bigmulDone, s.ldbmDone, s.writeDone;
      ldbmOffset, bigmulProg, writeOffset := s.ldbmOffset, s.bigmulProg, s.writeOffset;
      baseAddrA, baseAddrB, baseAddrRes := s.baseAddrA, s.baseAddrB, s.baseAddrRes;
    }

    /**
     The decode stage at a bigmul instruction: an idle unit takes the operand size, if the register
     holds one, and the address for the result, and is ready to start.
     */
    method Arm(rs1: u64, rs2: u64)
      requires Valid()
      modifies this`sizeOfOperand, this`baseAddrRes, this`bigmulProg, this`bigmulDone, this`writeOffset, this`writeDone
      ensures Valid()
      ensures old(bigmulDone) ==>
                && sizeOfOperand == (if 1 <= rs2 <= 511 then rs2 else old(sizeOfOperand)) && baseAddrRes == rs1
                && bigmulProg == 0 && !bigmulDone && writeOffset == 0 && writeDone
      ensures !old(bigmulDone) ==>
                unchanged(`sizeOfOperand, `baseAddrRes, `bigmulProg, `bigmulDone, `writeOffset, `writeDone)
    {
      if bigmulDone {
        if rs2 != 0 && rs2 < SIZES {
          sizeOfOperand := rs2;
        }
        baseAddrRes := rs1;
        bigmulProg := 0;
        bigmulDone := false;
        writeOffset := 0;
        writeDone := true;
      }
    }

    /**
     Decode and execute: an idle unit multiplies as many limbs as the register says, all the unit's size
     has when the register holds 0 or at least 512, and all 64 on the staged engines.
     */
    method DecodeAndMultiply(rs1: u64, rs2: u64, e: Engine) returns (calls: nat)
      requires Valid() && bigmulDone
      requires e.SingleCycle? || e.CsaOnly? ==> 1 <= rs2 <= 64 || ((rs2 == 0 || rs2 >= 512) && sizeOfOperand <= 64)
      modifies this, resultCache, dq, accum, accumValid
      ensures Valid() && !writeDone && !bigmulDone
      ensures (e.SingleCycle? || e.CsaOnly?) && 1 <= rs2 <= 64 ==>
                && resultCache[..] == Product(cacheA[..rs2], cacheB[..rs2], old(resultCache[..]))
                && calls == CallsFrom(e, rs2, 0)
      ensures (e.SingleCycle? || e.CsaOnly?) && (rs2 == 0 || rs2 >= 512) ==>
                && old(sizeOfOperand) <= 64
                && resultCache[..] == Product(cacheA[..old(sizeOfOperand)], cacheB[..old(sizeOfOperand)],
                                              old(resultCache[..]))
                && calls == CallsFrom(e, old(sizeOfOperand), 0)
      ensures e.Staged3? || e.Stage7? ==>
                && resultCache[..] == Product(cacheA[..64], cacheB[..64], old(resultCache[..]))
                && calls == CallsFrom(e, 64, 0)
    {
      hide Product, CallsFrom, RegistersOk, QueueOk;
      Arm(rs1, rs2);
      calls := Multiply(e);
    }

    /**
     Re-execution after an undo. The unit may be in any state, also in the middle of another run.
     Snapshots are taken in front of the decode stage, with the unit idle; once one is restored, the
     instruction writes the words its caches and the operand size determine. A snapshot of a unit that
     was armed but not started behaves the same.
     */
    method RestoreAndMultiply(s: BigmulState, rs1: u64, rs2: u64, e: Engine) returns (calls: nat)
      requires Valid() && s.Sized()
      requires s.bigmulDone || (s.bigmulProg == 0 && s.writeDone)
      requires TakenBy(e, if s.bigmulDone then NextSize(sizeOfOperand, rs2) else sizeOfOperand) <= LIMBS
      modifies this, cacheA, cacheB, resultCache, dq, accum, accumValid
      ensures Valid() && sizeOfOperand == if s.bigmulDone then NextSize(old(sizeOfOperand), rs2) else old(sizeOfOperand)
      ensures resultCache[..] == Product(s.cacheA[..Size(e)], s.cacheB[..Size(e)], s.resultCache)
      ensures calls == CallsFrom(e, Size(e), 0)
    {
      hide Product, CallsFrom, RegistersOk, QueueOk;
      Restore(s);
      Arm(rs1, rs2);
      assert OpA(e) == s.cacheA[..Size(e)] && OpB(e) == s.cacheB[..Size(e)];
      calls := Multiply(e);
    }

    /** Executing a bigmul instruction, undoing it and executing it again gives the same words twice. */
    method ExecuteUndoExecute(rs1: u64, rs2: u64, e: Engine) returns (first: seq<u64>, second: seq<u64>)
      requires Valid() && bigmulDone && TakenBy(e, NextSize(sizeOfOperand, rs2)) <= LIMBS
      modifies this, cacheA, cacheB, resultCache, dq, accum, accumValid
      ensures Valid() && second == first && resultCache[..] == second
      ensures var n := TakenBy(e, NextSize(old(sizeOfOperand), rs2));
              first == Product(old(cacheA[..])[..n], old(cacheB[..])[..n], old(resultCache[..]))
    {
      hide Product, CallsFrom, RegistersOk, QueueOk;
      var s := Snapshot();
      Arm(rs1, rs2);
      assert OpA(e) == s.cacheA[..Size(e)] && OpB(e) == s.cacheB[..Size(e)];
      var calls := Multiply(e);
      first := resultCache[..];
      calls := RestoreAndMultiply(s, rs1, rs2, e);
      second := resultCache[..];
    }
  }

  /** Words a run over n limbs leaves for every content of the caches. */
  ghost predicate SameAtSizes(n: nat, n': nat)
    requires 1 <= n <= LIMBS && 1 <= n' <= LIMBS
  {
    forall a: seq<u64>, b: seq<u64>, r: seq<u64> | |a| == LIMBS && |b| == LIMBS && |r| == 2 * LIMBS ::
      Product(a[..n], b[..n], r) == Product(a[..n'], b[..n'], r)
  }

  lemma SameOnlyAtEqualSizes(n: nat, n': nat)
    requires 1 <= n <= LIMBS && 1 <= n' <= LIMBS
    ensures SameAtSizes(n, n') <==> n == n'
  {
    if n != n' {
      var zeros, ones := seq(LIMBS, _ => 0 as u64), seq(2 * LIMBS, _ => 1 as u64);
      var lo, hi := if n < n' then n else n', if n < n' then n' else n;
      ZerosVal(zeros[..n]);
      ZerosVal(zeros[..n']);
      ZeroLimbs(2 * hi);
      assert Product(zeros[..lo], zeros[..lo], ones)[2 * lo] == 1;
      assert Product(zeros[..hi], zeros[..hi], ones)[2 * lo] == 0;
    }
  }

  /**
   The operand size is not in the snapshot. Executing the instruction again, with the unit's size n'
   where it was n, gives the same words for all operands exactly when the engine has its size built
   in, or the instruction brings its own, or the size is still the same.
   */
  lemma RerunNeedsSameSize(e: Engine, n: nat, n': nat, rs2: u64)
    requires 1 <= n < SIZES && 1 <= n' < SIZES
    requires TakenBy(e, NextSize(n, rs2)) <= LIMBS && TakenBy(e, NextSize(n', rs2)) <= LIMBS
    ensures SameAtSizes(TakenBy(e, NextSize(n, rs2)), TakenBy(e, NextSize(n', rs2)))
            <==> e.Staged3? || e.Stage7? || 0 < rs2 < SIZES || n == n'
  {
    hide SameAtSizes;
    SameOnlyAtEqualSizes(TakenBy(e, NextSize(n, rs2)), TakenBy(e, NextSize(n', rs2)));
  }

  /**
   On one unit, with one operand size, two engines write the same words for all operands exactly when
   the size is 64 or both take it or neither does.
   */
  lemma EnginesAgreeOnUnit(e: Engine, e': Engine, size: nat)
    requires 1 <= size < SIZES && TakenBy(e, size) <= LIMBS && TakenBy(e', size) <= LIMBS
    ensures SameAtSizes(TakenBy(e, size), TakenBy(e', size)) <==> size == LIMBS || (TakesSize(e) <==> TakesSize(e'))
  {
    hide SameAtSizes;
    SameOnlyAtEqualSizes(TakenBy(e, size), TakenBy(e', size));
  }
}
