/** Every clock of every engine keeps the invariant; the last one leaves the product. */
module MachineProofs {
  import opened Limbs
  import opened Convolution
  import opened Machine

  /** What a finished run has written. */
  ghost predicate Finished(a: seq<u64>, b: seq<u64>, st: State) {
    && |st.res| >= 2 * |a|
    && Val(st.res[..2 * |a|]) == Val(a) * Val(b)
    && !st.running && !st.writeDone
  }

  lemma PairsInRange(n: int, st: State)
    requires n >= 1 && st.s <= 2 * n - 2 && IMin(n, st.s) <= st.k <= IMax(n, st.s) + 1
    ensures Count(n, st) >= 0 && InRange(n, Pairs(st.s, st.k, Count(n, st)))
  {
  }

  lemma AdvanceKeepsShape(e: Engine, a: seq<u64>, b: seq<u64>, st: State)
    requires Shape(a, b, st)
    ensures var st' := Advance(e, a, b, st);
            && Shape(a, b, st') && st'.k == st.k + Count(|a|, st)
            && st'.s == st.s && st'.res == st.res && st'.running == st.running && st'.writeDone == st.writeDone
  {
    PairsInRange(|a|, st);
  }

  lemma FlightOfDirectEngines(e: Engine, a: seq<u64>, b: seq<u64>, st: State)
    requires Shape(a, b, st) && (e.SingleCycle? || e.CsaOnly?)
    ensures Shape(a, b, Advance(e, a, b, st))
    ensures var st' := Advance(e, a, b, st);
            st'.acc + InFlight(e, a, b, st')
            == st.acc + InFlight(e, a, b, st) + RangeSum(a, b, st.s, st.k, st.k + Count(|a|, st))
  {
    AdvanceKeepsShape(e, a, b, st);
  }

  lemma FlightOfStaged3(a: seq<u64>, b: seq<u64>, st: State)
    requires Shape(a, b, st)
    ensures Shape(a, b, Advance(Staged3, a, b, st))
    ensures var st' := Advance(Staged3, a, b, st);
            st'.acc + InFlight(Staged3, a, b, st')
            == st.acc + InFlight(Staged3, a, b, st) + RangeSum(a, b, st.s, st.k, st.k + Count(|a|, st))
  {
    AdvanceKeepsShape(Staged3, a, b, st);
    DotOfPairs(a, b, st.s, st.k, Count(|a|, st));
  }

  lemma PoppedSplit(q: seq<Item>)
    ensures QueueSum(q) == PoppedSum(q) + QueueSum(Popped(q))
    ensures QueueSum([]) == 0
  {
  }

  lemma FlightOfStage7(a: seq<u64>, b: seq<u64>, st: State)
    requires Shape(a, b, st)
    ensures Shape(a, b, Advance(Stage7, a, b, st))
    ensures var st' := Advance(Stage7, a, b, st);
            st'.acc + InFlight(Stage7, a, b, st')
            == st.acc + InFlight(Stage7, a, b, st) + RangeSum(a, b, st.s, st.k, st.k + Count(|a|, st))
  {
    AdvanceKeepsShape(Stage7, a, b, st);
    PairsInRange(|a|, st);
    PoppedSplit(st.queue);
    hide QueueSum, Popped, PoppedSum, Age, Dot, Fetch, Pairs, RangeSum, InRange, CsaDepth, Count, IMin, IMax;
    DotOfPairs(a, b, st.s, st.k, Count(|a|, st));
    AgeKeepsSum(Popped(st.queue));
    QueueSumAppend(Age(Popped(st.queue)), Item(st.mul.Sum(), st.depth));
  }

  /** Conservation: a clock moves batches along but loses and invents nothing. */
  lemma AdvanceConserves(e: Engine, a: seq<u64>, b: seq<u64>, st: State)
    requires Shape(a, b, st)
    ensures Shape(a, b, Advance(e, a, b, st))
    ensures Total(e, a, b, Advance(e, a, b, st)) == Total(e, a, b, st)
  {
    AdvanceKeepsShape(e, a, b, st);
    RangeSplit(a, b, st.s, st.k, st.k + Count(|a|, st), IMax(|a|, st.s) + 1);
    match e {
      case SingleCycle => FlightOfDirectEngines(e, a, b, st);
      case CsaOnly => FlightOfDirectEngines(e, a, b, st);
      case Staged3 => FlightOfStaged3(a, b, st);
      case Stage7 => FlightOfStage7(a, b, st);
    }
  }

  lemma CarryBound(a: seq<u64>, b: seq<u64>, s: nat, acc: nat)
    requires |a| == |b| >= 1 && s + 1 <= 2 * |a| - 2
    requires acc <= |a| * (B - 1) * B
    ensures acc / B + Diag(a, b, s + 1) <= |a| * (B - 1) * B
  {
    var n := |a|;
    RangeBound(a, b, s + 1, IMin(n, s + 1), IMax(n, s + 1) + 1);
    assert DiagLen(n, s + 1) <= n;
  }

  lemma DrainedHoldsNothing(e: Engine, a: seq<u64>, b: seq<u64>, st: State)
    requires Shape(a, b, st) && DiagonalDone(e, |a|, st)
    ensures Total(e, a, b, st) == st.acc
  {
  }

  lemma ShiftOut(v: int, p: int, acc: int)
    ensures v + p * acc == (v + p * (acc % B)) + (B * p) * (acc / B)
  {
    var q, r := acc / B, acc % B;
    assert acc == B * q + r;
    Distribute(p, B * q, r);
    assert p * (B * q) == (B * p) * q;
  }

  /** Emitting a word moves its value from the accumulator to the result. */
  lemma EmitKeepsValue(n: int, st: State)
    requires n >= 1 && st.s <= 2 * n - 2 && |st.res| >= 2 * n
    ensures var w := st.res[st.s := st.acc % B][..st.s + 1];
            Val(w) + Pow(st.s + 1) * (st.acc / B) == Val(st.res[..st.s]) + Pow(st.s) * st.acc
  {
    var w := st.res[st.s := st.acc % B];
    assert w[..st.s] == st.res[..st.s];
    ValPrefix(w, st.s);
    ShiftOut(Val(st.res[..st.s]), Pow(st.s), st.acc);
  }

  lemma TopLimb(v: nat, m: nat, carry: nat)
    requires v + Pow(m) * carry < Pow(m + 1)
    ensures carry < B
  {
    if carry >= B {
      MulLe(Pow(m), B, carry);
    }
  }

  /** After the last diagonal the carry fits one word, and that word completes the number p. */
  lemma LastWord(n: nat, st: State, p: nat)
    requires n >= 1 && st.s == 2 * n - 2 && |st.res| >= 2 * n
    requires Val(st.res[..st.s]) + Pow(st.s) * st.acc == p < Pow(2 * n)
    ensures Val(Emit(n, st).res[..2 * n]) == p
  {
    hide Val, Pow;
    var s := st.s;
    var r, carry := st.res[s := st.acc % B], st.acc / B;
    EmitKeepsValue(n, st);
    TopLimb(Val(r[..s + 1]), s + 1, carry);
    var word: u64 := carry;
    assert carry % B == word;
    var r' := r[s + 1 := word];
    assert r'[..s + 1] == r[..s + 1];
    ValPrefix(r', s + 1);
  }

  lemma EmitNext(e: Engine, a: seq<u64>, b: seq<u64>, st: State)
    requires Shape(a, b, st) && DiagonalDone(e, |a|, st) && st.s < 2 * |a| - 2
    requires Val(st.res[..st.s]) + Pow(st.s) * st.acc == Partial(a, b, st.s + 1)
    requires st.acc <= |a| * (B - 1) * B
    ensures Inv(e, a, b, Emit(|a|, st))
  {
    var n, s := |a|, st.s;
    var st' := Emit(n, st);
    EmitKeepsValue(n, st);
    CarryBound(a, b, s, st.acc);
    Distribute(Pow(s + 1), st.acc / B, Diag(a, b, s + 1));
    assert st'.res[..s + 1] == st.res[s := st.acc % B][..s + 1];
    assert Total(e, a, b, st') == st'.acc + Diag(a, b, s + 1);
  }

  lemma EmitInv(e: Engine, a: seq<u64>, b: seq<u64>, st: State)
    requires Shape(a, b, st) && DiagonalDone(e, |a|, st) && st.running
    requires Val(st.res[..st.s]) + Pow(st.s) * Total(e, a, b, st) == Partial(a, b, st.s + 1)
    requires Total(e, a, b, st) <= |a| * (B - 1) * B
    ensures var st' := Emit(|a|, st);
            if st'.running then Inv(e, a, b, st') else Finished(a, b, st')
  {
    DrainedHoldsNothing(e, a, b, st);
    if st.s < 2 * |a| - 2 {
      EmitNext(e, a, b, st);
    } else {
      ConvolutionIsProduct(a, b);
      ProductBound(a, b);
      LastWord(|a|, st, Partial(a, b, st.s + 1));
    }
  }

  lemma StartInv(e: Engine, a: seq<u64>, b: seq<u64>, st: State)
    requires |a| == |b| >= 1 && |st.res| >= 2 * |a|
    ensures Inv(e, a, b, Start(st))
  {
    var n, st' := |a|, Start(st);
    RangeBound(a, b, 0, 0, IMax(n, 0) + 1);
    assert Dot(Fetch(a, b, [])) == 0;
    assert Total(e, a, b, st') == Diag(a, b, 0);
    assert Partial(a, b, 1) == Partial(a, b, 0) + Pow(0) * Diag(a, b, 0);
  }

  /** Batches in flight and batches still to come, together, never grow within a diagonal. */
  lemma AdvanceKeepsBatchBound(a: seq<u64>, b: seq<u64>, st: State)
    requires Shape(a, b, st)
    ensures var st' := Advance(Stage7, a, b, st);
            BatchesInFlight(st') + BatchesLeft(|a|, st') <= BatchesInFlight(st) + BatchesLeft(|a|, st)
  {
  }

  /** One clock from a state of a run is a state of the run, or the run is over with the product written. */
  lemma StepInv(e: Engine, a: seq<u64>, b: seq<u64>, st: State)
    requires Inv(e, a, b, st) && st.running
    ensures var st' := Step(e, a, b, st);
            if st'.running then Inv(e, a, b, st') else Finished(a, b, st')
  {
    hide Advance, Total, Val, Pow, Partial, BatchesInFlight, BatchesLeft, Batches, DiagLen, Emit;
    AdvanceKeepsShape(e, a, b, st);
    AdvanceConserves(e, a, b, st);
    var st1 := Advance(e, a, b, st);
    AdvanceKeepsBatchBound(a, b, st);
    if DiagonalDone(e, |a|, st1) {
      EmitInv(e, a, b, st1);
    }
  }
}
