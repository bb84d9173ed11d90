/** Simulation of the fork and join branches: the divergence stack kept in scalar registers.
    See section 4.6, "Arbitrary Divergent Control Flow", of the AMD Vega ISA reference. */
module DivergenceStack {
  import opened Bits

  const WORD: nat := 0x1_0000_0000
  const DOUBLE: nat := 0x1_0000_0000_0000_0000
  const CSP_UNIT: nat := 0x2000_0000

  /** Scalar registers by operand number; exec is the pair 126, 127. The stack pointer lives in
      bits 29 to 31 of the mode register. `v0` is the first word of the first vector register, which
      is read in place of registers in front of the first scalar one. */
  datatype Registers = Registers(scalars: seq<nat>, mode: nat, v0: nat)

  const EXEC: nat := 126

  /** A fork by immediate offset, a fork to the address in a register pair, and a join that
      compares the stack pointer with a register. */
  datatype Instruction =
    | IFork(mask: nat, offset: int, size: nat)
    | GFork(mask: nat, targetPair: nat, size: nat)
    | JoinBranch(counter: nat, size: nat)

  ghost predicate WellFormed(w: Registers) {
    |w.scalars| == 128 && w.mode < WORD && w.v0 < WORD && forall i :: 0 <= i < 128 ==> w.scalars[i] < WORD
  }

  /** Register pairs start at an even register below exec's end; joins read one register. */
  predicate OperandsOk(i: Instruction) {
    match i
    case IFork(mask, _, _) => mask % 2 == 0 && mask < 128
    case GFork(mask, target, _) => mask % 2 == 0 && mask < 128 && target % 2 == 0 && target < 128
    case JoinBranch(counter, _) => counter < 128
  }

  function Pair(w: Registers, n: nat): (x: nat)
    requires n + 1 < |w.scalars|
  {
    w.scalars[n + 1] * WORD + w.scalars[n]
  }

  function WithPair(w: Registers, n: nat, x: nat): Registers
    requires n + 1 < |w.scalars|
  {
    w.(scalars := w.scalars[n := x % WORD][n + 1 := x / WORD % WORD])
  }

  function Exec(w: Registers): nat
    requires |w.scalars| == 128
  {
    Pair(w, EXEC)
  }

  function Csp(w: Registers): nat {
    w.mode / CSP_UNIT
  }

  /** Writing the stack pointer keeps the other bits of mode and the low three bits of `csp`. */
  function WithCsp(w: Registers, csp: nat): Registers {
    w.(mode := w.mode % CSP_UNIT + csp % 8 * CSP_UNIT)
  }

  /** The lanes and the address stored in stack slot `j`. */
  function SlotMask(w: Registers, j: nat): nat
    requires 4 * j + 3 < |w.scalars|
  {
    Pair(w, 4 * j)
  }

  function SlotPc(w: Registers, j: nat): nat
    requires 4 * j + 3 < |w.scalars|
  {
    Pair(w, 4 * j + 2)
  }

  function FallThrough(pc: nat, i: Instruction): nat {
    (pc + i.size) % DOUBLE
  }

  function Align4(x: nat): nat {
    x - x % 4
  }

  function ForkTarget(w: Registers, pc: nat, i: Instruction): nat
    requires |w.scalars| == 128 && !i.JoinBranch? && OperandsOk(i)
  {
    match i
    case IFork(_, offset, size) => Align4((pc + size + 4 * offset) % DOUBLE)
    case GFork(_, pair, _) => Align4(Pair(w, pair))
  }

  predicate ForkTaken(w: Registers, mask: nat)
    requires |w.scalars| == 128 && mask + 1 < 128
  {
    Prefers(Pair(w, mask), Exec(w))
  }

  /** Whether a fork on mask `m` is taken by the running lanes: all agree, or those that fail the
      mask are no fewer than those that pass it and wait on the stack. */
  predicate Prefers(m: nat, exec: nat) {
    var pass, fail := And(m, exec), AndNot(m, exec);
    if pass == exec then true else if fail == exec then false else BitCount(fail) >= BitCount(pass)
  }

  predicate JoinTaken(w: Registers, counter: nat)
    requires counter < |w.scalars|
  {
    Csp(w) != w.scalars[counter]
  }

  /** Both outcomes of the fork have lanes. */
  predicate Diverges(w: Registers, mask: nat)
    requires |w.scalars| == 128 && mask + 1 < 128
  {
    And(Pair(w, mask), Exec(w)) != Exec(w) && AndNot(Pair(w, mask), Exec(w)) != Exec(w)
  }

  function Push(w: Registers, lanes: nat, pc: nat): Registers
    requires |w.scalars| == 128 && Csp(w) <= 7
  {
    var c := Csp(w);
    WithCsp(WithPair(WithPair(w, 4 * c, lanes), 4 * c + 2, pc), c + 1)
  }

  function AfterFork(w: Registers, pc: nat, i: Instruction): Registers
    requires |w.scalars| == 128 && Csp(w) <= 7 && !i.JoinBranch? && OperandsOk(i)
  {
    if !Diverges(w, i.mask) then w
    else
      var m, exec := Pair(w, i.mask), Exec(w);
      if ForkTaken(w, i.mask) then
        WithPair(Push(w, AndNot(m, exec), FallThrough(pc, i)), EXEC, And(m, exec))
      else
        WithPair(Push(w, And(m, exec), ForkTarget(w, pc, i)), EXEC, AndNot(m, exec))
  }

  function AfterJoin(w: Registers, i: Instruction): Registers
    requires |w.scalars| == 128 && Csp(w) <= 7 && i.JoinBranch? && OperandsOk(i)
    requires JoinTaken(w, i.counter) ==> Csp(w) > 0
  {
    if !JoinTaken(w, i.counter) then w
    else WithPair(WithCsp(w, Csp(w) - 1), EXEC, SlotMask(w, Csp(w) - 1))
  }

  function After(w: Registers, pc: nat, i: Instruction): Registers
    requires |w.scalars| == 128 && Csp(w) <= 7 && OperandsOk(i)
    requires i.JoinBranch? && JoinTaken(w, i.counter) ==> Csp(w) > 0
  {
    if i.JoinBranch? then AfterJoin(w, i) else AfterFork(w, pc, i)
  }

  /** The branch is evaluated a second time, on the registers already updated. */
  function ForkNextPc(w: Registers, pc: nat, i: Instruction): nat
    requires |w.scalars| == 128 && Csp(w) <= 7 && !i.JoinBranch? && OperandsOk(i)
  {
    var w' := AfterFork(w, pc, i);
    if ForkTaken(w', i.mask) then ForkTarget(w', pc, i) else FallThrough(pc, i)
  }

  // ----- register facts -----

  lemma PairBound(w: Registers, n: nat)
    requires WellFormed(w) && n + 1 < 128
    ensures Pair(w, n) < DOUBLE
  {
  }

  lemma WithPairFacts(w: Registers, n: nat, x: nat)
    requires WellFormed(w) && n + 1 < 128 && x < DOUBLE
    ensures WellFormed(WithPair(w, n, x)) && Pair(WithPair(w, n, x), n) == x
    ensures WithPair(w, n, x).mode == w.mode
    ensures forall k :: 0 <= k < 128 && k != n && k != n + 1 ==> WithPair(w, n, x).scalars[k] == w.scalars[k]
  {
    assert x / WORD < WORD;
  }

  lemma WithCspFacts(w: Registers, csp: nat)
    requires WellFormed(w)
    ensures WellFormed(WithCsp(w, csp)) && Csp(WithCsp(w, csp)) == csp % 8
    ensures WithCsp(w, csp).scalars == w.scalars
    ensures WithCsp(w, csp).mode % CSP_UNIT == w.mode % CSP_UNIT
  {
  }

  lemma SplitFacts(w: Registers, mask: nat)
    requires WellFormed(w) && mask + 1 < 128
    ensures var pass, fail := And(Pair(w, mask), Exec(w)), AndNot(Pair(w, mask), Exec(w));
      && pass + fail == Exec(w) < DOUBLE
      && BitCount(pass) + BitCount(fail) == BitCount(Exec(w))
      && (Diverges(w, mask) ==> BitCount(pass) >= 1 && BitCount(fail) >= 1)
  {
    var m, exec := Pair(w, mask), Exec(w);
    PairBound(w, EXEC);
    SplitCount(m, exec);
    if Diverges(w, mask) {
      SomeBit(And(m, exec));
      SomeBit(AndNot(m, exec));
    }
  }

  /** The lanes that keep running after a divergence, and those that are pushed. */
  function Kept(w: Registers, mask: nat): nat
    requires |w.scalars| == 128 && mask + 1 < 128
  {
    if ForkTaken(w, mask) then And(Pair(w, mask), Exec(w)) else AndNot(Pair(w, mask), Exec(w))
  }

  function Pushed(w: Registers, mask: nat): nat
    requires |w.scalars| == 128 && mask + 1 < 128
  {
    if ForkTaken(w, mask) then AndNot(Pair(w, mask), Exec(w)) else And(Pair(w, mask), Exec(w))
  }

  function PushedPc(w: Registers, pc: nat, i: Instruction): nat
    requires |w.scalars| == 128 && !i.JoinBranch? && OperandsOk(i)
  {
    if ForkTaken(w, i.mask) then FallThrough(pc, i) else ForkTarget(w, pc, i)
  }

  lemma TargetBound(w: Registers, pc: nat, i: Instruction)
    requires WellFormed(w) && !i.JoinBranch? && OperandsOk(i)
    ensures ForkTarget(w, pc, i) < DOUBLE && FallThrough(pc, i) < DOUBLE
  {
    if i.GFork? { PairBound(w, i.targetPair); }
  }

  lemma PushEffect(w: Registers, lanes: nat, pc: nat)
    requires WellFormed(w) && Csp(w) < 7 && lanes < DOUBLE && pc < DOUBLE
    ensures var w' := Push(w, lanes, pc); var c := Csp(w);
      && WellFormed(w') && Csp(w') == c + 1 && w'.mode % CSP_UNIT == w.mode % CSP_UNIT
      && SlotMask(w', c) == lanes && SlotPc(w', c) == pc
      && forall k :: 0 <= k < 128 && !(4 * c <= k < 4 * c + 4) ==> w'.scalars[k] == w.scalars[k]
  {
    var c := Csp(w);
    var w1 := WithPair(w, 4 * c, lanes);
    WithPairFacts(w, 4 * c, lanes);
    WithPairFacts(w1, 4 * c + 2, pc);
    WithCspFacts(WithPair(w1, 4 * c + 2, pc), c + 1);
  }

  /** What a diverging fork leaves in the registers. */
  lemma ForkEffect(w: Registers, pc: nat, i: Instruction)
    requires WellFormed(w) && Csp(w) < 7 && !i.JoinBranch? && OperandsOk(i) && Diverges(w, i.mask)
    ensures var w' := AfterFork(w, pc, i); var c := Csp(w);
      && WellFormed(w') && Csp(w') == c + 1 && w'.mode % CSP_UNIT == w.mode % CSP_UNIT
      && Exec(w') == Kept(w, i.mask)
      && SlotMask(w', c) == Pushed(w, i.mask) && SlotPc(w', c) == PushedPc(w, pc, i)
      && forall k :: 0 <= k < EXEC && !(4 * c <= k < 4 * c + 4) ==> w'.scalars[k] == w.scalars[k]
  {
    SplitFacts(w, i.mask);
    TargetBound(w, pc, i);
    var pushed := Push(w, Pushed(w, i.mask), PushedPc(w, pc, i));
    PushEffect(w, Pushed(w, i.mask), PushedPc(w, pc, i));
    WithPairFacts(pushed, EXEC, Kept(w, i.mask));
    assert AfterFork(w, pc, i) == WithPair(pushed, EXEC, Kept(w, i.mask));
  }

  /** What a taken join leaves in the registers. */
  lemma JoinEffect(w: Registers, i: Instruction)
    requires WellFormed(w) && Csp(w) <= 7 && i.JoinBranch? && OperandsOk(i) && JoinTaken(w, i.counter) && Csp(w) > 0
    ensures var w' := AfterJoin(w, i);
      && WellFormed(w') && Csp(w') == Csp(w) - 1 && w'.mode % CSP_UNIT == w.mode % CSP_UNIT
      && Exec(w') == SlotMask(w, Csp(w) - 1)
      && forall k :: 0 <= k < EXEC ==> w'.scalars[k] == w.scalars[k]
  {
    var c := Csp(w) - 1;
    PairBound(w, 4 * c);
    WithCspFacts(w, c);
    WithPairFacts(WithCsp(w, c), EXEC, SlotMask(w, c));
  }

  // ----- runs of forks and joins -----

  /** A simulated branch, or any other instruction that writes a scalar register. */
  datatype Step = Branch(i: Instruction, pc: nat) | WriteScalar(n: nat, value: nat)

  /** The registers, and the lanes whose path has reached its join. */
  datatype State = State(w: Registers, joined: seq<nat>)

  /** Joins are only taken with something on the stack, and other instructions leave exec and
      the live stack slots alone. */
  ghost predicate Allowed(s: State, step: Step)
    requires WellFormed(s.w)
  {
    match step
    case Branch(i, _) => OperandsOk(i) && (i.JoinBranch? && JoinTaken(s.w, i.counter) ==> Csp(s.w) > 0)
    case WriteScalar(n, value) => 4 * Csp(s.w) <= n < EXEC && value < WORD
  }

  ghost function Next(s: State, step: Step): State
    requires WellFormed(s.w) && Csp(s.w) <= 7 && Allowed(s, step)
  {
    match step
    case Branch(i, pc) =>
      State(After(s.w, pc, i), if i.JoinBranch? && JoinTaken(s.w, i.counter) then s.joined + [Exec(s.w)] else s.joined)
    case WriteScalar(n, value) => s.(w := s.w.(scalars := s.w.scalars[n := value]))
  }

  /** Each level of the stack halves the number of lanes that can still be running. */
  ghost predicate Halving(w: Registers)
    requires WellFormed(w)
  {
    && Csp(w) <= 6
    && BitCount(Exec(w)) * Pow2(Csp(w)) <= 64
    && (Csp(w) > 0 ==> BitCount(Exec(w)) >= 1)
    && forall j :: 0 <= j < Csp(w) ==> SlotHalved(w, j)
  }

  ghost predicate SlotHalved(w: Registers, j: nat)
    requires WellFormed(w) && j <= 7
  {
    1 <= BitCount(SlotMask(w, j)) && BitCount(SlotMask(w, j)) * Pow2(j) <= 64
  }

  function Holds(x: nat, lane: nat): nat {
    if Bit(x, lane) then 1 else 0
  }

  ghost function SlotHolders(w: Registers, c: nat, lane: nat): nat
    requires WellFormed(w) && c <= 7
  {
    if c == 0 then 0 else SlotHolders(w, c - 1, lane) + Holds(SlotMask(w, c - 1), lane)
  }

  ghost function JoinedHolders(joined: seq<nat>, lane: nat): nat {
    if joined == [] then 0
    else JoinedHolders(joined[..|joined| - 1], lane) + Holds(joined[|joined| - 1], lane)
  }

  /** In how many places a lane is found: running, waiting on the stack, or already joined. */
  ghost function Holders(s: State, lane: nat): nat
    requires WellFormed(s.w) && Csp(s.w) <= 7
  {
    Holds(Exec(s.w), lane) + SlotHolders(s.w, Csp(s.w), lane) + JoinedHolders(s.joined, lane)
  }

  /** Every lane of `initial` is in exactly one place, and no other lane is anywhere. */
  ghost predicate Partitions(s: State, initial: nat)
    requires WellFormed(s.w) && Csp(s.w) <= 7
  {
    forall lane: nat :: Holders(s, lane) == Holds(initial, lane)
  }

  ghost predicate Good(s: State, initial: nat) {
    WellFormed(s.w) && Halving(s.w) && Partitions(s, initial)
  }

  lemma {:induction false} SlotsUnchanged(w: Registers, w': Registers, c: nat, lane: nat)
    requires WellFormed(w) && WellFormed(w') && c <= 7
    requires forall k :: 0 <= k < 4 * c ==> w'.scalars[k] == w.scalars[k]
    ensures SlotHolders(w', c, lane) == SlotHolders(w, c, lane)
  {
    if c > 0 { SlotsUnchanged(w, w', c - 1, lane); }
  }

  /** The kept half is the smaller one. */
  lemma KeptIsHalf(w: Registers, mask: nat)
    requires WellFormed(w) && mask + 1 < 128 && Diverges(w, mask)
    ensures 2 * BitCount(Kept(w, mask)) <= BitCount(Exec(w))
    ensures 1 <= BitCount(Kept(w, mask)) && 1 <= BitCount(Pushed(w, mask)) <= BitCount(Exec(w))
  {
    SplitFacts(w, mask);
  }

  lemma MulMono(a: nat, b: nat, d: nat)
    requires a <= b
    ensures a * d <= b * d
  {
  }

  lemma HalvingBound(count: nat, kept: nat, c: nat)
    requires 2 * kept <= count && count * Pow2(c) <= 64 && kept >= 1
    ensures kept * Pow2(c + 1) <= 64 && c <= 5
  {
    assert kept * Pow2(c + 1) == 2 * kept * Pow2(c);
    if c > 5 {
      Pow2Mono(6, c);
      Pow2Values();
      MulMono(2, count, Pow2(c));
      assert false;
    }
  }

  lemma ForkHalves(w: Registers, pc: nat, i: Instruction)
    requires WellFormed(w) && Halving(w) && !i.JoinBranch? && OperandsOk(i)
    ensures var w' := AfterFork(w, pc, i); WellFormed(w') && Halving(w')
  {
    if Diverges(w, i.mask) {
      DivergenceFits(w, i.mask);
      ForkEffect(w, pc, i);
      KeptIsHalf(w, i.mask);
      HalvingBound(BitCount(Exec(w)), BitCount(Kept(w, i.mask)), Csp(w));
      forall j | 0 <= j <= Csp(w)
        ensures SlotHalved(AfterFork(w, pc, i), j)
      {
        ForkSlotHalved(w, pc, i, j);
      }
    }
  }

  lemma ForkSlotHalved(w: Registers, pc: nat, i: Instruction, j: nat)
    requires WellFormed(w) && Csp(w) < 6 && !i.JoinBranch? && OperandsOk(i) && Diverges(w, i.mask)
    requires BitCount(Exec(w)) * Pow2(Csp(w)) <= 64
    requires j <= Csp(w) && (j < Csp(w) ==> SlotHalved(w, j))
    ensures WellFormed(AfterFork(w, pc, i)) && SlotHalved(AfterFork(w, pc, i), j)
  {
    ForkEffect(w, pc, i);
    if j < Csp(w) {
      assert SlotMask(AfterFork(w, pc, i), j) == SlotMask(w, j);
    } else {
      KeptIsHalf(w, i.mask);
      MulMono(BitCount(Pushed(w, i.mask)), BitCount(Exec(w)), Pow2(j));
    }
  }

  lemma ForkMovesLanes(s: State, pc: nat, i: Instruction, lane: nat)
    requires WellFormed(s.w) && Halving(s.w) && !i.JoinBranch? && OperandsOk(i)
    ensures var s' := Next(s, Branch(i, pc));
      WellFormed(s'.w) && Csp(s'.w) <= 7 && Holders(s', lane) == Holders(s, lane)
  {
    ForkHalves(s.w, pc, i);
    if Diverges(s.w, i.mask) {
      DivergenceFits(s.w, i.mask);
      ForkKeepsHolders(s, pc, i, lane);
    }
  }

  lemma DivergenceFits(w: Registers, mask: nat)
    requires WellFormed(w) && Halving(w) && mask + 1 < 128 && mask % 2 == 0 && Diverges(w, mask)
    ensures Csp(w) < 6
  {
    KeptIsHalf(w, mask);
    HalvingBound(BitCount(Exec(w)), BitCount(Kept(w, mask)), Csp(w));
  }

  /** A fork that diverges moves every lane to exactly one of exec and the new slot. */
  lemma ForkKeepsHolders(s: State, pc: nat, i: Instruction, lane: nat)
    requires WellFormed(s.w) && Csp(s.w) < 6 && !i.JoinBranch? && OperandsOk(i) && Diverges(s.w, i.mask)
    ensures var s' := State(AfterFork(s.w, pc, i), s.joined);
      WellFormed(s'.w) && Csp(s'.w) <= 7 && Holders(s', lane) == Holders(s, lane)
  {
    var w, c := s.w, Csp(s.w);
    ForkEffect(w, pc, i);
    SlotsUnchanged(w, AfterFork(w, pc, i), c, lane);
    HalvesHold(w, i.mask, lane);
  }

  lemma HalvesHold(w: Registers, mask: nat, lane: nat)
    requires |w.scalars| == 128 && mask + 1 < 128
    ensures Holds(Kept(w, mask), lane) + Holds(Pushed(w, mask), lane) == Holds(Exec(w), lane)
  {
    AndBit(Pair(w, mask), Exec(w), lane);
    AndNotBit(Pair(w, mask), Exec(w), lane);
  }

  lemma JoinKeepsGood(s: State, i: Instruction, pc: nat, initial: nat)
    requires Good(s, initial) && i.JoinBranch? && Allowed(s, Branch(i, pc))
    ensures Good(Next(s, Branch(i, pc)), initial)
  {
    if JoinTaken(s.w, i.counter) {
      JoinEffect(s.w, i);
      var s' := Next(s, Branch(i, pc));
      var c := Csp(s.w) - 1;
      assert SlotHalved(s.w, c);
      forall j | 0 <= j < c
        ensures SlotHalved(s'.w, j)
      {
        assert SlotMask(s'.w, j) == SlotMask(s.w, j) && SlotHalved(s.w, j);
      }
      forall lane: nat
        ensures Holders(s', lane) == Holders(s, lane)
      {
        SlotsUnchanged(s.w, s'.w, c, lane);
        assert s'.joined[..|s'.joined| - 1] == s.joined;
      }
    }
  }

  lemma WriteKeepsGood(s: State, n: nat, value: nat, initial: nat)
    requires Good(s, initial) && Allowed(s, WriteScalar(n, value))
    ensures Good(Next(s, WriteScalar(n, value)), initial)
  {
    var s' := Next(s, WriteScalar(n, value));
    forall j | 0 <= j < Csp(s.w)
      ensures SlotHalved(s'.w, j)
    {
      assert SlotMask(s'.w, j) == SlotMask(s.w, j) && SlotHalved(s.w, j);
    }
    forall lane: nat
      ensures Holders(s', lane) == Holders(s, lane)
    {
      SlotsUnchanged(s.w, s'.w, Csp(s.w), lane);
    }
  }

  lemma StepKeepsGood(s: State, step: Step, initial: nat)
    requires Good(s, initial) && Allowed(s, step)
    ensures Good(Next(s, step), initial)
  {
    match step
    case WriteScalar(n, value) => WriteKeepsGood(s, n, value, initial);
    case Branch(i, pc) =>
      if i.JoinBranch? {
        JoinKeepsGood(s, i, pc, initial);
      } else {
        ForkHalves(s.w, pc, i);
        forall lane: nat
          ensures Holders(Next(s, step), lane) == Holders(s, lane)
        {
          ForkMovesLanes(s, pc, i, lane);
        }
      }
  }

  ghost predicate LegalRun(s: State, steps: seq<Step>, initial: nat)
    requires Good(s, initial)
    decreases |steps|
  {
    steps == [] || (
      Allowed(s, steps[0]) && (StepKeepsGood(s, steps[0], initial); LegalRun(Next(s, steps[0]), steps[1..], initial)))
  }

  ghost function RunOf(s: State, steps: seq<Step>, initial: nat): State
    requires Good(s, initial) && LegalRun(s, steps, initial)
    decreases |steps|
  {
    if steps == [] then s
    else StepKeepsGood(s, steps[0], initial); RunOf(Next(s, steps[0]), steps[1..], initial)
  }

  lemma LaneCount(w: Registers)
    requires WellFormed(w)
    ensures BitCount(Exec(w)) <= 64
  {
    PairBound(w, EXEC);
    Pow2Values();
    CountBound(Exec(w), 64);
  }

  /** A wave with an empty stack, as it was launched. */
  lemma FreshWaveIsGood(w: Registers)
    requires WellFormed(w) && Csp(w) == 0
    ensures Good(State(w, []), Exec(w))
  {
    LaneCount(w);
    assert Halving(w);
  }

  /** From an empty stack, after any run of forks, joins and other instructions: the stack is
      at most six deep, so its three-bit pointer is never truncated; at depth d at most
      64 / 2^d lanes run; and running, stacked and joined lanes partition the lanes the wave
      started with. */
  lemma {:induction false} DivergenceIsBounded(s: State, steps: seq<Step>, initial: nat)
    requires Good(s, initial) && LegalRun(s, steps, initial)
    ensures var r := RunOf(s, steps, initial);
      && WellFormed(r.w) && Csp(r.w) <= 6
      && BitCount(Exec(r.w)) * Pow2(Csp(r.w)) <= 64
      && (forall j :: 0 <= j < Csp(r.w) ==> SlotHalved(r.w, j))
      && forall lane: nat :: Holders(r, lane) == Holds(initial, lane)
    decreases |steps|
  {
    if steps != [] {
      StepKeepsGood(s, steps[0], initial);
      DivergenceIsBounded(Next(s, steps[0]), steps[1..], initial);
    }
  }

  /** The last step of a run is made on what the steps before it have left. */
  lemma {:induction false} LastStep(s: State, steps: seq<Step>, initial: nat)
    requires Good(s, initial) && LegalRun(s, steps, initial) && steps != []
    ensures var n := |steps| - 1;
      && LegalRun(s, steps[..n], initial)
      && var before := RunOf(s, steps[..n], initial);
         Good(before, initial) && Allowed(before, steps[n]) && RunOf(s, steps, initial) == Next(before, steps[n])
    decreases |steps|
  {
    StepKeepsGood(s, steps[0], initial);
    if |steps| == 1 {
      assert steps[1..] == [] && steps[..0] == [];
    } else {
      var next, n := Next(s, steps[0]), |steps| - 1;
      LastStep(next, steps[1..], initial);
      assert steps[..n][1..] == steps[1..][..n - 1] && steps[..n][0] == steps[0] && steps[1..][n - 1] == steps[n];
    }
  }

  /** A lane waits in a slot of the stack, or its path has reached its join. */
  ghost predicate Waits(s: State, lane: nat)
    requires |s.w.scalars| == 128 && Csp(s.w) <= 7
  {
    exists j :: 0 <= j < Csp(s.w) && Bit(SlotMask(s.w, j), lane)
  }

  ghost predicate HasJoined(s: State, lane: nat) {
    exists k :: 0 <= k < |s.joined| && Bit(s.joined[k], lane)
  }

  lemma {:induction false} SlotHolds(w: Registers, c: nat, lane: nat)
    requires WellFormed(w) && c <= 7
    ensures SlotHolders(w, c, lane) > 0 <==> exists j :: 0 <= j < c && Bit(SlotMask(w, j), lane)
  {
    if c > 0 { SlotHolds(w, c - 1, lane); }
  }

  lemma {:induction false} JoinedHolds(joined: seq<nat>, lane: nat)
    ensures JoinedHolders(joined, lane) > 0 <==> exists k :: 0 <= k < |joined| && Bit(joined[k], lane)
  {
    if joined != [] {
      var n := |joined| - 1;
      JoinedHolds(joined[..n], lane);
      if k :| 0 <= k < n && Bit(joined[..n][k], lane) { assert Bit(joined[k], lane); }
      if k :| 0 <= k < n && Bit(joined[k], lane) { assert Bit(joined[..n][k], lane); }
    }
  }

  /** In every run each lane the wave started with runs, waits or has joined, only one of the three, and
      no other lane does. */
  lemma LanesAreSomewhere(s: State, steps: seq<Step>, initial: nat, lane: nat)
    requires Good(s, initial) && LegalRun(s, steps, initial)
    ensures var r := RunOf(s, steps, initial);
      && WellFormed(r.w) && Csp(r.w) <= 6
      && (Bit(initial, lane) <==> Bit(Exec(r.w), lane) || Waits(r, lane) || HasJoined(r, lane))
      && !(Bit(Exec(r.w), lane) && Waits(r, lane)) && !(Bit(Exec(r.w), lane) && HasJoined(r, lane))
      && !(Waits(r, lane) && HasJoined(r, lane))
  {
    DivergenceIsBounded(s, steps, initial);
    var r := RunOf(s, steps, initial);
    SlotHolds(r.w, Csp(r.w), lane);
    JoinedHolds(r.joined, lane);
    assert Holders(r, lane) == Holds(initial, lane);
  }

  // ----- where the lanes go -----

  /** Where `lane` must continue after the fork. */
  function Destination(w: Registers, pc: nat, i: Instruction, lane: nat): nat
    requires |w.scalars| == 128 && !i.JoinBranch? && OperandsOk(i)
  {
    if Bit(Pair(w, i.mask), lane) then ForkTarget(w, pc, i) else FallThrough(pc, i)
  }

  /** The register pair is not overwritten by a push at the current depth. */
  predicate OutsideSlot(w: Registers, n: nat) {
    n + 1 < 4 * Csp(w) || 4 * Csp(w) + 4 <= n
  }

  /** What the second evaluation of a fork decides, told from the registers before the first:
      a mask read from the slot is by then the pushed lanes or the saved address. */
  predicate SecondTaken(w: Registers, pc: nat, i: Instruction)
    requires |w.scalars| == 128 && !i.JoinBranch? && OperandsOk(i)
  {
    if !Diverges(w, i.mask) || OutsideSlot(w, i.mask) then ForkTaken(w, i.mask)
    else i.mask == 4 * Csp(w) + 2 && Prefers(PushedPc(w, pc, i), Kept(w, i.mask))
  }

  /** The target the second evaluation computes, likewise. */
  function SecondTarget(w: Registers, pc: nat, i: Instruction): nat
    requires |w.scalars| == 128 && !i.JoinBranch? && OperandsOk(i)
  {
    if i.IFork? || !Diverges(w, i.mask) then ForkTarget(w, pc, i)
    else if i.targetPair == EXEC then Align4(Kept(w, i.mask))
    else if i.targetPair == 4 * Csp(w) then Align4(Pushed(w, i.mask))
    else if i.targetPair == 4 * Csp(w) + 2 then Align4(PushedPc(w, pc, i))
    else ForkTarget(w, pc, i)
  }

  /** What a register pair holds after a fork that diverges. */
  function PairAfter(w: Registers, pc: nat, i: Instruction, n: nat): nat
    requires |w.scalars| == 128 && !i.JoinBranch? && OperandsOk(i) && n + 1 < 128
  {
    if n == EXEC then Kept(w, i.mask)
    else if n == 4 * Csp(w) then Pushed(w, i.mask)
    else if n == 4 * Csp(w) + 2 then PushedPc(w, pc, i)
    else Pair(w, n)
  }

  lemma PairAfterFork(w: Registers, pc: nat, i: Instruction, n: nat)
    requires WellFormed(w) && Csp(w) < 7 && !i.JoinBranch? && OperandsOk(i) && Diverges(w, i.mask)
    requires n % 2 == 0 && n < 128
    ensures WellFormed(AfterFork(w, pc, i)) && Pair(AfterFork(w, pc, i), n) == PairAfter(w, pc, i, n)
  {
    ForkEffect(w, pc, i);
    var w' := AfterFork(w, pc, i);
    if n != EXEC && n != 4 * Csp(w) && n != 4 * Csp(w) + 2 {
      assert w'.scalars[n] == w.scalars[n];
      assert w'.scalars[n + 1] == w.scalars[n + 1];
    }
  }

  /** The second evaluation decides what is told of it above. */
  lemma SecondDecision(w: Registers, pc: nat, i: Instruction)
    requires WellFormed(w) && Csp(w) < 7 && !i.JoinBranch? && OperandsOk(i)
    ensures ForkTaken(AfterFork(w, pc, i), i.mask) <==> SecondTaken(w, pc, i)
  {
    if Diverges(w, i.mask) {
      PairAfterFork(w, pc, i, i.mask);
      PairAfterFork(w, pc, i, EXEC);
      PrefersAgain(Pair(w, i.mask), Exec(w));
      PrefersPushed(Pair(w, i.mask), Exec(w));
      AndSelf(Exec(w));
    }
  }

  /** And it computes the target told of it above. */
  lemma SecondAddress(w: Registers, pc: nat, i: Instruction)
    requires WellFormed(w) && Csp(w) < 7 && !i.JoinBranch? && OperandsOk(i)
    ensures ForkTarget(AfterFork(w, pc, i), pc, i) == SecondTarget(w, pc, i)
  {
    if i.GFork? && Diverges(w, i.mask) {
      PairAfterFork(w, pc, i, i.targetPair);
    }
  }

  /** A fork is decided the same way both times if and only if nothing is pushed, or the mask
      is read outside the pushed slot, or it is read from the lanes in the slot and the branch
      is not taken, or from the address in the slot and that address happens to prefer the
      same outcome among the lanes that keep running. */
  lemma DecisionAgreesExactly(w: Registers, pc: nat, i: Instruction)
    requires WellFormed(w) && Csp(w) < 7 && !i.JoinBranch? && OperandsOk(i)
    ensures var c, taken := Csp(w), ForkTaken(w, i.mask);
      (ForkTaken(AfterFork(w, pc, i), i.mask) <==> taken) <==>
        || !Diverges(w, i.mask)
        || OutsideSlot(w, i.mask)
        || (i.mask == 4 * c && !taken)
        || (i.mask == 4 * c + 2 && (Prefers(PushedPc(w, pc, i), Kept(w, i.mask)) <==> taken))
  {
    SecondDecision(w, pc, i);
  }

  /** The pair that holds the target is not written by a fork that diverges, or the value
      written there is the same address. */
  predicate TargetKept(w: Registers, pc: nat, i: Instruction)
    requires |w.scalars| == 128 && i.GFork? && OperandsOk(i)
  {
    var c, target := Csp(w), ForkTarget(w, pc, i);
    if i.targetPair == EXEC then Align4(Kept(w, i.mask)) == target
    else if i.targetPair == 4 * c then Align4(Pushed(w, i.mask)) == target
    else if i.targetPair == 4 * c + 2 then ForkTaken(w, i.mask) ==> Align4(FallThrough(pc, i)) == target
    else true
  }

  /** The target is the same both times if and only if nothing is pushed, or it does not come
      from a register pair the fork writes, or the value written there is the same address. */
  lemma TargetAgreesExactly(w: Registers, pc: nat, i: Instruction)
    requires WellFormed(w) && Csp(w) < 7 && !i.JoinBranch? && OperandsOk(i)
    ensures ForkTarget(AfterFork(w, pc, i), pc, i) == ForkTarget(w, pc, i) <==>
        || i.IFork?
        || !Diverges(w, i.mask)
        || TargetKept(w, pc, i)
  {
    SecondAddress(w, pc, i);
    AlignTwice(w, pc, i);
  }

  lemma AlignTwice(w: Registers, pc: nat, i: Instruction)
    requires |w.scalars| == 128 && !i.JoinBranch? && OperandsOk(i)
    ensures Align4(ForkTarget(w, pc, i)) == ForkTarget(w, pc, i)
  {
  }

  lemma PrefersAgain(m: nat, exec: nat)
    requires And(m, exec) != exec && AndNot(m, exec) != exec
    ensures Prefers(m, if Prefers(m, exec) then And(m, exec) else AndNot(m, exec)) == Prefers(m, exec)
  {
    MaskAgain(m, exec);
    SplitCount(m, exec);
  }

  /** Reading the pushed lanes in place of the mask, the branch is never taken. */
  lemma PrefersPushed(m: nat, exec: nat)
    requires And(m, exec) != exec && AndNot(m, exec) != exec
    ensures !Prefers(AndNot(m, exec), And(m, exec)) && !Prefers(And(m, exec), AndNot(m, exec))
  {
    HalvesDisjoint(m, exec);
    SplitCount(m, exec);
  }

  /** Where the lanes that keep running should continue. */
  function KeptPc(w: Registers, pc: nat, i: Instruction): nat
    requires |w.scalars| == 128 && !i.JoinBranch? && OperandsOk(i)
  {
    if ForkTaken(w, i.mask) then ForkTarget(w, pc, i) else FallThrough(pc, i)
  }

  /** Where they do continue. */
  function SecondPc(w: Registers, pc: nat, i: Instruction): nat
    requires |w.scalars| == 128 && !i.JoinBranch? && OperandsOk(i)
  {
    if SecondTaken(w, pc, i) then SecondTarget(w, pc, i) else FallThrough(pc, i)
  }

  /** Lane by lane: the fork leaves each running lane either running or in the new slot, the
      address in the slot is the one its mask bit asks for, and the lanes that keep running
      all ask for the same one. */
  lemma ForkSplitsLanes(w: Registers, pc: nat, i: Instruction, lane: nat)
    requires WellFormed(w) && Csp(w) < 7 && !i.JoinBranch? && OperandsOk(i)
    ensures var w' := AfterFork(w, pc, i); var c := Csp(w);
      && WellFormed(w')
      && (Bit(Exec(w'), lane) ==> KeptPc(w, pc, i) == Destination(w, pc, i, lane))
      && (w' == w || (
           && Csp(w') == c + 1
           && (Bit(SlotMask(w', c), lane) ==> SlotPc(w', c) == Destination(w, pc, i, lane))
           && (Bit(Exec(w), lane) <==> Bit(Exec(w'), lane) || Bit(SlotMask(w', c), lane))
           && !(Bit(Exec(w'), lane) && Bit(SlotMask(w', c), lane))))
  {
    AndBit(Pair(w, i.mask), Exec(w), lane);
    AndNotBit(Pair(w, i.mask), Exec(w), lane);
    if Diverges(w, i.mask) {
      ForkEffect(w, pc, i);
    }
  }

  /** Every lane that keeps running continues where its mask bit says. */
  ghost predicate LanesContinue(w: Registers, pc: nat, i: Instruction)
    requires WellFormed(w) && Csp(w) < 7 && !i.JoinBranch? && OperandsOk(i) && WellFormed(AfterFork(w, pc, i))
  {
    forall lane: nat :: Bit(Exec(AfterFork(w, pc, i)), lane) ==> ForkNextPc(w, pc, i) == Destination(w, pc, i, lane)
  }

  /** They all do if and only if the second evaluation ends at the address the first meant. */
  lemma ForkSendsLanesExactly(w: Registers, pc: nat, i: Instruction)
    requires WellFormed(w) && Csp(w) < 7 && !i.JoinBranch? && OperandsOk(i)
    ensures WellFormed(AfterFork(w, pc, i))
    ensures LanesContinue(w, pc, i) <==> SecondPc(w, pc, i) == KeptPc(w, pc, i)
  {
    var w' := AfterFork(w, pc, i);
    SecondDecision(w, pc, i);
    SecondAddress(w, pc, i);
    ForkSplitsLanes(w, pc, i, 0);
    if SecondPc(w, pc, i) == KeptPc(w, pc, i) {
      forall lane: nat | Bit(Exec(w'), lane)
        ensures ForkNextPc(w, pc, i) == Destination(w, pc, i, lane)
      {
        ForkSplitsLanes(w, pc, i, lane);
      }
    } else {
      SplitFacts(w, i.mask);
      ForkEffect(w, pc, i);
      var lane := FirstBit(Exec(w'));
      ForkSplitsLanes(w, pc, i, lane);
    }
  }

  /** A fork is taken if and only if no running lane fails the mask, or some pass it and those that fail
      it are no fewer. */
  lemma ForkTakenExactly(w: Registers, mask: nat)
    requires WellFormed(w) && mask + 1 < 128
    ensures var pass, fail := BitCount(And(Pair(w, mask), Exec(w))), BitCount(AndNot(Pair(w, mask), Exec(w)));
      && (ForkTaken(w, mask) <==> fail == 0 || (pass > 0 && fail >= pass))
      && (Diverges(w, mask) <==> fail > 0 && pass > 0)
  {
    SplitFacts(w, mask);
    NoBits(And(Pair(w, mask), Exec(w)));
    NoBits(AndNot(Pair(w, mask), Exec(w)));
  }

  lemma NoBits(x: nat)
    ensures BitCount(x) == 0 <==> x == 0
  {
    if x > 0 { SomeBit(x); }
  }

  lemma TwoLanes()
    ensures And(1, 3) == 1 && AndNot(1, 3) == 2 && BitCount(1) == 1 && BitCount(2) == 1
  {
  }

  /** Whenever the mask is the pair that receives the waiting lanes, a branch that is taken
      loses its target. */
  lemma TakenFromSlot(w: Registers, pc: nat, i: Instruction)
    requires WellFormed(w) && Csp(w) < 7 && !i.JoinBranch? && OperandsOk(i)
    requires Diverges(w, i.mask) && i.mask == 4 * Csp(w)
    ensures ForkNextPc(w, pc, i) == FallThrough(pc, i)
  {
    SecondDecision(w, pc, i);
  }

  lemma TwoLaneWave() returns (w: Registers)
    ensures WellFormed(w) && Pair(w, 0) == 1 && Exec(w) == 3 && Csp(w) == 0
  {
    w := Registers(seq(128, k => if k == 0 then 1 else if k == 126 then 3 else 0), 0, 0);
  }

  lemma TwoLanesTaken(w: Registers)
    requires WellFormed(w) && Pair(w, 0) == 1 && Exec(w) == 3
    ensures Diverges(w, 0) && ForkTaken(w, 0)
  {
    TwoLanes();
  }

  /** The branch at 0x100 is taken but the lanes that keep running continue elsewhere. */
  ghost predicate GoesAstray(w: Registers, i: Instruction) {
    && WellFormed(w) && Csp(w) <= 7 && i.IFork? && OperandsOk(i) && ForkTaken(w, i.mask)
    && ForkNextPc(w, 0x100, i) != ForkTarget(w, 0x100, i)
  }

  lemma SlotForkGoesAstray(w: Registers, i: Instruction)
    requires WellFormed(w) && Csp(w) < 7 && i.IFork? && OperandsOk(i)
    requires i.mask == 4 * Csp(w) && Diverges(w, i.mask) && ForkTaken(w, i.mask)
    requires FallThrough(0x100, i) != ForkTarget(w, 0x100, i)
    ensures GoesAstray(w, i)
  {
    TakenFromSlot(w, 0x100, i);
  }

  lemma ForkAddresses(w: Registers, i: Instruction)
    requires |w.scalars| == 128 && i == IFork(0, 8, 4)
    ensures ForkTarget(w, 0x100, i) == 0x124 && FallThrough(0x100, i) == 0x104
  {
  }

  /** Lanes 0 and 1 run and the mask, in the first slot itself, names lane 0: the branch is
      taken and lane 1 waits, but lane 0 then continues at the next instruction. */
  lemma ForkGoesAstray()
    ensures exists w: Registers :: GoesAstray(w, IFork(0, 8, 4))
  {
    var w := TwoLaneWave();
    TwoLanesTaken(w);
    ForkAddresses(w, IFork(0, 8, 4));
    SlotForkGoesAstray(w, IFork(0, 8, 4));
  }

  lemma {:induction false} FirstBit(x: nat) returns (lane: nat)
    requires BitCount(x) >= 1
    ensures Bit(x, lane)
  {
    if x % 2 == 1 {
      lane := 0;
    } else {
      lane := FirstBit(x / 2);
      lane := lane + 1;
    }
  }

  /** A join taken right after a fork gives the waiting lanes back: exec is the pushed half and
      the depth is the one before the fork. */
  lemma JoinUndoesFork(w: Registers, pc: nat, fork: Instruction, join: Instruction)
    requires WellFormed(w) && Csp(w) < 7 && !fork.JoinBranch? && OperandsOk(fork) && Diverges(w, fork.mask)
    requires join.JoinBranch? && OperandsOk(join) && JoinTaken(AfterFork(w, pc, fork), join.counter)
    ensures Csp(AfterFork(w, pc, fork)) > 0
    ensures var r := AfterJoin(AfterFork(w, pc, fork), join);
      && WellFormed(r) && Csp(r) == Csp(w) && r.mode == w.mode
      && Exec(r) == Pushed(w, fork.mask)
      && Exec(r) + Exec(AfterFork(w, pc, fork)) == Exec(w)
  {
    ForkEffect(w, pc, fork);
    JoinEffect(AfterFork(w, pc, fork), join);
    SplitFacts(w, fork.mask);
    var r := AfterJoin(AfterFork(w, pc, fork), join);
    assert r.mode == Csp(r) * CSP_UNIT + r.mode % CSP_UNIT;
  }

  /** Where a join that is taken continues: the address in the slot below the stack pointer; below
      the first slot, the word read in place of the two that are not there. */
  function JoinTarget(w: Registers): nat
    requires |w.scalars| == 128 && Csp(w) <= 8
  {
    Align4(if Csp(w) == 0 then w.v0 * WORD + w.v0 else SlotPc(w, Csp(w) - 1))
  }

  lemma JoinedDepth(w: Registers, i: Instruction)
    requires |w.scalars| == 128 && Csp(w) <= 7 && i.JoinBranch? && OperandsOk(i)
    requires JoinTaken(w, i.counter) ==> Csp(w) > 0
    ensures Csp(AfterJoin(w, i)) <= 7
  {
  }

  /** The address of the instruction after a join. The branch is evaluated again on the popped
      registers, so its target is read one slot too low. */
  function JoinNextPc(w: Registers, pc: nat, i: Instruction): nat
    requires |w.scalars| == 128 && Csp(w) <= 7 && i.JoinBranch? && OperandsOk(i)
    requires JoinTaken(w, i.counter) ==> Csp(w) > 0
  {
    JoinedDepth(w, i);
    var w' := AfterJoin(w, i);
    if JoinTaken(w', i.counter) then JoinTarget(w') else FallThrough(pc, i)
  }

  /** What the counter register holds once the lanes of the top slot are back in exec. */
  function CounterAfter(w: Registers, counter: nat): nat
    requires |w.scalars| == 128 && counter < 128 && 1 <= Csp(w) <= 7
  {
    if counter < EXEC then w.scalars[counter] else w.scalars[4 * (Csp(w) - 1) + counter - EXEC]
  }

  lemma PairWords(w: Registers, w': Registers, n: nat, m: nat)
    requires WellFormed(w) && WellFormed(w') && n + 1 < 128 && m + 1 < 128 && Pair(w, n) == Pair(w', m)
    ensures w.scalars[n] == w'.scalars[m] && w.scalars[n + 1] == w'.scalars[m + 1]
  {
  }

  lemma CounterIsAfter(w: Registers, i: Instruction)
    requires WellFormed(w) && i.JoinBranch? && OperandsOk(i) && JoinTaken(w, i.counter) && 1 <= Csp(w) <= 7
    ensures AfterJoin(w, i).scalars[i.counter] == CounterAfter(w, i.counter)
  {
    JoinEffect(w, i);
    PairWords(AfterJoin(w, i), w, EXEC, 4 * (Csp(w) - 1));
  }

  /** A taken join falls through when the counter register names the new depth, and continues
      at the address of the slot below the restored one when it does not. The address saved
      with the restored lanes is therefore reached if and only if it is that one. */
  lemma JoinNextPcExactly(w: Registers, pc: nat, i: Instruction)
    requires WellFormed(w) && i.JoinBranch? && OperandsOk(i) && JoinTaken(w, i.counter) && 1 <= Csp(w) <= 7
    ensures Csp(AfterJoin(w, i)) == Csp(w) - 1
    ensures var saved := SlotPc(w, Csp(w) - 1);
      JoinNextPc(w, pc, i) == saved <==>
        if CounterAfter(w, i.counter) == Csp(w) - 1 then saved == FallThrough(pc, i)
        else if Csp(w) == 1 then saved == Align4(w.v0 * WORD + w.v0)
        else saved == Align4(SlotPc(w, Csp(w) - 2))
  {
    JoinEffect(w, i);
    CounterIsAfter(w, i);
  }

  /** The address after a join, in every case: a join that is not taken changes nothing and falls
      through, and one that is taken does so too when the counter register names the new depth. */
  lemma JoinContinuesExactly(w: Registers, pc: nat, i: Instruction)
    requires WellFormed(w) && i.JoinBranch? && OperandsOk(i) && Csp(w) <= 7 && (JoinTaken(w, i.counter) ==> Csp(w) > 0)
    ensures JoinNextPc(w, pc, i) ==
      if Csp(w) == w.scalars[i.counter] || CounterAfter(w, i.counter) == Csp(w) - 1 then (pc + i.size) % DOUBLE
      else if Csp(w) == 1 then Align4(w.v0 * WORD + w.v0)
      else Align4(SlotPc(w, Csp(w) - 2))
    ensures Csp(w) == w.scalars[i.counter] ==> AfterJoin(w, i) == w
  {
    if JoinTaken(w, i.counter) {
      JoinEffect(w, i);
      CounterIsAfter(w, i);
    }
  }

  /** One level deep, with the waiting lanes to continue at 0x100: the join restores them but
      falls through, to 0x304. */
  lemma JoinFallsThrough()
    ensures exists w: Registers, i: Instruction ::
      && WellFormed(w) && Csp(w) == 1 && i.JoinBranch? && i.counter < EXEC && JoinTaken(w, i.counter)
      && Csp(AfterJoin(w, i)) == 0 && w.scalars[i.counter] == 0
      && JoinNextPc(w, 0x300, i) == 0x304 && SlotPc(w, 0) == 0x100
  {
    var scalars := seq(128, k => if k == 2 then 0x100 else 0);
    var w := Registers(scalars, CSP_UNIT, 0);
    var i := JoinBranch(100, 4);
    assert Csp(w) == 1 && w.scalars[100] == 0;
    JoinEffect(w, i);
    assert JoinNextPc(w, 0x300, i) == 0x304;
  }

  /** Two levels deep, with the outer path at 0x100 and the inner one at 0x200: the join
      restores the inner lanes but continues at the outer address. */
  lemma JoinContinuesElsewhere()
    ensures exists w: Registers, i: Instruction ::
      && WellFormed(w) && Csp(w) == 2 && i.JoinBranch? && i.counter < EXEC && JoinTaken(w, i.counter)
      && Csp(AfterJoin(w, i)) == 1
      && JoinNextPc(w, 0x300, i) == SlotPc(w, 0) != SlotPc(w, 1)
  {
    var scalars := seq(128, k => if k == 2 then 0x100 else if k == 6 then 0x200 else 0);
    var w := Registers(scalars, 2 * CSP_UNIT, 0);
    var i := JoinBranch(100, 4);
    assert Csp(w) == 2 && w.scalars[100] == 0;
    JoinEffect(w, i);
    assert SlotPc(w, 0) == 0x100 && SlotPc(w, 1) == 0x200;
    assert JoinNextPc(w, 0x300, i) == 0x100;
  }

  // ----- the simulator -----

  class Wave {
    var scalars: array<nat>
    var mode: nat
    const v0: nat

    ghost function Abs(): Registers
      reads this, scalars
    {
      Registers(scalars[..], mode, v0)
    }

    ghost predicate Valid()
      reads this, scalars
    {
      scalars.Length == 128 && WellFormed(Abs())
    }

    constructor (values: seq<nat>, mode: nat, v0: nat)
      requires WellFormed(Registers(values, mode, v0))
      ensures Valid() && fresh(scalars) && Abs() == Registers(values, mode, v0)
    {
      this.mode := mode;
      this.v0 := v0;
      scalars := new nat[128](i requires 0 <= i < 128 => values[i]);
      new;
      assert scalars[..] == values;
    }

    method ReadPair(n: nat) returns (x: nat)
      requires Valid() && n + 1 < 128
      ensures x == Pair(Abs(), n)
    {
      var lo, hi := scalars[n], scalars[n + 1];
      x := hi * WORD + lo;
    }

    method WritePair(n: nat, x: nat)
      requires Valid() && n + 1 < 128 && x < DOUBLE
      modifies scalars
      ensures Valid() && Abs() == WithPair(old(Abs()), n, x)
    {
      ghost var before := Abs();
      WithPairFacts(before, n, x);
      scalars[n] := x % WORD;
      scalars[n + 1] := x / WORD % WORD;
      assert scalars[..] == WithPair(before, n, x).scalars;
    }

    method WriteCsp(csp: nat)
      requires Valid() && csp < 8
      modifies this`mode
      ensures Valid() && Abs() == WithCsp(old(Abs()), csp)
    {
      WithCspFacts(Abs(), csp);
      mode := mode % CSP_UNIT + csp * CSP_UNIT;
    }

    method IsForkTaken(mask: nat) returns (taken: bool)
      requires Valid() && mask + 1 < 128
      ensures taken <==> ForkTaken(Abs(), mask)
    {
      var m := ReadPair(mask);
      var exec := ReadPair(EXEC);
      var pass, fail := And(m, exec), AndNot(m, exec);
      if pass == exec {
        taken := true;
      } else if fail == exec {
        taken := false;
      } else {
        taken := BitCount(fail) >= BitCount(pass);
      }
    }

    method Target(pc: nat, i: Instruction) returns (target: nat)
      requires Valid() && !i.JoinBranch? && OperandsOk(i)
      ensures target == ForkTarget(Abs(), pc, i)
    {
      match i {
        case IFork(_, offset, size) => target := Align4((pc + size + 4 * offset) % DOUBLE);
        case GFork(_, pair, _) =>
          target := ReadPair(pair);
          target := Align4(target);
      }
    }

    /** Executes a fork: pushes the larger half when the running lanes disagree, and returns
        the next program counter. */
    method SimulateFork(pc: nat, i: Instruction) returns (next: nat)
      requires Valid() && Csp(Abs()) < 7 && !i.JoinBranch? && OperandsOk(i)
      modifies this`mode, scalars
      ensures Valid() && Abs() == AfterFork(old(Abs()), pc, i)
      ensures next == ForkNextPc(old(Abs()), pc, i)
    {
      ghost var before := Abs();
      var m := ReadPair(i.mask);
      var exec := ReadPair(EXEC);
      var pass, fail := And(m, exec), AndNot(m, exec);
      SplitFacts(before, i.mask);
      TargetBound(before, pc, i);
      if pass != exec && fail != exec {
        var taken := IsForkTaken(i.mask);
        var target := Target(pc, i);
        var savedPc := if taken then FallThrough(pc, i) else target;
        PushSlot(if taken then fail else pass, savedPc);
        WritePair(EXEC, if taken then pass else fail);
      }
      var again := IsForkTaken(i.mask);
      if again {
        next := Target(pc, i);
      } else {
        next := FallThrough(pc, i);
      }
    }

    method PushSlot(lanes: nat, pc: nat)
      requires Valid() && Csp(Abs()) < 7 && lanes < DOUBLE && pc < DOUBLE
      modifies this`mode, scalars
      ensures Valid() && Abs() == Push(old(Abs()), lanes, pc)
    {
      var csp := mode / CSP_UNIT;
      WritePair(4 * csp, lanes);
      WritePair(4 * csp + 2, pc);
      WriteCsp(csp + 1);
    }

    /** Executes a join: pops the waiting lanes unless the stack is at the recorded depth. */
    method SimulateJoin(pc: nat, i: Instruction) returns (next: nat)
      requires Valid() && Csp(Abs()) <= 7 && i.JoinBranch? && OperandsOk(i)
      requires JoinTaken(Abs(), i.counter) ==> Csp(Abs()) > 0
      modifies this`mode, scalars
      ensures Valid() && Abs() == AfterJoin(old(Abs()), i)
      ensures next == JoinNextPc(old(Abs()), pc, i)
    {
      var csp := mode / CSP_UNIT;
      if csp != scalars[i.counter] {
        csp := csp - 1;
        var exec := ReadPair(4 * csp);
        PairBound(Abs(), 4 * csp);
        WriteCsp(csp);
        WritePair(EXEC, exec);
      }
      csp := mode / CSP_UNIT;
      if csp != scalars[i.counter] {
        if csp == 0 {
          next := v0 * WORD + v0;
        } else {
          next := ReadPair(4 * (csp - 1) + 2);
        }
        next := Align4(next);
      } else {
        next := FallThrough(pc, i);
      }
    }
  }
}
