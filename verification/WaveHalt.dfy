/** How a wave is stopped, halted and parked: the bits the trap handler and the debugger share in
    the status, mode and trap temporary registers. */
module WaveHalt {

  /** Registers are sequences of bits, least significant first. */
  type Word = b: seq<bool> | |b| == 32 witness Zeros(32)
  type Address = b: seq<bool> | |b| == 64 witness Zeros(64)

  function Zeros(n: nat): (b: seq<bool>)
    ensures |b| == n && forall i :: 0 <= i < n ==> !b[i]
  {
    seq(n, i => false)
  }

  const HALT: nat := 13
  const SKIP_EXPORT: nat := 18
  const DEBUG_ENABLE: nat := 11
  const STOPPED: nat := 30
  const SAVED_HALT: nat := 29

  /** Whether stopped waves are parked, at which address, and whether the hardware initializes
      the trap temporaries of every wave. */
  datatype Configuration = Configuration(parks: bool, parkAddress: Address, ttmpsInitialized: bool)

  datatype Registers = Registers(status: Word, mode: Word, ttmp6: Word, ttmp7: Word, ttmp11: Word, pc: Address)

  datatype Command = Stop | Run | SingleStep

  predicate IsStopped(r: Registers) { r.ttmp6[STOPPED] }
  predicate IsHalted(r: Registers) { r.status[HALT] }
  predicate SavedHalt(r: Registers) { r.ttmp6[SAVED_HALT] }
  predicate StepsOnce(r: Registers) { r.mode[DEBUG_ENABLE] }

  /** The halt bit as the client sees it. */
  predicate GetHalt(r: Registers) {
    if IsStopped(r) then SavedHalt(r) else IsHalted(r)
  }

  function SetHalt(r: Registers, halt: bool): Registers {
    if IsStopped(r) then r.(ttmp6 := r.ttmp6[SAVED_HALT := halt])
    else r.(status := r.status[HALT := halt])
  }

  /** Registers after the debugger changes the state of a wave. */
  function Commanded(c: Configuration, r: Registers, command: Command): Registers {
    if command.Stop? then
      var status := r.status[HALT := true];
      r.(ttmp6 := r.ttmp6[SAVED_HALT := IsHalted(r)][STOPPED := true],
         status := if c.ttmpsInitialized then status else status[SKIP_EXPORT := true])
    else
      r.(status := r.status[SKIP_EXPORT := false][HALT := SavedHalt(r)],
         ttmp6 := r.ttmp6[STOPPED := false][SAVED_HALT := false],
         mode := r.mode[DEBUG_ENABLE := command.SingleStep?])
  }

  /** The low two bits of the program counter are read-only. */
  function WithPc(r: Registers, pc: Address): Registers {
    r.(pc := Replace(r.pc, pc))
  }

  function Replace(current: Address, pc: Address): Address {
    current[..2] + pc[2..]
  }

  /** Bits 0 to 31 of a program counter go to ttmp7, bits 32 to 47 to bits 7 to 22 of ttmp11. */
  function SavePc(r: Registers, pc: Address): Registers {
    r.(ttmp7 := pc[..32], ttmp11 := r.ttmp11[..7] + pc[32..48] + r.ttmp11[23..])
  }

  function SavedPc(r: Registers): Address {
    r.ttmp7 + r.ttmp11[7..23] + Zeros(16)
  }

  /** Registers after a wave enters the trap handler at `pc`. Four bits of the trap identifier
      are kept, all clear for an entry without one. */
  function Trapped(c: Configuration, r: Registers, pc: Address, trap: bv8): Registers {
    var ttmp6 := r.ttmp6[..25] + Low4(trap) + [IsHalted(r), true] + r.ttmp6[31..];
    var r1 := r.(ttmp6 := ttmp6);
    var r2 := if c.parks then WithPc(SavePc(r1, pc), c.parkAddress) else WithPc(r1, pc);
    r2.(status := r2.status[HALT := true])
  }

  function Low4(trap: bv8): (b: seq<bool>)
    ensures |b| == 4
  {
    [trap & 1 != 0, trap & 2 != 0, trap & 4 != 0, trap & 8 != 0]
  }

  /** The four bits kept, put together, are the identifier modulo 16. */
  lemma TrapIsKept(trap: bv8)
    ensures var b := Low4(trap);
      (if b[0] then 1 else 0) | (if b[1] then 2 else 0) | (if b[2] then 4 else 0) | (if b[3] then 8 else 0) == trap & 15
  {
  }

  predicate Fits48(pc: Address) {
    forall i :: 48 <= i < 64 ==> !pc[i]
  }

  predicate CanonicalPc(pc: Address) {
    !pc[0] && !pc[1] && Fits48(pc)
  }

  /** The two words agree outside `bits`. */
  predicate SameBut(a: Word, b: Word, bits: set<nat>) {
    forall i: nat :: i < 32 && i !in bits ==> a[i] == b[i]
  }

  /** The two words agree outside bits `first` to `end - 1`. */
  predicate SameOutside(a: Word, b: Word, first: nat, end: nat) {
    forall i: nat :: i < 32 && !(first <= i < end) ==> a[i] == b[i]
  }

  // ----- the registers one operation at a time -----

  /** A program counter is recovered exactly if and only if it fits in 48 bits, and the bits of
      ttmp11 that do not hold it are kept. */
  lemma SavedPcExactly(r: Registers, pc: Address)
    ensures SavedPc(SavePc(r, pc)) == pc <==> Fits48(pc)
    ensures SameOutside(r.ttmp11, SavePc(r, pc).ttmp11, 7, 23)
    ensures SavePc(r, pc).(ttmp7 := r.ttmp7, ttmp11 := r.ttmp11) == r
  {
    var saved := SavedPc(SavePc(r, pc));
    assert saved == pc[..48] + Zeros(16);
    assert pc == pc[..48] + pc[48..];
    if Fits48(pc) {
      assert pc[48..] == Zeros(16);
    }
  }

  /** A state change keeps the client's halt bit if and only if the bit it copies, status.halt when
      stopping and the saved bit when resuming, is the one in use. Repeating a stop, for
      one, turns the bit on. */
  lemma CommandKeepsHaltExactly(c: Configuration, r: Registers, command: Command)
    ensures GetHalt(Commanded(c, r, command)) == GetHalt(r) <==>
      if command.Stop? then !IsStopped(r) || SavedHalt(r) == IsHalted(r)
      else IsStopped(r) || SavedHalt(r) == IsHalted(r)
    ensures IsStopped(Commanded(c, r, command)) <==> command.Stop?
    ensures IsStopped(r) && IsHalted(r) && !GetHalt(r) ==> GetHalt(Commanded(c, r, Stop))
  {
  }

  // ----- the wave over whole runs -----

  /** A wave: its registers, the state last known to the library, and whether the library has
      parked it, in which case the program counter is read from where it was saved. */
  datatype WaveState = WaveState(r: Registers, state: Command, parked: bool)

  function ReadPc(w: WaveState): Address {
    if w.parked then SavedPc(w.r) else w.r.pc
  }

  function WrittenPc(w: WaveState, pc: Address): WaveState {
    w.(r := if w.parked then SavePc(w.r, Replace(SavedPc(w.r), pc)) else WithPc(w.r, pc))
  }

  function Parked(c: Configuration, w: WaveState): WaveState {
    if !c.parks then w else w.(r := WithPc(SavePc(w.r, ReadPc(w)), c.parkAddress), parked := true)
  }

  function Unparked(c: Configuration, w: WaveState): WaveState {
    if !c.parks then w else w.(r := WithPc(w.r, ReadPc(w)), parked := false)
  }

  /** The wave after the client asks for a state. */
  function StateSet(c: Configuration, w: WaveState, command: Command): WaveState {
    if command == w.state then w
    else
      var w1 := w.(r := Commanded(c, w.r, command), state := command);
      if command.Stop? then Parked(c, w1) else Unparked(c, w1)
  }

  /** The wave after its saved registers are examined again: a wave that was running and now
      reports itself stopped has been through the trap handler. */
  function Observed(c: Configuration, w: WaveState): WaveState {
    if w.state.Stop? || !IsStopped(w.r) then w
    else
      var r := if c.parks then WithPc(w.r, SavedPc(w.r)) else w.r;
      Parked(c, w.(r := r, state := Stop))
  }

  datatype Step =
    | Command(command: Command)
    | Halt(halt: bool)
    | MovePc(pc: Address)
    | EnterTrap(at: Address, trap: bv8)
    | Observe

  /** The trap handler has stopped the wave and the library has not yet noticed. */
  predicate Pending(w: WaveState) { !w.state.Stop? && IsStopped(w.r) }

  /** Only a stopped wave is moved, only a running one enters the trap handler, and a wave whose
      trap is unnoticed is examined before anything but its halt bit changes. */
  predicate Allowed(c: Configuration, w: WaveState, step: Step) {
    match step
    case Command(command) => command == w.state || !Pending(w)
    case MovePc(pc) => w.state.Stop? && Fits48(pc)
    case EnterTrap(at, _) => !w.state.Stop? && !Pending(w) && CanonicalPc(at)
    case Halt(_) => true
    case Observe => true
  }

  function Next(c: Configuration, w: WaveState, step: Step): WaveState {
    match step
    case Command(command) => StateSet(c, w, command)
    case Halt(halt) => w.(r := SetHalt(w.r, halt))
    case MovePc(pc) => WrittenPc(w, pc)
    case EnterTrap(at, trap) => w.(r := Trapped(c, w.r, at, trap))
    case Observe => Observed(c, w)
  }

  /** What a client can know of a wave, with the last trap identifier. `trapped` says that it
      stopped unnoticed. */
  datatype View = View(halt: bool, pc: Address, trap: seq<bool>, state: Command, trapped: bool)

  function ViewOf(c: Configuration, w: WaveState): View {
    View(GetHalt(w.r), if Pending(w) && c.parks then SavedPc(w.r) else ReadPc(w), w.r.ttmp6[25..29], w.state, Pending(w))
  }

  /** A wave that is not stopped is made to run, as detaching does with one that is single-stepping.
      Its saved halt bit, which is clear, then takes the place of the one in use. */
  predicate RunsAgain(state: Command, command: Command) {
    command != state && !state.Stop? && !command.Stop?
  }

  /** The same operations on a wave that is one halt bit, one program counter, one trap identifier
      and one state. */
  function NextView(v: View, step: Step): View {
    match step
    case Command(command) => v.(state := command, halt := v.halt && !RunsAgain(v.state, command))
    case Halt(halt) => v.(halt := halt)
    case MovePc(pc) => v.(pc := Replace(v.pc, pc))
    case EnterTrap(at, trap) => v.(pc := at, trap := Low4(trap), trapped := true)
    case Observe => if v.trapped then v.(state := Stop, trapped := false) else v
  }

  /** The register bits that have no part in stopping, parking and resuming are the same. */
  ghost predicate Untouched(r: Registers, r': Registers) {
    && SameBut(r.status, r'.status, {HALT, SKIP_EXPORT})
    && SameBut(r.mode, r'.mode, {DEBUG_ENABLE})
    && SameOutside(r.ttmp6, r'.ttmp6, 25, 31)
    && SameOutside(r.ttmp11, r'.ttmp11, 7, 23)
  }

  predicate WellConfigured(c: Configuration) { !c.parkAddress[0] && !c.parkAddress[1] }

  ghost predicate Inv(c: Configuration, w: WaveState) {
    && !w.r.pc[0] && !w.r.pc[1]
    && CanonicalPc(ViewOf(c, w).pc)
    && (w.parked <==> c.parks && w.state.Stop?)
    && (IsStopped(w.r) ==> IsHalted(w.r) && (c.parks ==> w.r.pc == c.parkAddress))
    && (w.state.Stop? ==> IsStopped(w.r))
    && (!IsStopped(w.r) ==> !SavedHalt(w.r))
    && (!w.state.Stop? ==> (StepsOnce(w.r) <==> w.state.SingleStep?))
  }

  /** The registers of a wave the library has not seen before: aligned, not single-stepping, without
      a saved halt bit, and if it went through the trap handler halted and parked there. */
  ghost predicate Launched(c: Configuration, r: Registers) {
    && !StepsOnce(r) && !r.pc[0] && !r.pc[1]
    && (if IsStopped(r) then IsHalted(r) && (c.parks ==> r.pc == c.parkAddress) else !SavedHalt(r))
    && CanonicalPc(if IsStopped(r) && c.parks then SavedPc(r) else r.pc)
  }

  /** The library takes a new wave to be running and not parked; it then shows its own halt bit,
      program counter and trap. */
  lemma NewWaveIsGood(c: Configuration, r: Registers)
    requires Launched(c, r)
    ensures var w := WaveState(r, Run, false);
      && Inv(c, w)
      && (!IsStopped(r) ==> ViewOf(c, w) == View(IsHalted(r), r.pc, r.ttmp6[25..29], Run, false))
  {
  }

  lemma ParkingKeepsView(c: Configuration, w: WaveState)
    requires WellConfigured(c) && !w.r.pc[0] && !w.r.pc[1] && !w.parked && CanonicalPc(w.r.pc)
    ensures var w' := Parked(c, w);
      && ReadPc(w') == ReadPc(w) && (w'.parked <==> c.parks) && !w'.r.pc[0] && !w'.r.pc[1]
      && (c.parks ==> w'.r.pc == c.parkAddress)
      && w'.r.(pc := w.r.pc, ttmp7 := w.r.ttmp7, ttmp11 := w.r.ttmp11) == w.r
      && SameOutside(w.r.ttmp11, w'.r.ttmp11, 7, 23)
  {
    SavedPcExactly(w.r, ReadPc(w));
  }

  lemma CommandStep(c: Configuration, w: WaveState, command: Command)
    requires WellConfigured(c) && Inv(c, w) && Allowed(c, w, Command(command))
    ensures var w' := StateSet(c, w, command);
      Inv(c, w') && ViewOf(c, w') == NextView(ViewOf(c, w), Command(command)) && Untouched(w.r, w'.r)
  {
    if command != w.state {
      CommandKeepsHaltExactly(c, w.r, command);
      var w1 := w.(r := Commanded(c, w.r, command), state := command);
      if command.Stop? {
        ParkingKeepsView(c, w1);
      }
    }
  }

  /** Where the hardware does not initialize the trap temporaries a stopped wave is told to skip its
      exports, and a resumed one never is. */
  lemma ExportsSkippedExactly(c: Configuration, w: WaveState, command: Command)
    requires WellConfigured(c) && Inv(c, w) && Allowed(c, w, Command(command)) && command != w.state
    ensures StateSet(c, w, command).r.status[SKIP_EXPORT] <==>
      command.Stop? && (w.r.status[SKIP_EXPORT] || !c.ttmpsInitialized)
  {
  }

  lemma TrapStep(c: Configuration, w: WaveState, at: Address, trap: bv8)
    requires WellConfigured(c) && Inv(c, w) && Allowed(c, w, EnterTrap(at, trap))
    ensures var w' := Next(c, w, EnterTrap(at, trap));
      Inv(c, w') && ViewOf(c, w') == NextView(ViewOf(c, w), EnterTrap(at, trap)) && Untouched(w.r, w'.r)
  {
    SavedPcExactly(w.r, at);
  }

  lemma ObserveStep(c: Configuration, w: WaveState)
    requires WellConfigured(c) && Inv(c, w)
    ensures var w' := Observed(c, w);
      Inv(c, w') && ViewOf(c, w') == NextView(ViewOf(c, w), Observe) && Untouched(w.r, w'.r)
  {
    if Pending(w) {
      var r := if c.parks then WithPc(w.r, SavedPc(w.r)) else w.r;
      ParkingKeepsView(c, w.(r := r, state := Stop));
    }
  }

  lemma MoveStep(c: Configuration, w: WaveState, pc: Address)
    requires WellConfigured(c) && Inv(c, w) && Allowed(c, w, MovePc(pc))
    ensures var w' := WrittenPc(w, pc);
      Inv(c, w') && ViewOf(c, w') == NextView(ViewOf(c, w), MovePc(pc)) && Untouched(w.r, w'.r)
  {
    SavedPcExactly(w.r, Replace(SavedPc(w.r), pc));
  }

  lemma StepIsSimple(c: Configuration, w: WaveState, step: Step)
    requires WellConfigured(c) && Inv(c, w) && Allowed(c, w, step)
    ensures Inv(c, Next(c, w, step))
    ensures ViewOf(c, Next(c, w, step)) == NextView(ViewOf(c, w), step)
    ensures Untouched(w.r, Next(c, w, step).r)
  {
    match step
    case Command(command) => CommandStep(c, w, command);
    case Halt(halt) =>
    case MovePc(pc) => MoveStep(c, w, pc);
    case EnterTrap(at, trap) => TrapStep(c, w, at, trap);
    case Observe => ObserveStep(c, w);
  }

  ghost predicate LegalRun(c: Configuration, w: WaveState, steps: seq<Step>)
    decreases |steps|
  {
    steps == [] || (Allowed(c, w, steps[0]) && LegalRun(c, Next(c, w, steps[0]), steps[1..]))
  }

  ghost function RunOf(c: Configuration, w: WaveState, steps: seq<Step>): WaveState
    decreases |steps|
  {
    if steps == [] then w else RunOf(c, Next(c, w, steps[0]), steps[1..])
  }

  ghost function RunView(v: View, steps: seq<Step>): View
    decreases |steps|
  {
    if steps == [] then v else RunView(NextView(v, steps[0]), steps[1..])
  }

  /** Over any run the client sees one plain halt bit, one plain program counter and the
      identifier of the last trap, however often the wave is stopped, parked, trapped and
      resumed; only making a wave run that is not stopped clears the halt bit; a wave known to be
      stopped is halted in hardware; and the other bits of the registers are left alone. */
  lemma {:induction false} EveryRunIsSimple(c: Configuration, w: WaveState, steps: seq<Step>)
    requires WellConfigured(c) && Inv(c, w) && LegalRun(c, w, steps)
    ensures var w' := RunOf(c, w, steps);
      && ViewOf(c, w') == RunView(ViewOf(c, w), steps)
      && (w'.state.Stop? ==> IsHalted(w'.r) && (c.parks ==> w'.r.pc == c.parkAddress))
      && Untouched(w.r, w'.r)
      && Inv(c, w')
    decreases |steps|
  {
    if steps != [] {
      StepIsSimple(c, w, steps[0]);
      EveryRunIsSimple(c, Next(c, w, steps[0]), steps[1..]);
    }
  }

  /** A single-stepping wave that the client has halted, and that is made to run. */
  lemma DetachedWaveRuns(c: Configuration) returns (w: WaveState)
    ensures Inv(c, w) && Allowed(c, w, Command(Run))
    ensures w.state.SingleStep? && GetHalt(w.r) && !GetHalt(Next(c, w, Command(Run)).r)
  {
    var zeros := Zeros(32);
    var r := Registers(zeros[HALT := true], zeros[DEBUG_ENABLE := true], zeros, zeros, zeros, Zeros(64));
    w := WaveState(r, SingleStep, false);
  }

  // ----- the wave object -----

  class Wave {
    const configuration: Configuration
    var r: Registers
    var state: Command
    var isParked: bool

    ghost function Abs(): WaveState
      reads this
    {
      WaveState(r, state, isParked)
    }

    constructor (configuration: Configuration, r: Registers)
      ensures this.configuration == configuration && Abs() == WaveState(r, Run, false)
      ensures Launched(configuration, r) ==> Inv(configuration, Abs())
    {
      this.configuration := configuration;
      this.r := r;
      state := Run;
      isParked := false;
    }

    method GetPc() returns (pc: Address)
      ensures pc == ReadPc(Abs())
    {
      pc := if isParked then SavedPc(r) else r.pc;
    }

    method SetPc(pc: Address)
      modifies this`r
      ensures Abs() == WrittenPc(old(Abs()), pc)
    {
      if isParked {
        r := SavePc(r, Replace(SavedPc(r), pc));
      } else {
        r := WithPc(r, pc);
      }
    }

    method Park()
      requires state.Stop? && !isParked
      modifies this`r, this`isParked
      ensures isParked && Abs() == Parked(configuration.(parks := true), old(Abs()))
    {
      var pc := GetPc();
      r := SavePc(r, pc);
      SetPc(configuration.parkAddress);
      isParked := true;
    }

    method Unpark()
      requires !state.Stop?
      modifies this`r, this`isParked
      ensures !isParked && Abs() == Unparked(configuration.(parks := true), old(Abs()))
    {
      var pc := GetPc();
      isParked := false;
      SetPc(pc);
    }

    /** Stops or resumes the wave. */
    method SetState(command: Command)
      requires Inv(configuration, Abs()) && Allowed(configuration, Abs(), Step.Command(command))
      modifies this
      ensures Abs() == StateSet(configuration, old(Abs()), command)
    {
      if command == state { return; }
      WriteState(command);
      state := command;
      if configuration.parks {
        if command.Stop? {
          Park();
        } else {
          Unpark();
        }
      }
    }

    /** Moves the halt bit between the status register and its saved copy. */
    method WriteState(command: Command)
      modifies this`r
      ensures r == Commanded(configuration, old(r), command)
    {
      var status, mode, ttmp6 := r.status, r.mode, r.ttmp6;
      if command.Stop? {
        ttmp6 := ttmp6[SAVED_HALT := status[HALT]][STOPPED := true];
        status := status[HALT := true];
        if !configuration.ttmpsInitialized { status := status[SKIP_EXPORT := true]; }
      } else {
        status := status[SKIP_EXPORT := false][HALT := ttmp6[SAVED_HALT]];
        ttmp6 := ttmp6[STOPPED := false][SAVED_HALT := false];
        mode := mode[DEBUG_ENABLE := command.SingleStep?];
      }
      r := r.(status := status, mode := mode, ttmp6 := ttmp6);
    }

    method ClientSetHalt(halt: bool)
      modifies this`r
      ensures Abs() == old(Abs()).(r := SetHalt(old(r), halt))
    {
      if r.ttmp6[STOPPED] {
        r := r.(ttmp6 := r.ttmp6[SAVED_HALT := halt]);
      } else {
        r := r.(status := r.status[HALT := halt]);
      }
    }

    /** Enters the trap handler in the wave's place, after an instruction was simulated. */
    method SimulateTrapHandler(pc: Address, trap: bv8)
      requires !isParked
      modifies this`r
      ensures Abs() == old(Abs()).(r := Trapped(configuration, old(r), pc, trap))
    {
      var status, ttmp6 := r.status, r.ttmp6;
      ttmp6 := ttmp6[..25] + Low4(trap) + [status[HALT], true] + ttmp6[31..];
      r := r.(ttmp6 := ttmp6);
      var next := pc;
      if configuration.parks {
        r := SavePc(r, pc);
        next := configuration.parkAddress;
      }
      SetPc(next);
      r := r.(status := status[HALT := true]);
    }

    /** Examines the registers saved by the hardware. */
    method Update()
      requires Inv(configuration, Abs())
      modifies this
      ensures Abs() == Observed(configuration, old(Abs()))
    {
      if !state.Stop? && r.ttmp6[STOPPED] {
        if configuration.parks { SetPc(SavedPc(r)); }
        state := Stop;
        if configuration.parks { Park(); }
      }
    }
  }
}
