/** Where the registers of a wave lie in its context save record. A record is carved downward
    from its end: local data (first wave of a group only), trap temporaries, hardware
    registers, scalar registers, accumulation or shared vector registers, vector registers. */
module RegisterLayout {
  import opened Wrappers
  import opened FlatMemory

  datatype Family = Gfx9 | Gfx908 | Gfx90a | Gfx10

  datatype Register =
    | V64(n: nat) | A64(n: nat) | V32(n: nat) | S(n: nat) | Shadow(n: nat) | HwReg(n: nat) | Ttmp(n: nat)
    | Lds0 | M0 | Pc | Status | Mode | Trapsts | Exec32 | Exec64 | Vcc32 | Vcc64 | Xnack32 | Xnack64
    | FlatScratch | FlatScratchLo | FlatScratchHi | ExecLo | ExecHi | VccLo | VccHi | XnackLo | XnackHi

  predicate IsNumber(r: Register) {
    match r
    case V64(n) => n < 256
    case A64(n) => n < 256
    case V32(n) => n < 256
    case S(n) => n < 128
    case Shadow(n) => n < 128
    case HwReg(n) => n < 16
    case Ttmp(n) => n < 16
    case _ => true
  }

  /** The size of a record: lanes, register counts and bytes of local data. */
  datatype Shape = Shape(wave32: bool, vgprs: nat, accs: nat, shared: nat, sgprs: nat, firstWave: bool, lds: nat)

  /** The shape announced by the wave and state words of the control stack, each count and flag a
      bit field: a division by the weight of its lowest bit, then a remainder. */
  function ShapeOf(f: Family, wave: nat, state: nat): Shape
    requires StateOk(f, state)
  {
    var blocks := state % 64 + 1;
    var sgprs := (state / 0x40 % 8 + 1) * 16 - 16;
    match f
    case Gfx9 =>
      Shape(false, blocks * 4, 0, 0, sgprs, wave / 0x2_0000 % 2 == 1, state / 0x200 % 0x200 * 512)
    case Gfx908 =>
      Shape(false, blocks * 4, blocks * 4, 0, sgprs, wave / 0x2_0000 % 2 == 1, state / 0x200 % 0x200 * 512)
    case Gfx90a =>
      var vgprs := (state / 0x100_0000 % 64 + 1) * 4;
      Shape(false, vgprs, blocks * 8 - vgprs, 0, sgprs, wave / 0x2_0000 % 2 == 1,
        state / 0x200 % 0x100 * 512)
    case Gfx10 =>
      var wave32 := state / 0x100_0000 % 2 == 1;
      Shape(wave32, if wave32 then blocks * 8 else blocks * 4, 0, state / 0x400_0000 % 16 * 8, 128,
        wave / 0x1000 % 2 == 1, state / 0x400 % 0x100 * 512)
  }

  /** Scalar registers are saved if there are accumulation registers to be found above them, and
      the accumulation registers of gfx90a do not start past the end of the allocation. */
  predicate StateOk(f: Family, state: nat) {
    && (f.Gfx9? || f.Gfx10? || state / 0x40 % 8 >= 1)
    && (f.Gfx90a? ==> (state / 0x100_0000 % 64 + 1) * 4 <= (state % 64 + 1) * 8)
  }

  predicate ValidShape(f: Family, sh: Shape) {
    && sh.vgprs > 0 && (sh.sgprs >= 16 || (f.Gfx9? && sh.sgprs == 0))
    && match f
       case Gfx9 => !sh.wave32 && sh.accs == 0 && sh.shared == 0
       case Gfx10 => sh.accs == 0 && sh.sgprs == 128
       case _ => !sh.wave32 && sh.shared == 0
  }

  lemma WordsGiveValidShape(f: Family, wave: nat, state: nat)
    requires StateOk(f, state)
    ensures ValidShape(f, ShapeOf(f, wave, state))
  {
  }

  /** The fields of a state word of gfx9 and gfx908, put together, are read back as the shape. */
  lemma Gfx9Fields(f: Family, wave: nat, vectors: nat, scalars: nat, lds: nat, rest: nat)
    requires (f.Gfx9? || f.Gfx908?) && vectors < 64 && scalars < 8 && lds < 512 && (f.Gfx908? ==> scalars > 0)
    ensures var state := vectors + 0x40 * scalars + 0x200 * lds + 0x4_0000 * rest;
      && StateOk(f, state)
      && var sh := ShapeOf(f, wave, state);
         && !sh.wave32 && sh.vgprs == 4 * (vectors + 1) && sh.accs == (if f.Gfx908? then 4 * (vectors + 1) else 0)
         && sh.shared == 0 && sh.sgprs == 16 * scalars && sh.lds == 512 * lds
  {
    var state := vectors + 0x40 * scalars + 0x200 * lds + 0x4_0000 * rest;
    Field(state, vectors, 0x40, scalars, 8, lds + 0x200 * rest);
    Field(state, vectors + 0x40 * scalars, 0x200, lds, 0x200, rest);
  }

  lemma Gfx90aFields(wave: nat, state: nat, vectors: nat, scalars: nat, lds: nat, mid: nat, offset: nat, rest: nat)
    requires vectors < 64 && 0 < scalars < 8 && lds < 256 && mid < 128 && offset < 64 && 4 * (offset + 1) <= 8 * (vectors + 1)
    requires state == vectors + 0x40 * scalars + 0x200 * lds + 0x2_0000 * mid + 0x100_0000 * offset + 0x4000_0000 * rest
    ensures StateOk(Gfx90a, state)
    ensures var sh := ShapeOf(Gfx90a, wave, state);
      && !sh.wave32 && sh.vgprs == 4 * (offset + 1) && sh.vgprs + sh.accs == 8 * (vectors + 1)
      && sh.shared == 0 && sh.sgprs == 16 * scalars && sh.lds == 512 * lds
  {
    Field(state, 0, 1, vectors, 0x40, scalars + 8 * lds + 0x800 * mid + 0x4_0000 * offset + 0x100_0000 * rest);
    Field(state, vectors, 0x40, scalars, 8, lds + 0x100 * mid + 0x8000 * offset + 0x20_0000 * rest);
    Field(state, vectors + 0x40 * scalars, 0x200, lds, 0x100, mid + 0x80 * offset + 0x2000 * rest);
    Field(state, vectors + 0x40 * scalars + 0x200 * lds + 0x2_0000 * mid, 0x100_0000, offset, 64, rest);
    Gfx90aShape(wave, state, vectors, scalars, lds, offset);
  }

  lemma Gfx90aShape(wave: nat, state: nat, vectors: nat, scalars: nat, lds: nat, offset: nat)
    requires state / 1 % 0x40 == vectors && state / 0x40 % 8 == scalars && state / 0x200 % 0x100 == lds
    requires state / 0x100_0000 % 64 == offset && scalars > 0 && 4 * (offset + 1) <= 8 * (vectors + 1)
    ensures StateOk(Gfx90a, state)
    ensures var sh := ShapeOf(Gfx90a, wave, state);
      && !sh.wave32 && sh.vgprs == 4 * (offset + 1) && sh.vgprs + sh.accs == 8 * (vectors + 1)
      && sh.shared == 0 && sh.sgprs == 16 * scalars && sh.lds == 512 * lds
  {
  }

  lemma Gfx10Fields(wave: nat, state: nat, vectors: nat, low: nat, lds: nat, mid: nat, wave32: nat, high: nat, shared: nat, rest: nat)
    requires vectors < 64 && low < 16 && lds < 256 && mid < 64 && wave32 < 2 && high < 2 && shared < 16
    requires state == vectors + 0x40 * low + 0x400 * lds + 0x4_0000 * mid + 0x100_0000 * wave32 + 0x200_0000 * high
                      + 0x400_0000 * shared + 0x4000_0000 * rest
    ensures StateOk(Gfx10, state)
    ensures var sh := ShapeOf(Gfx10, wave, state);
      && sh.wave32 == (wave32 == 1) && sh.vgprs == (4 + 4 * wave32) * (vectors + 1) && sh.accs == 0
      && sh.shared == 8 * shared && sh.sgprs == 128 && sh.lds == 512 * lds
  {
    var below := vectors + 0x40 * low + 0x400 * lds + 0x4_0000 * mid;
    var above := wave32 + 2 * high + 4 * shared + 0x40 * rest;
    Field(state, 0, 1, vectors, 0x40, low + 0x10 * lds + 0x1000 * mid + 0x4_0000 * above);
    Field(state, vectors + 0x40 * low, 0x400, lds, 0x100, mid + 0x40 * above);
    Field(state, below, 0x100_0000, wave32, 2, high + 2 * shared + 0x20 * rest);
    Field(state, below + 0x100_0000 * wave32 + 0x200_0000 * high, 0x400_0000, shared, 16, rest);
    Gfx10Shape(wave, state, vectors, lds, wave32, shared);
  }

  lemma Gfx10Shape(wave: nat, state: nat, vectors: nat, lds: nat, wave32: nat, shared: nat)
    requires state / 1 % 0x40 == vectors && state / 0x400 % 0x100 == lds && state / 0x100_0000 % 2 == wave32
    requires state / 0x400_0000 % 16 == shared
    ensures var sh := ShapeOf(Gfx10, wave, state);
      && sh.wave32 == (wave32 == 1) && sh.vgprs == (4 + 4 * wave32) * (vectors + 1) && sh.accs == 0
      && sh.shared == 8 * shared && sh.sgprs == 128 && sh.lds == 512 * lds
  {
  }

  /** One bit of a wave word marks the first wave of a group. */
  lemma FirstWaveField(f: Family, wave: nat, state: nat, low: nat, first: nat, high: nat)
    requires StateOk(f, state) && first < 2 && low < if f.Gfx10? then 0x1000 else 0x2_0000
    requires wave == low + (first + 2 * high) * if f.Gfx10? then 0x1000 else 0x2_0000
    ensures ShapeOf(f, wave, state).firstWave <==> first == 1
  {
    if f.Gfx10? { Field(wave, low, 0x1000, first, 2, high); } else { Field(wave, low, 0x2_0000, first, 2, high); }
  }

  /** A field of `width` values at the place of value `weight`. */
  lemma Field(x: nat, low: nat, weight: nat, value: nat, width: nat, high: nat)
    requires low < weight && value < width && x == low + (value + high * width) * weight
    ensures x / weight % width == value
  {
    DivModUnique(x, weight, value + high * width, low);
    DivModUnique(value + high * width, width, high, value);
  }

  function ScalarCount(f: Family): nat { if f.Gfx10? then 106 else 102 }

  function AliasCount(f: Family): nat { if f.Gfx10? then 2 else 6 }

  /** One past the last scalar register saved, counting the aliased ones at the end. */
  function ScalarEnd(f: Family, sh: Shape): nat {
    if ScalarCount(f) + AliasCount(f) <= sh.sgprs then ScalarCount(f) + AliasCount(f) else sh.sgprs
  }

  // ----- the blocks of a record -----

  datatype Block = Vectors | Accumulators | SharedVectors | Scalars | Hardware | TrapTemps | LocalData

  /** The bytes taken by `n` units of a block. */
  function UnitsBytes(sh: Shape, b: Block, n: nat): nat {
    match b
    case Vectors => if sh.wave32 then n * 128 else n * 256
    case Accumulators => n * 256
    case SharedVectors => n * 128
    case LocalData => n
    case _ => n * 4
  }

  function UnitCount(sh: Shape, b: Block): nat {
    match b
    case Vectors => sh.vgprs
    case Accumulators => sh.accs
    case SharedVectors => sh.shared
    case Scalars => sh.sgprs
    case Hardware => 16
    case TrapTemps => 16
    case LocalData => if sh.firstWave then sh.lds else 0
  }

  function BlockBytes(sh: Shape, b: Block): nat {
    UnitsBytes(sh, b, UnitCount(sh, b))
  }

  /** How far a block's first byte lies from the first byte of the record. */
  function BlockStart(sh: Shape, b: Block): nat {
    var accs := BlockBytes(sh, Vectors);
    var shared := accs + BlockBytes(sh, Accumulators);
    var scalars := shared + BlockBytes(sh, SharedVectors);
    var hardware := scalars + BlockBytes(sh, Scalars);
    match b
    case Vectors => 0
    case Accumulators => accs
    case SharedVectors => shared
    case Scalars => scalars
    case Hardware => hardware
    case TrapTemps => hardware + 64
    case LocalData => hardware + 128
  }

  function RecordBytes(sh: Shape): nat {
    BlockStart(sh, LocalData) + BlockBytes(sh, LocalData)
  }

  /** `count` consecutive units of a block. */
  datatype Span = Span(block: Block, index: nat, count: nat)

  predicate Fits(sh: Shape, s: Span) {
    s.index + s.count <= UnitCount(sh, s.block)
  }

  function SpanStart(sh: Shape, s: Span): nat {
    BlockStart(sh, s.block) + UnitsBytes(sh, s.block, s.index)
  }

  function SpanBytes(sh: Shape, s: Span): nat {
    UnitsBytes(sh, s.block, s.count)
  }

  predicate Share(s: Span, t: Span) {
    s.block == t.block && s.index < t.index + t.count && t.index < s.index + s.count
  }

  /** `count` of the last scalar registers, if any are saved. */
  function FromEnd(end: nat, back: nat, count: nat): Option<Span> {
    if back <= end then Some(Span(Scalars, end - back, count)) else None
  }

  /** The table of registers: which units of which block each one occupies, if it is saved. */
  function Place(f: Family, sh: Shape, r: Register): Option<Span>
    requires ValidShape(f, sh)
  {
    var e, alias := ScalarEnd(f, sh), AliasCount(f);
    match r
    case V64(n) => if !sh.wave32 && n < sh.vgprs then Some(Span(Vectors, n, 1)) else None
    case A64(n) => if n < sh.accs then Some(Span(Accumulators, n, 1)) else None
    case V32(n) =>
      if sh.vgprs <= n < sh.vgprs + sh.shared then Some(Span(SharedVectors, n - sh.vgprs, 1))
      else if sh.wave32 && n < sh.vgprs then Some(Span(Vectors, n, 1))
      else None
    case S(n) =>
      if n < e - alias then Some(Span(Scalars, n, 1))
      else if e == 0 && (n == 124 || n == 125) then Some(Span(Hardware, n - 117, 1))
      else None
    case Shadow(n) =>
      if !(e - alias <= n < e) then None
      else if !f.Gfx10? && (n == e - 4 || n == e - 3) then Some(Span(Hardware, n + 11 - e, 1))
      else Some(Span(Scalars, n, 1))
    case HwReg(n) => Some(Span(Hardware, n, 1))
    case Ttmp(n) => Some(Span(TrapTemps, n, 1))
    case Lds0 => if sh.firstWave then Some(Span(LocalData, 0, sh.lds)) else None
    case M0 => Some(Span(Hardware, 0, 1))
    case Pc => Some(Span(Hardware, 1, 2))
    case ExecLo => Some(Span(Hardware, 3, 1))
    case ExecHi => Some(Span(Hardware, 4, 1))
    case Exec32 => if sh.wave32 then Some(Span(Hardware, 3, 1)) else None
    case Exec64 => if !sh.wave32 then Some(Span(Hardware, 3, 2)) else None
    case Status => Some(Span(Hardware, 5, 1))
    case Trapsts => Some(Span(Hardware, 6, 1))
    case XnackLo => Some(Span(Hardware, 7, 1))
    case Xnack32 => if sh.wave32 then Some(Span(Hardware, 7, 1)) else None
    case XnackHi => if f.Gfx10? then None else Some(Span(Hardware, 8, 1))
    case Xnack64 => if f.Gfx10? then None else Some(Span(Hardware, 7, 2))
    case Mode => Some(Span(Hardware, if f.Gfx10? then 8 else 9, 1))
    case FlatScratch => if f.Gfx10? then Some(Span(Hardware, 9, 2)) else FromEnd(e, 6, 2)
    case FlatScratchLo => FromEnd(e, 6, 1)
    case FlatScratchHi => FromEnd(e, 5, 1)
    case VccLo => FromEnd(e, 2, 1)
    case VccHi => FromEnd(e, 1, 1)
    case Vcc32 => if sh.wave32 then FromEnd(e, 2, 1) else None
    case Vcc64 => if !sh.wave32 then FromEnd(e, 2, 2) else None
  }

  function RegisterBytes(sh: Shape, r: Register): nat {
    match r
    case V64(_) => 256
    case A64(_) => 256
    case V32(_) => 128
    case Pc => 8
    case Exec64 => 8
    case Vcc64 => 8
    case Xnack64 => 8
    case FlatScratch => 8
    case Lds0 => sh.lds
    case _ => 4
  }

  // ----- the address computation -----

  function RenamedHardware(r: Register): Register {
    match r
    case M0 => HwReg(0)
    case Pc => HwReg(1)
    case ExecLo => HwReg(3)
    case Exec64 => HwReg(3)
    case ExecHi => HwReg(4)
    case Status => HwReg(5)
    case Trapsts => HwReg(6)
    case XnackLo => HwReg(7)
    case Xnack64 => HwReg(7)
    case XnackHi => HwReg(8)
    case Mode => HwReg(9)
    case _ => r
  }

  /** Register numbers counted from the first scalar register; the shadow registers follow 128
      scalar ones. Names of the last scalar registers become their numbers. */
  function ScalarNumber(r: Register, end: nat): Option<int> {
    match r
    case S(n) => Some(n)
    case Shadow(n) => Some(128 + n)
    case Vcc64 => Some(end - 2)
    case VccLo => Some(end - 2)
    case VccHi => Some(end - 1)
    case FlatScratch => Some(end - 6)
    case FlatScratchLo => Some(end - 6)
    case FlatScratchHi => Some(end - 5)
    case _ => None
  }

  /** The common computation of all families, from the end of the record downward. */
  function BaseAddress(f: Family, sh: Shape, end: int, r: Register): Option<int>
    requires ValidShape(f, sh)
  {
    var area := if sh.firstWave then end - sh.lds else end;
    var ttmps := area - 16 * 4;
    var hwregs := ttmps - 16 * 4;
    var r1 := RenamedHardware(r);
    if sh.firstWave && r.Lds0? then Some(area)
    else if r.Ttmp? then Some(ttmps + r.n * 4)
    else if r1.HwReg? then Some(hwregs + r1.n * 4)
    else ScalarOrVector(f, sh, hwregs, r1)
  }

  function ScalarOrVector(f: Family, sh: Shape, hwregs: int, r: Register): Option<int>
    requires ValidShape(f, sh)
  {
    var e := ScalarEnd(f, sh);
    if r.S? && e - AliasCount(f) <= r.n < e then None
    else
      match ScalarNumber(r, e)
      case Some(n) => ScalarAddress(f, sh, hwregs, n, e)
      case None =>
        var vgprs := hwregs - sh.sgprs * 4 - sh.vgprs * 256;
        if r.V64? && r.n < sh.vgprs then Some(vgprs + r.n * 256) else None
  }

  function ScalarAddress(f: Family, sh: Shape, hwregs: int, n: int, e: nat): Option<int> {
    var shadow := 128 + e - AliasCount(f) <= n < 128 + e;
    if shadow && (n == 128 + e - 4 || n == 128 + e - 3) then Some(hwregs + (11 - (128 + e - n)) * 4)
    else
      var n' := if shadow then n - 128 else n;
      if 0 <= n' < e then Some(hwregs - sh.sgprs * 4 + n' * 4) else None
  }

  predicate IsVector(r: Register) { r.V64? || r.A64? || r.V32? }

  function MiAddress(f: Family, sh: Shape, end: int, r: Register): Option<int>
    requires ValidShape(f, sh) && BaseAddress(f, sh, end, S(0)).Some?
  {
    if !IsVector(r) then BaseAddress(f, sh, end, r)
    else
      var accs := BaseAddress(f, sh, end, S(0)).value - sh.accs * 256;
      var vgprs := accs - sh.vgprs * 256;
      if r.A64? && r.n < sh.accs then Some(accs + r.n * 256)
      else if r.V64? && r.n < sh.vgprs then Some(vgprs + r.n * 256)
      else None
  }

  function Gfx10Renamed(r: Register): Register {
    match r
    case Exec32 => HwReg(3)
    case Xnack32 => HwReg(7)
    case Mode => HwReg(8)
    case FlatScratch => HwReg(9)
    case Vcc32 => VccLo
    case _ => r
  }

  function Gfx10Address(f: Family, sh: Shape, end: int, r: Register): Option<int>
    requires ValidShape(f, sh) && BaseAddress(f, sh, end, S(0)).Some?
  {
    if (r.Exec32? || r.Xnack32? || r.Vcc32?) && !sh.wave32 then None
    else if (r.Exec64? || r.Vcc64?) && sh.wave32 then None
    else if r.XnackHi? || r.Xnack64? then None
    else if !IsVector(r) then BaseAddress(f, sh, end, Gfx10Renamed(r))
    else
      var shared := BaseAddress(f, sh, end, S(0)).value - sh.shared * 128;
      var vgprs := shared - UnitsBytes(sh, Vectors, sh.vgprs);
      if r.V32? && sh.vgprs <= r.n < sh.vgprs + sh.shared then Some(shared + (r.n - sh.vgprs) * 128)
      else if sh.wave32 && r.V32? && r.n < sh.vgprs then Some(vgprs + UnitsBytes(sh, Vectors, r.n))
      else if !sh.wave32 && r.V64? && r.n < sh.vgprs then Some(vgprs + UnitsBytes(sh, Vectors, r.n))
      else None
  }

  lemma FirstScalarSaved(f: Family, sh: Shape, end: int)
    requires ValidShape(f, sh) && !f.Gfx9?
    ensures BaseAddress(f, sh, end, S(0)).Some?
  {
  }

  /** The address at which a register is saved in a record that ends at `end`. */
  function Address(f: Family, sh: Shape, end: int, r: Register): Option<int>
    requires ValidShape(f, sh)
  {
    if f.Gfx9? then BaseAddress(f, sh, end, r)
    else
      FirstScalarSaved(f, sh, end);
      if f.Gfx10? then Gfx10Address(f, sh, end, r) else MiAddress(f, sh, end, r)
  }

  /** The first byte of a record is the first vector register. */
  function Begin(f: Family, sh: Shape, end: int): Option<int>
    requires ValidShape(f, sh)
  {
    Address(f, sh, end, if sh.wave32 then V32(0) else V64(0))
  }

  // ----- the computation agrees with the table -----

  /** The blocks follow one another down from the end of the record. */
  lemma BlocksDescend(sh: Shape, end: int)
    ensures var at := (b: Block) => end - RecordBytes(sh) + BlockStart(sh, b);
      && at(LocalData) == (if sh.firstWave then end - sh.lds else end)
      && at(TrapTemps) == at(LocalData) - 64
      && at(Hardware) == at(TrapTemps) - 64
      && at(Scalars) == at(Hardware) - sh.sgprs * 4
      && at(SharedVectors) == at(Scalars) - sh.shared * 128
      && at(Accumulators) == at(SharedVectors) - sh.accs * 256
      && at(Vectors) == at(Accumulators) - UnitsBytes(sh, Vectors, sh.vgprs)
  {
  }

  ghost predicate Placed(f: Family, sh: Shape, end: int, r: Register, a: Option<int>)
    requires ValidShape(f, sh)
  {
    var p := Place(f, sh, r);
    && (a.Some? <==> p.Some?)
    && (p.Some? ==>
          && Fits(sh, p.value) && SpanBytes(sh, p.value) == RegisterBytes(sh, r)
          && a.value == end - RecordBytes(sh) + SpanStart(sh, p.value))
  }

  lemma BaseIsPlaced(f: Family, sh: Shape, end: int, r: Register)
    requires ValidShape(f, sh) && IsNumber(r) && !IsVector(r)
    requires f.Gfx10? ==> !(r.Mode? || r.FlatScratch? || r.XnackHi? || r.Xnack64?)
    requires sh.wave32 ==> !(r.Exec64? || r.Vcc64? || r.Exec32? || r.Xnack32? || r.Vcc32?)
    ensures Placed(f, sh, end, r, BaseAddress(f, sh, end, r))
  {
    if IsScalar(r) {
      ScalarsBelowHardware(f, sh, end, r);
      if r.S? || r.Shadow? {
        ScalarPlaced(f, sh, end, r);
      } else {
        AliasPlaced(f, sh, end, r);
      }
    } else {
      HardwarePlaced(f, sh, end, r);
    }
  }

  predicate IsScalar(r: Register) {
    r.S? || r.Shadow? || r.FlatScratch? || r.FlatScratchLo? || r.FlatScratchHi? || r.VccLo? || r.VccHi? || r.Vcc64?
  }

  lemma HardwarePlaced(f: Family, sh: Shape, end: int, r: Register)
    requires ValidShape(f, sh) && IsNumber(r) && !IsVector(r) && !IsScalar(r)
    requires f.Gfx10? ==> !(r.Mode? || r.XnackHi? || r.Xnack64?)
    requires sh.wave32 ==> !(r.Exec64? || r.Exec32? || r.Xnack32? || r.Vcc32?)
    ensures Placed(f, sh, end, r, BaseAddress(f, sh, end, r))
  {
    if RenamedHardware(r).HwReg? {
      HardwareAddress(f, sh, end, r);
    } else {
      BlocksDescend(sh, end);
    }
  }

  lemma HardwareAddress(f: Family, sh: Shape, end: int, r: Register)
    requires ValidShape(f, sh) && IsNumber(r) && RenamedHardware(r).HwReg?
    requires f.Gfx10? ==> !(r.Mode? || r.XnackHi? || r.Xnack64?)
    requires sh.wave32 ==> !r.Exec64?
    ensures Placed(f, sh, end, r, BaseAddress(f, sh, end, r))
  {
    var n := RenamedHardware(r).n;
    HardwareTable(f, sh, r);
    BlocksDescend(sh, end);
    assert BaseAddress(f, sh, end, r) == Some(HardwareAt(sh, end) + n * 4);
  }

  lemma HardwareTable(f: Family, sh: Shape, r: Register)
    requires ValidShape(f, sh) && IsNumber(r) && RenamedHardware(r).HwReg?
    requires f.Gfx10? ==> !(r.Mode? || r.XnackHi? || r.Xnack64?)
    requires sh.wave32 ==> !r.Exec64?
    ensures RegisterBytes(sh, r) == 4 || RegisterBytes(sh, r) == 8
    ensures Place(f, sh, r) == Some(Span(Hardware, RenamedHardware(r).n, RegisterBytes(sh, r) / 4))
    ensures RenamedHardware(r).n + RegisterBytes(sh, r) / 4 <= 16
  {
  }

  function HardwareAt(sh: Shape, end: int): int {
    end - RecordBytes(sh) + BlockStart(sh, Hardware)
  }

  lemma ScalarsBelowHardware(f: Family, sh: Shape, end: int, r: Register)
    requires ValidShape(f, sh) && IsScalar(r)
    ensures BaseAddress(f, sh, end, r) == ScalarOrVector(f, sh, HardwareAt(sh, end), r)
  {
    BlocksDescend(sh, end);
    assert RenamedHardware(r) == r;
  }

  lemma ScalarPlaced(f: Family, sh: Shape, end: int, r: Register)
    requires ValidShape(f, sh) && IsNumber(r) && (r.S? || r.Shadow?)
    ensures Placed(f, sh, end, r, ScalarOrVector(f, sh, HardwareAt(sh, end), r))
  {
    NumberedScalar(f, sh, HardwareAt(sh, end), r);
    BlocksDescend(sh, end);
  }

  lemma NumberedScalar(f: Family, sh: Shape, hwregs: int, r: Register)
    requires ValidShape(f, sh) && IsNumber(r) && (r.S? || r.Shadow?)
    ensures var a, p := ScalarOrVector(f, sh, hwregs, r), Place(f, sh, r);
      && (a.Some? <==> p.Some?)
      && (p.Some? ==>
            && p.value.count == 1 && Fits(sh, p.value)
            && (p.value.block.Scalars? || p.value.block.Hardware?)
            && a.value == (if p.value.block.Scalars? then hwregs - sh.sgprs * 4 else hwregs) + p.value.index * 4)
  {
  }

  lemma AliasPlaced(f: Family, sh: Shape, end: int, r: Register)
    requires ValidShape(f, sh) && IsScalar(r) && !(r.S? || r.Shadow?)
    requires !(f.Gfx10? && r.FlatScratch?) && !(sh.wave32 && r.Vcc64?)
    ensures Placed(f, sh, end, r, ScalarOrVector(f, sh, HardwareAt(sh, end), r))
  {
    AliasAddress(f, sh, HardwareAt(sh, end), r);
    BlocksDescend(sh, end);
  }

  lemma AliasAddress(f: Family, sh: Shape, hwregs: int, r: Register)
    requires ValidShape(f, sh) && IsScalar(r) && !(r.S? || r.Shadow?)
    requires !(f.Gfx10? && r.FlatScratch?) && !(sh.wave32 && r.Vcc64?)
    ensures var e, a, p := ScalarEnd(f, sh), ScalarOrVector(f, sh, hwregs, r), Place(f, sh, r);
      && (a.Some? <==> e > 0) && (p.Some? <==> e > 0)
      && (e > 0 ==>
            && ScalarNumber(r, e).Some? && 0 <= ScalarNumber(r, e).value
            && a == Some(hwregs - sh.sgprs * 4 + ScalarNumber(r, e).value * 4)
            && p == Some(Span(Scalars, ScalarNumber(r, e).value, RegisterBytes(sh, r) / 4))
            && Fits(sh, p.value))
  {
  }

  lemma FirstScalarPlaced(f: Family, sh: Shape, end: int)
    requires ValidShape(f, sh) && !f.Gfx9?
    ensures BaseAddress(f, sh, end, S(0)) == Some(end - RecordBytes(sh) + BlockStart(sh, Scalars))
  {
    BlocksDescend(sh, end);
  }

  lemma VectorPlaced(f: Family, sh: Shape, end: int, r: Register)
    requires ValidShape(f, sh) && IsNumber(r) && IsVector(r)
    ensures Placed(f, sh, end, r, Address(f, sh, end, r))
  {
    if f.Gfx10? {
      Gfx10VectorPlaced(sh, end, r);
    } else {
      if !f.Gfx9? { FirstScalarPlaced(f, sh, end); }
      BlocksDescend(sh, end);
    }
  }

  lemma Gfx10VectorPlaced(sh: Shape, end: int, r: Register)
    requires ValidShape(Gfx10, sh) && IsNumber(r) && IsVector(r)
    ensures Placed(Gfx10, sh, end, r, Address(Gfx10, sh, end, r))
  {
    FirstScalarPlaced(Gfx10, sh, end);
    BlocksDescend(sh, end);
  }

  lemma Gfx10Placed(sh: Shape, end: int, r: Register)
    requires ValidShape(Gfx10, sh) && IsNumber(r) && !IsVector(r)
    ensures Placed(Gfx10, sh, end, r, Address(Gfx10, sh, end, r))
  {
    BlocksDescend(sh, end);
    var r' := Gfx10Renamed(r);
    if !(r.XnackHi? || r.Xnack64?) && !(sh.wave32 && (r.Exec64? || r.Vcc64?))
       && !(!sh.wave32 && (r.Exec32? || r.Xnack32? || r.Vcc32?)) {
      BaseIsPlaced(Gfx10, sh, end, r');
    }
  }

  /** Every register's address, and the number of bytes it takes there, is the one the table of
      blocks gives it, for every family and shape; what the table does not place has none. */
  lemma AddressIsPlace(f: Family, sh: Shape, end: int, r: Register)
    requires ValidShape(f, sh) && IsNumber(r)
    ensures Placed(f, sh, end, r, Address(f, sh, end, r))
  {
    if IsVector(r) {
      VectorPlaced(f, sh, end, r);
    } else if f.Gfx10? {
      Gfx10Placed(sh, end, r);
    } else {
      BaseIsPlaced(f, sh, end, r);
    }
  }

  // ----- the addresses, register by register -----

  /** Where the hardware registers of a record begin: below the local data and 16 trap temporaries,
      after 16 words of their own. */
  function HardwareStart(sh: Shape, end: int): int {
    end - (if sh.firstWave then sh.lds else 0) - 128
  }

  /** A register that the table puts in a block of words. */
  lemma WordAddress(f: Family, sh: Shape, end: int, r: Register, s: Span)
    requires ValidShape(f, sh) && IsNumber(r) && !IsVector(r) && Place(f, sh, r) == Some(s)
    requires s.block.Scalars? || s.block.Hardware? || s.block.TrapTemps?
    ensures Address(f, sh, end, r) == Some(WordBlock(sh, end, s.block) + 4 * s.index)
  {
    AddressIsPlace(f, sh, end, r);
    WordOfBlock(sh, end, s);
  }

  lemma WordOfBlock(sh: Shape, end: int, s: Span)
    requires s.block.Scalars? || s.block.Hardware? || s.block.TrapTemps?
    ensures end - RecordBytes(sh) + SpanStart(sh, s) == WordBlock(sh, end, s.block) + 4 * s.index
  {
    BlocksDescend(sh, end);
  }

  function WordBlock(sh: Shape, end: int, b: Block): int
    requires b.Scalars? || b.Hardware? || b.TrapTemps?
  {
    if b.Scalars? then HardwareStart(sh, end) - 4 * sh.sgprs
    else if b.Hardware? then HardwareStart(sh, end)
    else HardwareStart(sh, end) + 64
  }

  /** How many words after the first hardware register a hardware register or trap temporary comes. */
  function WordNumber(f: Family, r: Register): Option<nat> {
    match r
    case HwReg(n) => Some(n)
    case Ttmp(n) => Some(16 + n)
    case M0 => Some(0)
    case Pc => Some(1)
    case ExecLo => Some(3)
    case ExecHi => Some(4)
    case Status => Some(5)
    case Trapsts => Some(6)
    case XnackLo => Some(7)
    case Mode => Some(if f.Gfx10? then 8 else 9)
    case _ => None
  }

  /** Hardware registers and trap temporaries follow one another. */
  lemma HardwareOrder(f: Family, sh: Shape, end: int, r: Register)
    requires ValidShape(f, sh) && IsNumber(r) && WordNumber(f, r).Some?
    ensures Address(f, sh, end, r) == Some(HardwareStart(sh, end) + 4 * WordNumber(f, r).value)
  {
    WordAddress(f, sh, end, r, Place(f, sh, r).value);
  }

  lemma LocalDataOrder(f: Family, sh: Shape, end: int)
    requires ValidShape(f, sh)
    ensures Address(f, sh, end, Lds0) == if sh.firstWave then Some(HardwareStart(sh, end) + 128) else None
  {
    AddressIsPlace(f, sh, end, Lds0);
    BlocksDescend(sh, end);
  }

  /** One past the number of the last scalar register saved under a name of its own or another. */
  function LastSaved(sh: Shape): nat {
    if sh.sgprs < 108 then sh.sgprs else 108
  }

  /** The scalar registers end where the hardware registers begin. The last ones saved, two on gfx10
      and six elsewhere, are not found under their numbers. */
  lemma ScalarOrder(f: Family, sh: Shape, end: int, n: nat)
    requires ValidShape(f, sh) && sh.sgprs >= 16 && n < 124
    ensures Address(f, sh, end, S(n)) ==
      if n + (if f.Gfx10? then 2 else 6) < LastSaved(sh) then Some(HardwareStart(sh, end) - 4 * sh.sgprs + 4 * n) else None
  {
    if n + (if f.Gfx10? then 2 else 6) < LastSaved(sh) {
      WordAddress(f, sh, end, S(n), Span(Scalars, n, 1));
    } else {
      AddressIsPlace(f, sh, end, S(n));
    }
  }

  /** The last two of them are vcc and, where there are six, the first two flat_scratch. */
  lemma AliasOrder(f: Family, sh: Shape, end: int)
    requires ValidShape(f, sh) && sh.sgprs >= 16
    ensures var first, last := HardwareStart(sh, end) - 4 * sh.sgprs, LastSaved(sh);
      && Address(f, sh, end, VccLo) == Some(first + 4 * (last - 2))
      && Address(f, sh, end, VccHi) == Some(first + 4 * (last - 1))
      && (f.Gfx10? || Address(f, sh, end, FlatScratchLo) == Some(first + 4 * (last - 6)))
      && (f.Gfx10? || Address(f, sh, end, FlatScratchHi) == Some(first + 4 * (last - 5)))
  {
    WordAddress(f, sh, end, VccLo, Span(Scalars, LastSaved(sh) - 2, 1));
    WordAddress(f, sh, end, VccHi, Span(Scalars, LastSaved(sh) - 1, 1));
    if !f.Gfx10? {
      WordAddress(f, sh, end, FlatScratchLo, Span(Scalars, LastSaved(sh) - 6, 1));
      WordAddress(f, sh, end, FlatScratchHi, Span(Scalars, LastSaved(sh) - 5, 1));
    }
  }

  /** The vector registers come below them, and below those the record begins. */
  lemma VectorOrder(f: Family, sh: Shape, end: int, n: nat)
    requires ValidShape(f, sh) && n < 256
    ensures var scalars := HardwareStart(sh, end) - 4 * sh.sgprs;
      var accs, shared := scalars - 256 * sh.accs, scalars - 128 * sh.shared;
      && (!f.Gfx10? ==>
            && Address(f, sh, end, A64(n)) == (if n < sh.accs then Some(accs + 256 * n) else None)
            && Address(f, sh, end, V64(n)) == (if n < sh.vgprs then Some(accs - 256 * (sh.vgprs - n)) else None))
      && (f.Gfx10? && sh.wave32 && n < sh.vgprs ==> Address(f, sh, end, V32(n)) == Some(shared - 128 * (sh.vgprs - n)))
      && (f.Gfx10? && !sh.wave32 && n < sh.vgprs ==> Address(f, sh, end, V64(n)) == Some(shared - 256 * (sh.vgprs - n)))
      && (f.Gfx10? && sh.vgprs <= n < sh.vgprs + sh.shared ==>
            Address(f, sh, end, V32(n)) == Some(shared + 128 * (n - sh.vgprs)))
  {
  }

  // ----- registers do not overlap -----

  lemma BlocksAreDisjoint(sh: Shape, b: Block, c: Block)
    requires b != c
    ensures BlockStart(sh, b) + BlockBytes(sh, b) <= BlockStart(sh, c)
         || BlockStart(sh, c) + BlockBytes(sh, c) <= BlockStart(sh, b)
  {
  }

  lemma BlockInRecord(sh: Shape, b: Block)
    ensures BlockStart(sh, b) + BlockBytes(sh, b) <= RecordBytes(sh)
  {
  }

  lemma SpanInBlock(sh: Shape, s: Span)
    requires Fits(sh, s)
    ensures BlockStart(sh, s.block) <= SpanStart(sh, s)
    ensures SpanStart(sh, s) + SpanBytes(sh, s) <= BlockStart(sh, s.block) + BlockBytes(sh, s.block)
  {
  }

  predicate RangesMeet(a: int, n: nat, b: int, m: nat) {
    a < b + m && b < a + n
  }

  /** Byte ranges meet exactly when the spans share a unit. */
  lemma SpansMeetExactly(sh: Shape, s: Span, t: Span)
    requires Fits(sh, s) && Fits(sh, t)
    ensures RangesMeet(SpanStart(sh, s), SpanBytes(sh, s), SpanStart(sh, t), SpanBytes(sh, t)) <==> Share(s, t)
  {
    if s.block != t.block {
      SpanInBlock(sh, s);
      SpanInBlock(sh, t);
      BlocksAreDisjoint(sh, s.block, t.block);
    }
  }

  /** Every register lies inside its record. */
  lemma RegistersInside(f: Family, sh: Shape, end: int, r: Register)
    requires ValidShape(f, sh) && IsNumber(r) && Address(f, sh, end, r).Some?
    ensures Begin(f, sh, end) == Some(end - RecordBytes(sh))
    ensures Begin(f, sh, end).value <= Address(f, sh, end, r).value
    ensures Address(f, sh, end, r).value + RegisterBytes(sh, r) <= end
  {
    AddressIsPlace(f, sh, end, if sh.wave32 then V32(0) else V64(0));
    AddressIsPlace(f, sh, end, r);
    var s := Place(f, sh, r).value;
    SpanInBlock(sh, s);
    BlockInRecord(sh, s.block);
  }

  /** Two registers overlap if and only if the table gives them a common unit, that is, if and
      only if they are aliases: in every record of every family, at every address. */
  lemma RegistersOverlapExactly(f: Family, sh: Shape, end: int, r: Register, r': Register)
    requires ValidShape(f, sh) && IsNumber(r) && IsNumber(r')
    requires Address(f, sh, end, r).Some? && Address(f, sh, end, r').Some?
    ensures Place(f, sh, r).Some? && Place(f, sh, r').Some?
    ensures RangesMeet(Address(f, sh, end, r).value, RegisterBytes(sh, r),
                       Address(f, sh, end, r').value, RegisterBytes(sh, r'))
      <==> Share(Place(f, sh, r).value, Place(f, sh, r').value)
  {
    AddressIsPlace(f, sh, end, r);
    AddressIsPlace(f, sh, end, r');
    SpansMeetExactly(sh, Place(f, sh, r).value, Place(f, sh, r').value);
  }

  /** Writing one register leaves the bytes of every register that is not an alias of it. */
  lemma WriteKeepsOthers(f: Family, sh: Shape, end: nat, m: Bytes, r: Register, r': Register, data: Bytes)
    requires ValidShape(f, sh) && IsNumber(r) && IsNumber(r') && RecordBytes(sh) <= end <= |m|
    requires Address(f, sh, end, r).Some? && Address(f, sh, end, r').Some? && |data| == RegisterBytes(sh, r)
    requires Place(f, sh, r).Some? && Place(f, sh, r').Some?
    requires !Share(Place(f, sh, r).value, Place(f, sh, r').value)
    ensures var a, b := Address(f, sh, end, r).value, Address(f, sh, end, r').value;
      && 0 <= a && a + |data| <= |m| && 0 <= b && b + RegisterBytes(sh, r') <= |m|
      && Patch(m, a, data)[a..a + |data|] == data
      && Patch(m, a, data)[b..b + RegisterBytes(sh, r')] == m[b..b + RegisterBytes(sh, r')]
  {
    RegistersInside(f, sh, end, r);
    RegistersInside(f, sh, end, r');
    RegistersOverlapExactly(f, sh, end, r, r');
  }
}
