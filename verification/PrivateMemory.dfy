/** Address spaces and the conversions between them. Private memory is a slot of global scratch
    memory for each wave, in which the lanes' words alternate. */
module PrivateMemory {
  import opened FlatMemory

  datatype Space = Global | Local | Swizzled | Unswizzled | Generic

  datatype Error = InvalidConversion | InvalidLane

  datatype Result<T> = Ok(value: T) | Err(error: Error)

  /** An address and the number of bytes that are contiguous in both spaces from there on. */
  datatype Range = Range(address: nat, contiguous: nat)

  datatype Wave = Wave(laneCount: nat, scratchBase: nat, scratchSize: nat)

  const APERTURE: nat := 0x1_0000_0000_0000
  const SEGMENT: nat := 0x1_0000_0000

  /** Scratch slots are multiples of 256 bytes, below 8 MB, and lie inside the address space. */
  ghost predicate ValidWave(w: Wave) {
    && (w.laneCount == 32 || w.laneCount == 64)
    && w.scratchSize % 256 == 0 && w.scratchSize < 0x80_0000
    && 0 < w.scratchBase && w.scratchBase + w.scratchSize <= ADDRESS_SPACE
  }

  function SpaceSize(s: Space): nat {
    if s.Global? || s.Generic? then ADDRESS_SPACE else SEGMENT
  }

  function Null(s: Space): nat {
    if s.Global? || s.Generic? then 0 else 0xFFFF_FFFF
  }

  /** The base space and address a generic address stands for: one aperture for local, one for
      private memory, and global memory for everything else. */
  function Lower(s: Space, a: nat): (r: (Space, nat))
    requires a < ADDRESS_SPACE
    ensures !r.0.Generic? && r.1 < SpaceSize(r.0)
  {
    match s
    case Global => (Global, a)
    case Generic =>
      if a / 0x1_0000_0000_0000 == 1 then (Local, a % 0x1_0000_0000)
      else if a / 0x1_0000_0000_0000 == 2 then (Swizzled, a % 0x1_0000_0000)
      else (Global, a)
    case _ => (s, a % 0x1_0000_0000)
  }

  function Aperture(s: Space): nat
    requires s.Global? || s.Local? || s.Swizzled?
  {
    if s.Global? then 0 else if s.Local? then APERTURE else 2 * APERTURE
  }

  /** a - b in 64-bit arithmetic. */
  function Minus(a: nat, b: nat): (r: nat)
    requires a < ADDRESS_SPACE && b <= ADDRESS_SPACE
    ensures r < ADDRESS_SPACE && (r + b == a || r + b == a + ADDRESS_SPACE)
  {
    if a >= b then a - b else a + ADDRESS_SPACE - b
  }

  /** The words of the slot come in rows, one word of every lane; this is the first of a row. */
  function Row(lanes: nat, row: nat): nat {
    if row == 0 then 0 else Row(lanes, row - 1) + lanes
  }

  /** Where the byte `a` of a lane is kept in its wave's slot. */
  function Swizzle(lanes: nat, lane: nat, a: nat): nat {
    (Row(lanes, a / 4) + lane) * 4 + a % 4
  }

  lemma {:induction false} RowIs(lanes: nat, row: nat)
    ensures Row(lanes, row) == row * lanes
  {
    if row > 0 { RowIs(lanes, row - 1); }
  }

  /** As one formula. */
  lemma SwizzleIs(lanes: nat, lane: nat, a: nat)
    ensures Swizzle(lanes, lane, a) == a / 4 * lanes * 4 + lane * 4 + a % 4
  {
    RowIs(lanes, a / 4);
  }

  /** The row of a word of the slot, and the lane it belongs to: its number divided by the number
      of lanes, and the remainder. */
  function RowOf(lanes: nat, word: nat): nat
    requires lanes > 0
  {
    if word < lanes then 0 else 1 + RowOf(lanes, word - lanes)
  }

  function LaneOf(lanes: nat, word: nat): nat
    requires lanes > 0
  {
    if word < lanes then word else LaneOf(lanes, word - lanes)
  }

  /** The lane that owns a byte of the slot, and the private address it has there. */
  function OwnerOf(lanes: nat, offset: nat): nat
    requires lanes > 0
  {
    LaneOf(lanes, offset / 4)
  }

  function Unswizzle(lanes: nat, offset: nat): nat
    requires lanes > 0
  {
    RowOf(lanes, offset / 4) * 4 + offset % 4
  }

  function ToGlobal(w: Wave, lane: nat, from: Space, a: nat): Result<Range>
    requires a < ADDRESS_SPACE
  {
    var (s, x) := Lower(from, a);
    if x == Null(s) && (from.Generic? || !s.Local?) then Ok(Range(0, 0))
    else
      match s
      case Global => Ok(Range(x, ADDRESS_SPACE - x))
      case Unswizzled =>
        if x >= w.scratchSize then Err(InvalidConversion)
        else Ok(Range(w.scratchBase + x, w.scratchSize - x))
      case Swizzled =>
        if lane >= w.laneCount then Err(InvalidLane)
        else GlobalAt(w, Swizzle(w.laneCount, lane, x))
      case Local => Err(InvalidConversion)
  }

  function GlobalAt(w: Wave, offset: nat): Result<Range> {
    if offset >= w.scratchSize then Err(InvalidConversion)
    else Ok(Range(w.scratchBase + offset, 4 - offset % 4))
  }

  function ToLocal(from: Space, a: nat): Result<Range>
    requires a < ADDRESS_SPACE
  {
    var (s, x) := Lower(from, a);
    if x == Null(s) && (from.Generic? || s.Local?) then Ok(Range(Null(Local), 0))
    else if s.Local? then Ok(Range(x, SEGMENT - x))
    else Err(InvalidConversion)
  }

  function ToSwizzled(w: Wave, lane: nat, from: Space, a: nat): Result<Range>
    requires a < ADDRESS_SPACE && w.scratchBase <= ADDRESS_SPACE && w.laneCount > 0
  {
    var (s, x) := Lower(from, a);
    if x == Null(s) && (from.Generic? || s.Swizzled? || s.Unswizzled?) then Ok(Range(Null(Swizzled), 0))
    else if s.Swizzled? then Ok(Range(x, SEGMENT - x))
    else if s.Local? then Err(InvalidConversion)
    else SwizzledAt(w, lane, if s.Global? then Minus(x, w.scratchBase) else x)
  }

  function SwizzledAt(w: Wave, lane: nat, offset: nat): Result<Range>
    requires w.laneCount > 0
  {
    if offset >= w.scratchSize then Err(InvalidConversion)
    else if lane >= w.laneCount then Err(InvalidLane)
    else if lane != OwnerOf(w.laneCount, offset) then Err(InvalidConversion)
    else Ok(Range(Unswizzle(w.laneCount, offset), 4 - offset % 4))
  }

  /** From where a private byte is kept to its place in the slot. */
  function FromGlobal(w: Wave, g: Result<Range>): Result<Range>
    requires g.Ok? ==> g.value.address < ADDRESS_SPACE
    requires w.scratchBase <= ADDRESS_SPACE
  {
    match g
    case Err(e) => Err(e)
    case Ok(range) =>
      var y := Minus(range.address, w.scratchBase);
      Ok(Range(y, if y > w.scratchSize then 0 else
        if range.contiguous <= w.scratchSize - y then range.contiguous else w.scratchSize - y))
  }

  function ToUnswizzled(w: Wave, lane: nat, from: Space, a: nat): Result<Range>
    requires a < ADDRESS_SPACE && w.scratchBase + w.scratchSize <= ADDRESS_SPACE
  {
    var (s, x) := Lower(from, a);
    if x == Null(s) && (from.Generic? || s.Swizzled? || s.Unswizzled?) then Ok(Range(Null(Unswizzled), 0))
    else
      match s
      case Unswizzled => Ok(Range(x, SEGMENT - x))
      case Global =>
        var y := Minus(x, w.scratchBase);
        if y >= w.scratchSize then Err(InvalidConversion) else Ok(Range(y, w.scratchSize - y))
      case Swizzled => FromGlobal(w, ToGlobal(w, lane, from, a))
      case Local => Err(InvalidConversion)
  }

  function ToGeneric(from: Space, a: nat): Result<Range>
    requires a < ADDRESS_SPACE
  {
    var (s, x) := Lower(from, a);
    if s.Unswizzled? then Err(InvalidConversion)
    else if x == Null(s) then Ok(Range(0, 0))
    else Ok(Range(Aperture(s) + x, SpaceSize(s) - x))
  }

  /** Converts address `a` of space `from` to space `to`, for one lane of a wave. */
  function Convert(w: Wave, lane: nat, to: Space, from: Space, a: nat): Result<Range>
    requires a < ADDRESS_SPACE && w.scratchBase + w.scratchSize <= ADDRESS_SPACE && w.laneCount > 0
  {
    match to
    case Global => ToGlobal(w, lane, from, a)
    case Local => ToLocal(from, a)
    case Swizzled => ToSwizzled(w, lane, from, a)
    case Unswizzled => ToUnswizzled(w, lane, from, a)
    case Generic => ToGeneric(from, a)
  }

  // ----- the lane layout -----

  lemma {:induction false} WordParts(lanes: nat, word: nat)
    requires lanes > 0
    ensures word == Row(lanes, RowOf(lanes, word)) + LaneOf(lanes, word) && LaneOf(lanes, word) < lanes
    decreases word
  {
    if word >= lanes { WordParts(lanes, word - lanes); }
  }

  lemma {:induction false} PartsOfWord(lanes: nat, row: nat, lane: nat)
    requires lane < lanes
    ensures RowOf(lanes, Row(lanes, row) + lane) == row && LaneOf(lanes, Row(lanes, row) + lane) == lane
  {
    if row > 0 { PartsOfWord(lanes, row - 1, lane); }
  }

  /** The layout pairs the bytes of all lanes with the bytes of the slot one to one. */
  lemma SwizzleIsBijection(lanes: nat, lane: nat, a: nat, offset: nat)
    requires lane < lanes
    ensures Swizzle(lanes, lane, a) == offset <==> OwnerOf(lanes, offset) == lane && Unswizzle(lanes, offset) == a
  {
    PartsOfWord(lanes, a / 4, lane);
    WordParts(lanes, offset / 4);
  }

  /** As one formula each. */
  lemma UnswizzleIs(lanes: nat, offset: nat)
    requires lanes > 0
    ensures OwnerOf(lanes, offset) == offset / 4 % lanes
    ensures Unswizzle(lanes, offset) == offset / (lanes * 4) * 4 + offset % 4
  {
    var row, lane := RowOf(lanes, offset / 4), LaneOf(lanes, offset / 4);
    WordParts(lanes, offset / 4);
    RowIs(lanes, row);
    DivModUnique(offset / 4, lanes, row, lane);
    RowOfBytes(lanes, offset, row, lane);
  }

  lemma RowOfBytes(lanes: nat, offset: nat, row: nat, lane: nat)
    requires lane < lanes && offset / 4 == row * lanes + lane
    ensures offset / (lanes * 4) == row
  {
    assert row * (lanes * 4) == row * lanes * 4;
    DivModUnique(offset, lanes * 4, row, lane * 4 + offset % 4);
  }

  /** Within one word, consecutive private bytes are consecutive in the slot. */
  lemma SwizzleWithinWord(lanes: nat, lane: nat, a: nat, k: nat)
    requires a % 4 + k < 4
    ensures Swizzle(lanes, lane, a + k) == Swizzle(lanes, lane, a) + k
    ensures Swizzle(lanes, lane, a) % 4 == a % 4
  {
    assert (a + k) / 4 == a / 4;
  }

  // ----- conversions undo each other -----

  predicate IsPhysical(s: Space) {
    s.Global? || s.Swizzled? || s.Unswizzled?
  }

  /** Whether an address of a physical space names a byte of the wave's slot, and which one. */
  predicate InSlot(w: Wave, lane: nat, s: Space, a: nat)
    requires IsPhysical(s) && a < SpaceSize(s) && w.scratchBase <= ADDRESS_SPACE
  {
    SlotOffset(w, lane, s, a) < w.scratchSize && (s.Swizzled? ==> lane < w.laneCount)
  }

  function SlotOffset(w: Wave, lane: nat, s: Space, a: nat): nat
    requires IsPhysical(s) && a < SpaceSize(s) && w.scratchBase <= ADDRESS_SPACE
  {
    match s
    case Global => Minus(a, w.scratchBase)
    case Unswizzled => a
    case Swizzled => Swizzle(w.laneCount, lane, a)
  }

  /** Address `a` of one space and address `b` of another name the same byte of the slot. */
  predicate SameByte(w: Wave, lane: nat, s: Space, a: nat, t: Space, b: nat)
    requires IsPhysical(s) && a < SpaceSize(s) && w.scratchBase <= ADDRESS_SPACE
    requires IsPhysical(t) && b < SpaceSize(t)
  {
    InSlot(w, lane, s, a) && InSlot(w, lane, t, b) && SlotOffset(w, lane, s, a) == SlotOffset(w, lane, t, b)
  }

  predicate Yields(r: Result<Range>, address: nat) {
    r.Ok? && r.value.address == address
  }

  lemma {:induction false} RowGrows(lanes: nat, row: nat)
    requires lanes > 0
    ensures Row(lanes, row) >= row
  {
    if row > 0 { RowGrows(lanes, row - 1); }
  }

  lemma SwizzleGrows(lanes: nat, lane: nat, a: nat)
    requires lanes > 0
    ensures Swizzle(lanes, lane, a) >= a
  {
    RowGrows(lanes, a / 4);
  }

  lemma ToGlobalNames(w: Wave, lane: nat, from: Space, a: nat, b: nat)
    requires ValidWave(w) && (from.Swizzled? || from.Unswizzled?)
    requires a < SEGMENT && a != Null(from) && b < ADDRESS_SPACE
    ensures Yields(ToGlobal(w, lane, from, a), b) <==> SameByte(w, lane, Global, b, from, a)
    ensures var r := ToGlobal(w, lane, from, a);
      r.Ok? ==> 0 < r.value.address < ADDRESS_SPACE && r.value.contiguous > 0
  {
    ToGlobalYields(w, lane, from, a);
  }

  lemma ToGlobalYields(w: Wave, lane: nat, from: Space, a: nat)
    requires ValidWave(w) && (from.Swizzled? || from.Unswizzled?) && a < SEGMENT && a != Null(from)
    ensures var r, offset := ToGlobal(w, lane, from, a), SlotOffset(w, lane, from, a);
      && (r.Ok? <==> InSlot(w, lane, from, a))
      && (r.Ok? ==> r.value.address == w.scratchBase + offset && offset < w.scratchSize && r.value.contiguous > 0)
  {
    if from.Swizzled? { SwizzledYields(w, lane, a); }
  }

  lemma SwizzledYields(w: Wave, lane: nat, a: nat)
    requires a < Null(Swizzled)
    ensures var r, offset := ToGlobal(w, lane, Swizzled, a), Swizzle(w.laneCount, lane, a);
      && (r.Ok? <==> lane < w.laneCount && offset < w.scratchSize)
      && (r.Ok? ==> r.value.address == w.scratchBase + offset && r.value.contiguous > 0)
  {
    LowerKeeps(Swizzled, a);
    GlobalIsWord(w, lane, Swizzled, a, a);
  }

  lemma OwnerNames(lanes: nat, lane: nat, offset: nat, size: nat, b: nat)
    requires lane < lanes && offset < size <= 0x80_0000
    ensures OwnerOf(lanes, offset) == lane && Unswizzle(lanes, offset) == b <==> Swizzle(lanes, lane, b) == offset
    ensures OwnerOf(lanes, offset) == lane ==> Unswizzle(lanes, offset) < 0x80_0000
  {
    SwizzleIsBijection(lanes, lane, b, offset);
    var back := Unswizzle(lanes, offset);
    SwizzleIsBijection(lanes, lane, back, offset);
    SwizzleGrows(lanes, lane, back);
  }

  lemma ToSwizzledNames(w: Wave, lane: nat, from: Space, a: nat, b: nat)
    requires ValidWave(w) && (from.Global? || from.Unswizzled?)
    requires a < SpaceSize(from) && a != Null(from) && b < SEGMENT
    ensures Yields(ToSwizzled(w, lane, from, a), b) <==> SameByte(w, lane, Swizzled, b, from, a)
    ensures var r := ToSwizzled(w, lane, from, a);
      r.Ok? ==> r.value.address < Null(Swizzled) && r.value.contiguous > 0
  {
    var offset := SlotOffset(w, lane, from, a);
    ToSwizzledIsAt(w, lane, from, a);
    SwizzledAtNames(w, lane, offset, b);
    assert SameByte(w, lane, Swizzled, b, from, a) <==>
      offset < w.scratchSize && lane < w.laneCount && SlotOffset(w, lane, Swizzled, b) == offset;
  }

  lemma ToSwizzledIsAt(w: Wave, lane: nat, from: Space, a: nat)
    requires ValidWave(w) && (from.Global? || from.Unswizzled?) && a < SpaceSize(from) && a != Null(from)
    ensures ToSwizzled(w, lane, from, a) == SwizzledAt(w, lane, SlotOffset(w, lane, from, a))
  {
    LowerKeeps(from, a);
  }

  lemma LowerKeeps(s: Space, a: nat)
    requires !s.Generic? && a < SpaceSize(s)
    ensures Lower(s, a) == (s, a)
  {
  }

  lemma SwizzledAtNames(w: Wave, lane: nat, offset: nat, b: nat)
    requires ValidWave(w)
    ensures Yields(SwizzledAt(w, lane, offset), b) <==>
      offset < w.scratchSize && lane < w.laneCount && Swizzle(w.laneCount, lane, b) == offset
    ensures var r := SwizzledAt(w, lane, offset);
      r.Ok? ==> r.value.address < Null(Swizzled) && r.value.contiguous > 0
  {
    if lane < w.laneCount && offset < w.scratchSize {
      OwnerNames(w.laneCount, lane, offset, w.scratchSize, b);
    }
  }

  /** The address stands for private byte `x` of a lane. */
  predicate LowersTo(from: Space, a: nat, x: nat) {
    a < SpaceSize(from) && Lower(from, a) == (Swizzled, x) && x < Null(Swizzled)
  }

  /** The word of the slot with the byte at `offset`, from that byte on, in a space in which the
      slot begins at `base`. */
  function WordAt(w: Wave, lane: nat, offset: nat, base: nat): Result<Range> {
    if lane >= w.laneCount then Err(InvalidLane)
    else if offset >= w.scratchSize then Err(InvalidConversion)
    else Ok(Range(base + offset, 4 - offset % 4))
  }

  function Word(w: Wave, lane: nat, x: nat, base: nat): Result<Range> {
    WordAt(w, lane, Swizzle(w.laneCount, lane, x), base)
  }

  lemma GlobalIsWord(w: Wave, lane: nat, from: Space, a: nat, x: nat)
    requires LowersTo(from, a, x)
    ensures ToGlobal(w, lane, from, a) == Word(w, lane, x, w.scratchBase)
  {
  }

  lemma UnswizzledIsWord(w: Wave, lane: nat, from: Space, a: nat, x: nat)
    requires ValidWave(w) && LowersTo(from, a, x)
    ensures ToUnswizzled(w, lane, from, a) == Word(w, lane, x, 0)
  {
    GlobalIsWord(w, lane, from, a, x);
    FromGlobalIsWord(w, lane, Swizzle(w.laneCount, lane, x));
    assert ToUnswizzled(w, lane, from, a) == FromGlobal(w, Word(w, lane, x, w.scratchBase));
  }

  lemma FromGlobalIsWord(w: Wave, lane: nat, offset: nat)
    requires ValidWave(w)
    ensures var g := WordAt(w, lane, offset, w.scratchBase); g.Ok? ==> g.value.address < ADDRESS_SPACE
    ensures FromGlobal(w, WordAt(w, lane, offset, w.scratchBase)) == WordAt(w, lane, offset, 0)
  {
    if WordAt(w, lane, offset, 0).Ok? { FromGlobalWord(w, offset); }
  }

  lemma FromGlobalWord(w: Wave, offset: nat)
    requires ValidWave(w) && offset < w.scratchSize
    ensures FromGlobal(w, Ok(Range(w.scratchBase + offset, 4 - offset % 4))) == Ok(Range(offset, 4 - offset % 4))
  {
    RoomInWord(offset, 3 - offset % 4, w.scratchSize);
  }

  /** Bytes of one word follow each other. */
  lemma WordFollows(w: Wave, lane: nat, x: nat, base: nat, k: nat)
    requires ValidWave(w) && Word(w, lane, x, base).Ok? && k < Word(w, lane, x, base).value.contiguous
    ensures x + k < Null(Swizzled) && Yields(Word(w, lane, x + k, base), Word(w, lane, x, base).value.address + k)
  {
    var offset := Swizzle(w.laneCount, lane, x);
    WordFits(w.laneCount, lane, x, k, w.scratchSize);
    SwizzleGrows(w.laneCount, lane, x + k);
    NextInWord(w, lane, offset, base, k);
  }

  lemma NextInWord(w: Wave, lane: nat, offset: nat, base: nat, k: nat)
    requires ValidWave(w) && WordAt(w, lane, offset, base).Ok? && k < WordAt(w, lane, offset, base).value.contiguous
    ensures Yields(WordAt(w, lane, offset + k, base), WordAt(w, lane, offset, base).value.address + k)
  {
    RoomInWord(offset, k, w.scratchSize);
  }

  lemma LowersOn(from: Space, a: nat, x: nat, k: nat)
    requires LowersTo(from, a, x) && x + k < Null(Swizzled)
    ensures LowersTo(from, a + k, x + k)
  {
    LowerFollows(from, a, k);
  }

  lemma ToUnswizzledNames(w: Wave, lane: nat, from: Space, a: nat, b: nat)
    requires ValidWave(w) && (from.Global? || from.Swizzled?)
    requires a < SpaceSize(from) && a != Null(from) && b < SEGMENT
    ensures Yields(ToUnswizzled(w, lane, from, a), b) <==> SameByte(w, lane, Unswizzled, b, from, a)
    ensures var r := ToUnswizzled(w, lane, from, a);
      r.Ok? ==> r.value.address < Null(Unswizzled) && r.value.contiguous > 0
  {
    if from.Swizzled? {
      LowerKeeps(Swizzled, a);
      UnswizzledIsWord(w, lane, from, a, a);
    }
  }

  /** A conversion between two of the three spaces yields an address exactly when the two
      addresses name the same byte of the wave's slot. */
  lemma ConversionNames(w: Wave, lane: nat, to: Space, from: Space, a: nat, b: nat)
    requires ValidWave(w) && IsPhysical(to) && IsPhysical(from) && to != from
    requires a < SpaceSize(from) && a != Null(from) && b < SpaceSize(to)
    ensures Yields(Convert(w, lane, to, from, a), b) <==> SameByte(w, lane, to, b, from, a)
    ensures var r := Convert(w, lane, to, from, a);
      r.Ok? ==> r.value.address < SpaceSize(to) && r.value.address != Null(to) && r.value.contiguous > 0
  {
    match to
    case Global => ToGlobalNames(w, lane, from, a, b);
    case Swizzled => ToSwizzledNames(w, lane, from, a, b);
    case Unswizzled => ToUnswizzledNames(w, lane, from, a, b);
  }

  /** A conversion between global and the two private spaces that succeeds on an address other
      than null is undone by the conversion back. */
  lemma ConversionsUndo(w: Wave, lane: nat, to: Space, from: Space, a: nat)
    requires ValidWave(w) && IsPhysical(to) && IsPhysical(from)
    requires a < SpaceSize(from) && a != Null(from)
    requires Convert(w, lane, to, from, a).Ok?
    ensures var r := Convert(w, lane, to, from, a).value;
      && r.address < SpaceSize(to) && r.address != Null(to) && r.contiguous > 0
      && Yields(Convert(w, lane, from, to, r.address), a)
  {
    if to != from {
      ConversionNames(w, lane, to, from, a, 0);
      var b := Convert(w, lane, to, from, a).value.address;
      ConversionNames(w, lane, to, from, a, b);
      ConversionNames(w, lane, from, to, b, a);
    }
  }

  /** Whether an address of one space can stand for one of the other at all. */
  predicate Related(to: Space, from: Space) {
    match to
    case Global => !from.Local?
    case Local => from.Local? || from.Generic?
    case Generic => !from.Unswizzled?
    case _ => !from.Local? && !from.Global?
  }

  /** Between such spaces, and only between them, the null address converts to the null address; for
      global memory and a private space this is so in one direction only. */
  lemma NullGoesToNull(w: Wave, lane: nat, to: Space, from: Space)
    requires ValidWave(w)
    ensures Convert(w, lane, to, from, Null(from)) ==
      if Related(to, from) then Ok(Range(Null(to), 0)) else Err(InvalidConversion)
  {
  }

  /** A local address, generic or not, stands for no byte of the slot, and no byte of the slot for a
      local address. */
  lemma LocalIsApart(w: Wave, lane: nat, to: Space, from: Space, a: nat)
    requires ValidWave(w) && a < SpaceSize(from) && a != Null(from)
    requires Lower(from, a).1 != Null(Lower(from, a).0)
    requires if to.Local? then !Lower(from, a).0.Local? else IsPhysical(to) && Lower(from, a).0.Local?
    ensures Convert(w, lane, to, from, a) == Err(InvalidConversion)
  {
  }

  /** Within one space a conversion changes nothing. */
  lemma SameSpaceKeeps(w: Wave, lane: nat, s: Space, a: nat)
    requires ValidWave(w) && !s.Generic? && a < SpaceSize(s)
    ensures s.Unswizzled? && a != Null(s) ==> Convert(w, lane, s, s, a) == Ok(Range(a, SEGMENT - a))
    ensures !s.Unswizzled? ==> Yields(Convert(w, lane, s, s, a), a)
  {
    LowerKeeps(s, a);
  }

  /** A local or private address, made generic, converts back. */
  lemma GenericConvertsBack(w: Wave, lane: nat, s: Space, a: nat)
    requires ValidWave(w) && (s.Local? || s.Swizzled?) && a < Null(s)
    ensures ToGeneric(s, a).Ok? && ToGeneric(s, a).value.address < ADDRESS_SPACE
    ensures Convert(w, lane, s, Generic, ToGeneric(s, a).value.address) == Ok(Range(a, SEGMENT - a))
  {
    GenericRoundTripExactly(s, a);
  }

  // ----- how far a conversion holds -----

  /** Every address the contiguous count covers converts to the matching address. */
  ghost predicate Honest(w: Wave, lane: nat, to: Space, from: Space, a: nat)
    requires ValidWave(w) && a < ADDRESS_SPACE
  {
    var r := Convert(w, lane, to, from, a);
    r.Ok? ==> forall k: nat :: k < r.value.contiguous ==> Follows(w, lane, to, from, a, k, r.value.address)
  }

  ghost predicate Follows(w: Wave, lane: nat, to: Space, from: Space, a: nat, k: nat, address: nat)
    requires ValidWave(w)
  {
    a + k < ADDRESS_SPACE && Yields(Convert(w, lane, to, from, a + k), address + k)
  }

  /** The count runs past an aperture of the generic space, or onto the null address of a
      segment. */
  predicate Overstated(to: Space, from: Space, a: nat)
    requires a < ADDRESS_SPACE
  {
    var (s, x) := Lower(from, a);
    if s.Global? then from.Generic? && (to.Global? || to.Generic?) && 0 < a < 3 * APERTURE
    else to.Generic? && !s.Unswizzled? && x != Null(s)
  }

  lemma GlobalCount(w: Wave, lane: nat, from: Space, a: nat, k: nat)
    requires ValidWave(w) && a < SpaceSize(from) && !Overstated(Global, from, a)
    requires ToGlobal(w, lane, from, a).Ok? && k < ToGlobal(w, lane, from, a).value.contiguous
    ensures Follows(w, lane, Global, from, a, k, ToGlobal(w, lane, from, a).value.address)
  {
    if Lower(from, a).0.Swizzled? && Lower(from, a).1 != Null(Swizzled) {
      GlobalWordCount(w, lane, from, a, k, Lower(from, a).1);
    } else {
      LowerFollows(from, a, k);
    }
  }

  lemma GlobalWordCount(w: Wave, lane: nat, from: Space, a: nat, k: nat, x: nat)
    requires ValidWave(w) && LowersTo(from, a, x)
    requires ToGlobal(w, lane, from, a).Ok? && k < ToGlobal(w, lane, from, a).value.contiguous
    ensures Follows(w, lane, Global, from, a, k, ToGlobal(w, lane, from, a).value.address)
  {
    GlobalIsWord(w, lane, from, a, x);
    WordFollows(w, lane, x, w.scratchBase, k);
    LowersOn(from, a, x, k);
    GlobalIsWord(w, lane, from, a + k, x + k);
    ConvertsToGlobal(w, lane, from, a + k, ToGlobal(w, lane, from, a).value.address + k);
  }

  lemma ConvertsToGlobal(w: Wave, lane: nat, from: Space, a: nat, b: nat)
    requires ValidWave(w) && a < ADDRESS_SPACE && Yields(ToGlobal(w, lane, from, a), b)
    ensures Yields(Convert(w, lane, Global, from, a), b)
  {
  }

  lemma WordFits(lanes: nat, lane: nat, a: nat, k: nat, size: nat)
    requires Swizzle(lanes, lane, a) < size && size % 256 == 0 && k < 4 - Swizzle(lanes, lane, a) % 4
    ensures Swizzle(lanes, lane, a + k) == Swizzle(lanes, lane, a) + k < size
    ensures Swizzle(lanes, lane, a + k) % 4 == Swizzle(lanes, lane, a) % 4 + k
    ensures a % 4 + k < 4
  {
    SwizzleWithinWord(lanes, lane, a, 0);
    RoomInWord(Swizzle(lanes, lane, a), k, size);
    SwizzleWithinWord(lanes, lane, a, k);
  }

  /** As long as no aperture is left, lowering keeps distances. */
  lemma LowerFollows(from: Space, a: nat, k: nat)
    requires a < SpaceSize(from)
    requires Lower(from, a).1 + k < SpaceSize(Lower(from, a).0)
    requires from.Generic? && Lower(from, a).0.Global? ==> a + k < APERTURE || 3 * APERTURE <= a
    ensures a + k < ADDRESS_SPACE && Lower(from, a + k) == (Lower(from, a).0, Lower(from, a).1 + k)
  {
    var (s, x) := Lower(from, a);
    if from.Generic? && !s.Global? {
      assert a % 0x1_0000_0000 + k < SEGMENT && (a + k) / 0x1_0000_0000_0000 == a / 0x1_0000_0000_0000;
    }
  }

  lemma OwnerWithinWord(lanes: nat, offset: nat, k: nat)
    requires lanes > 0 && offset % 4 + k < 4
    ensures OwnerOf(lanes, offset + k) == OwnerOf(lanes, offset)
    ensures Unswizzle(lanes, offset + k) == Unswizzle(lanes, offset) + k
  {
    assert (offset + k) / 4 == offset / 4;
  }

  lemma SlotCount(w: Wave, lane: nat, offset: nat, k: nat)
    requires ValidWave(w) && SwizzledAt(w, lane, offset).Ok? && k < SwizzledAt(w, lane, offset).value.contiguous
    ensures offset + k < w.scratchSize
    ensures Yields(SwizzledAt(w, lane, offset + k), SwizzledAt(w, lane, offset).value.address + k)
  {
    RoomInWord(offset, k, w.scratchSize);
    OwnerWithinWord(w.laneCount, offset, k);
  }

  lemma RoomInWord(offset: nat, k: nat, size: nat)
    requires offset < size && size % 256 == 0 && k < 4 - offset % 4
    ensures offset % 4 + k < 4 && offset + k < size && (offset + k) % 4 == offset % 4 + k
  {
  }

  lemma SwizzledCount(w: Wave, lane: nat, from: Space, a: nat, k: nat)
    requires ValidWave(w) && w.scratchBase + w.scratchSize <= APERTURE && a < SpaceSize(from)
    requires ToSwizzled(w, lane, from, a).Ok? && k < ToSwizzled(w, lane, from, a).value.contiguous
    ensures Follows(w, lane, Swizzled, from, a, k, ToSwizzled(w, lane, from, a).value.address)
  {
    if Lower(from, a).0.Swizzled? || Lower(from, a).1 == Null(Lower(from, a).0) {
      LowerFollows(from, a, k);
    } else {
      SlotByteFollows(w, lane, from, a, k);
    }
  }

  lemma SlotByteFollows(w: Wave, lane: nat, from: Space, a: nat, k: nat)
    requires ValidWave(w) && w.scratchBase + w.scratchSize <= APERTURE && a < SpaceSize(from)
    requires !Lower(from, a).0.Swizzled? && Lower(from, a).1 != Null(Lower(from, a).0)
    requires ToSwizzled(w, lane, from, a).Ok? && k < ToSwizzled(w, lane, from, a).value.contiguous
    ensures Follows(w, lane, Swizzled, from, a, k, ToSwizzled(w, lane, from, a).value.address)
  {
    var (s, x) := Lower(from, a);
    SlotCount(w, lane, if s.Global? then Minus(x, w.scratchBase) else x, k);
    LowerFollows(from, a, k);
  }

  lemma UnswizzledCount(w: Wave, lane: nat, from: Space, a: nat, k: nat)
    requires ValidWave(w) && w.scratchBase + w.scratchSize <= APERTURE && a < SpaceSize(from)
    requires ToUnswizzled(w, lane, from, a).Ok? && k < ToUnswizzled(w, lane, from, a).value.contiguous
    ensures Follows(w, lane, Unswizzled, from, a, k, ToUnswizzled(w, lane, from, a).value.address)
  {
    var (s, x) := Lower(from, a);
    if s.Swizzled? && x != Null(s) {
      UnswizzledWordCount(w, lane, from, a, k, Lower(from, a).1);
    } else {
      LowerFollows(from, a, k);
    }
  }

  lemma UnswizzledWordCount(w: Wave, lane: nat, from: Space, a: nat, k: nat, x: nat)
    requires ValidWave(w) && LowersTo(from, a, x)
    requires ToUnswizzled(w, lane, from, a).Ok? && k < ToUnswizzled(w, lane, from, a).value.contiguous
    ensures Follows(w, lane, Unswizzled, from, a, k, ToUnswizzled(w, lane, from, a).value.address)
  {
    UnswizzledIsWord(w, lane, from, a, x);
    WordFollows(w, lane, x, 0, k);
    LowersOn(from, a, x, k);
    UnswizzledIsWord(w, lane, from, a + k, x + k);
    ConvertsToUnswizzled(w, lane, from, a + k, ToUnswizzled(w, lane, from, a).value.address + k);
  }

  lemma ConvertsToUnswizzled(w: Wave, lane: nat, from: Space, a: nat, b: nat)
    requires ValidWave(w) && a < ADDRESS_SPACE && Yields(ToUnswizzled(w, lane, from, a), b)
    ensures Yields(Convert(w, lane, Unswizzled, from, a), b)
  {
  }

  lemma SegmentCount(w: Wave, lane: nat, to: Space, from: Space, a: nat, k: nat)
    requires ValidWave(w) && a < SpaceSize(from) && (to.Local? || to.Generic?) && !Overstated(to, from, a)
    requires Convert(w, lane, to, from, a).Ok? && k < Convert(w, lane, to, from, a).value.contiguous
    ensures Follows(w, lane, to, from, a, k, Convert(w, lane, to, from, a).value.address)
  {
    LowerFollows(from, a, k);
  }

  /** Where the count is overstated, the first address past the aperture, or the null address
      of the segment, does not convert to the matching address. */
  lemma OverstatedFails(w: Wave, lane: nat, to: Space, from: Space, a: nat)
    requires ValidWave(w) && a < SpaceSize(from) && Overstated(to, from, a)
    ensures var r := Convert(w, lane, to, from, a);
      r.Ok? && exists k: nat :: k < r.value.contiguous && !Follows(w, lane, to, from, a, k, r.value.address)
  {
    var (s, x) := Lower(from, a);
    var r := Convert(w, lane, to, from, a);
    if s.Global? {
      var k := APERTURE + SEGMENT - a;
      assert Lower(from, a + k) == (Local, 0);
      assert !Follows(w, lane, to, from, a, k, r.value.address);
    } else {
      var k := Null(s) - x;
      LowerFollows(from, a, k);
      assert !Follows(w, lane, to, from, a, k, r.value.address);
    }
  }

  /** The contiguous count a conversion reports is honest if and only if it does not run over
      an aperture of the generic space or onto the null address of a segment. */
  lemma CountIsHonestExactly(w: Wave, lane: nat, to: Space, from: Space, a: nat)
    requires ValidWave(w) && w.scratchBase + w.scratchSize <= APERTURE && a < SpaceSize(from)
    ensures Honest(w, lane, to, from, a) <==> !Overstated(to, from, a)
  {
    if Overstated(to, from, a) {
      OverstatedFails(w, lane, to, from, a);
    } else if Convert(w, lane, to, from, a).Ok? {
      var r := Convert(w, lane, to, from, a).value;
      forall k: nat | k < r.contiguous
        ensures Follows(w, lane, to, from, a, k, r.address)
      {
        match to
        case Global => GlobalCount(w, lane, from, a, k);
        case Swizzled => SwizzledCount(w, lane, from, a, k);
        case Unswizzled => UnswizzledCount(w, lane, from, a, k);
        case _ => SegmentCount(w, lane, to, from, a, k);
      }
    }
  }

  /** A segment address survives the trip through the generic space, except a global address
      that lies in the aperture of another space. */
  lemma GenericRoundTripExactly(s: Space, a: nat)
    requires (s.Global? || s.Local? || s.Swizzled?) && a < SpaceSize(s) && a != Null(s)
    ensures ToGeneric(s, a).Ok? && 0 < ToGeneric(s, a).value.address < ADDRESS_SPACE
    ensures Lower(Generic, ToGeneric(s, a).value.address) == (s, a) <==>
      !(s.Global? && APERTURE <= a < 3 * APERTURE)
  {
  }

  // ----- scratch slots -----

  datatype Family = Gfx9 | Gfx11

  /** The scratch memory of a queue: the ring register gives the number of waves and the size of
      a slot, and each compute die has its own part of the backing memory. */
  datatype Scratch = Scratch(family: Family, ring: nat, engines: nat, backing: nat, perDie: nat)

  datatype Slot = Slot(die: nat, engine: nat, scoreboard: nat)

  /** The architected flat_scratch register, where there is one. */
  datatype FlatScratch = Absent | Holds(address: nat)

  function RingWaves(q: Scratch): nat { q.ring % 0x1000 }

  function WaveBytes(q: Scratch): (n: nat)
    ensures n % 256 == 0 && n < 0x80_0000
  {
    match q.family
    case Gfx9 => q.ring / 0x1000 % 0x2000 * 1024
    case Gfx11 => q.ring / 0x1000 % 0x8000 * 256
  }

  function EngineWaves(q: Scratch): nat
    requires q.engines > 0
  {
    match q.family
    case Gfx9 => RingWaves(q) / q.engines
    case Gfx11 => RingWaves(q)
  }

  function SlotIndex(q: Scratch, slot: Slot): nat
    requires q.engines > 0
  {
    EngineWaves(q) * slot.engine + slot.scoreboard
  }

  function SlotBase(q: Scratch, slot: Slot): nat
    requires q.engines > 0
  {
    SlotAddress(q.backing, q.perDie, WaveBytes(q), slot.die, SlotIndex(q, slot))
  }

  function SlotAddress(backing: nat, perDie: nat, bytes: nat, die: nat, index: nat): nat {
    backing + perDie * die + index * bytes
  }

  /** On gfx9 a ring that does not divide evenly among the engines gives no access. */
  function SlotSize(q: Scratch): nat
    requires q.engines > 0
  {
    if q.family.Gfx9? && RingWaves(q) % q.engines != 0 then 0 else WaveBytes(q)
  }

  /** The wave in a slot. A flat_scratch register that disagrees closes its memory. */
  function WaveIn(q: Scratch, slot: Slot, lanes: nat, flat: FlatScratch): Wave
    requires q.engines > 0
  {
    Wave(lanes, SlotBase(q, slot),
      if flat.Holds? && flat.address != SlotBase(q, slot) && SlotSize(q) != 0 then 0 else SlotSize(q))
  }

  predicate ValidSlot(q: Scratch, slot: Slot) {
    && q.engines > 0 && slot.engine < q.engines && slot.scoreboard < EngineWaves(q)
    && q.backing > 0 && q.backing + q.perDie * (slot.die + 1) <= ADDRESS_SPACE
  }

  /** The ring fits one die's part of the backing memory. */
  predicate RingFits(q: Scratch)
    requires q.engines > 0
  {
    (if q.family.Gfx9? then RingWaves(q) else RingWaves(q) * q.engines) * WaveBytes(q) <= q.perDie
  }

  // ----- where the slots are -----

  /** The ring register holds the number of waves in its first 12 bits and the size of a slot in the
      next 13 or 15, in units of 1024 or 256 bytes. */
  lemma RingFields(q: Scratch, waves: nat, size: nat, width: nat, rest: nat)
    requires waves < 0x1000 && size < width == if q.family.Gfx9? then 0x2000 else 0x8000
    requires q.ring == waves + (size + rest * width) * 0x1000
    ensures RingWaves(q) == waves && WaveBytes(q) == size * if q.family.Gfx9? then 1024 else 256
  {
    RingParts(q.ring, waves, size, width, rest);
  }

  lemma RingParts(ring: nat, waves: nat, size: nat, width: nat, rest: nat)
    requires waves < 0x1000 && size < width && ring == waves + (size + rest * width) * 0x1000
    ensures ring % 0x1000 == waves && ring / 0x1000 % width == size
  {
    DivModUnique(ring, 0x1000, size + rest * width, waves);
    DivModUnique(size + rest * width, width, rest, size);
  }

  /** Each engine has as many slots as go evenly into the ring on gfx9, and a whole ring on gfx11. */
  lemma EngineShare(q: Scratch)
    requires q.engines > 0
    ensures q.family.Gfx9? ==> EngineWaves(q) * q.engines <= RingWaves(q) < (EngineWaves(q) + 1) * q.engines
    ensures q.family.Gfx11? ==> EngineWaves(q) == RingWaves(q)
  {
  }

  /** The slots of a die come one after the other from the beginning of its part of the backing memory,
      engine by engine and within an engine by scoreboard. */
  lemma SlotsFollow(q: Scratch, die: nat, engine: nat, scoreboard: nat)
    requires q.engines > 0
    ensures SlotBase(q, Slot(die, 0, 0)) == q.backing + q.perDie * die
    ensures SlotBase(q, Slot(die, engine, scoreboard + 1)) == SlotBase(q, Slot(die, engine, scoreboard)) + WaveBytes(q)
    ensures scoreboard + 1 == EngineWaves(q) ==>
      SlotBase(q, Slot(die, engine + 1, 0)) == SlotBase(q, Slot(die, engine, scoreboard)) + WaveBytes(q)
  {
    NextAddress(q.backing, q.perDie, WaveBytes(q), die, SlotIndex(q, Slot(die, engine, scoreboard)));
    if scoreboard + 1 == EngineWaves(q) { NextEngine(EngineWaves(q), engine, scoreboard); }
  }

  lemma NextAddress(backing: nat, perDie: nat, bytes: nat, die: nat, index: nat)
    ensures SlotAddress(backing, perDie, bytes, die, 0) == backing + perDie * die
    ensures SlotAddress(backing, perDie, bytes, die, index + 1) == SlotAddress(backing, perDie, bytes, die, index) + bytes
  {
    assert (index + 1) * bytes == index * bytes + bytes;
  }

  lemma NextEngine(per: nat, engine: nat, scoreboard: nat)
    requires scoreboard + 1 == per
    ensures per * (engine + 1) == per * engine + scoreboard + 1
  {
  }

  /** The flat_scratch register, where there is one, holds the address of the slot. */
  predicate Agrees(q: Scratch, slot: Slot, flat: FlatScratch)
    requires q.engines > 0
  {
    flat.Absent? || flat.address == SlotBase(q, slot)
  }

  /** The engines share the ring without remainder. */
  predicate Divides(q: Scratch)
    requires q.engines > 0
  {
    q.family.Gfx11? || EngineWaves(q) * q.engines == RingWaves(q)
  }

  /** A wave has all of its slot if the ring divides evenly and flat_scratch agrees, and else none of it. */
  lemma SlotIsOpenExactly(q: Scratch, slot: Slot, lanes: nat, flat: FlatScratch)
    requires q.engines > 0
    ensures var w := WaveIn(q, slot, lanes, flat);
      && w.laneCount == lanes && w.scratchBase == SlotBase(q, slot)
      && w.scratchSize == if Divides(q) && Agrees(q, slot, flat) then WaveBytes(q) else 0
  {
    if q.family.Gfx9? { DividesExactly(RingWaves(q), q.engines); }
  }

  lemma DividesExactly(x: nat, d: nat)
    requires d > 0
    ensures x % d == 0 <==> x / d * d == x
  {
    assert x == x / d * d + x % d;
  }

  /** In an open slot a private byte exists if and only if the lane does and its place is inside the slot. */
  lemma PrivateByteExists(q: Scratch, slot: Slot, lanes: nat, flat: FlatScratch, lane: nat, a: nat)
    requires q.engines > 0 && Divides(q) && Agrees(q, slot, flat) && a < Null(Swizzled)
    ensures var r := ToGlobal(WaveIn(q, slot, lanes, flat), lane, Swizzled, a);
      && (r.Ok? <==> lane < lanes && Swizzle(lanes, lane, a) < WaveBytes(q))
      && (r.Ok? ==> r.value.address == SlotBase(q, slot) + Swizzle(lanes, lane, a))
  {
    SlotIsOpenExactly(q, slot, lanes, flat);
    SwizzledYields(WaveIn(q, slot, lanes, flat), lane, a);
  }

  lemma SlotInRing(q: Scratch, slot: Slot)
    requires ValidSlot(q, slot) && RingFits(q)
    ensures (SlotIndex(q, slot) + 1) * WaveBytes(q) <= q.perDie
  {
    var per, ring := EngineWaves(q), if q.family.Gfx9? then RingWaves(q) else RingWaves(q) * q.engines;
    MulMonotone(slot.engine + 1, q.engines, per);
    assert per * (slot.engine + 1) == per * slot.engine + per;
    assert q.family.Gfx9? ==> per * q.engines <= ring;
    assert SlotIndex(q, slot) + 1 <= ring;
    MulMonotone(SlotIndex(q, slot) + 1, ring, WaveBytes(q));
  }

  lemma WaveInSlotIsValid(q: Scratch, slot: Slot, lanes: nat, flat: FlatScratch)
    requires ValidSlot(q, slot) && RingFits(q) && (lanes == 32 || lanes == 64)
    ensures ValidWave(WaveIn(q, slot, lanes, flat))
  {
    SlotInRing(q, slot);
    BaseBound(q.backing, q.perDie, WaveBytes(q), slot.die, SlotIndex(q, slot));
  }

  lemma BaseBound(backing: nat, per: nat, n: nat, die: nat, i: nat)
    requires (i + 1) * n <= per && backing + per * (die + 1) <= ADDRESS_SPACE
    ensures SlotAddress(backing, per, n, die, i) + n <= ADDRESS_SPACE
    ensures backing > 0 ==> SlotAddress(backing, per, n, die, i) > 0
  {
    MulMonotone(0, die, per);
    MulMonotone(0, i, n);
    assert (i + 1) * n == i * n + n;
    assert per * (die + 1) == per * die + per;
  }

  /** A byte of some slot determines the slot and the place in it. */
  lemma SlotsAreDisjoint(q: Scratch, s: Slot, t: Slot, x: nat, y: nat)
    requires ValidSlot(q, s) && ValidSlot(q, t) && RingFits(q)
    requires x < WaveBytes(q) && y < WaveBytes(q) && SlotBase(q, s) + x == SlotBase(q, t) + y
    ensures s == t && x == y
  {
    SlotInRing(q, s);
    SlotInRing(q, t);
    BaseParts(q.backing, q.perDie, WaveBytes(q), s.die, SlotIndex(q, s), x, t.die, SlotIndex(q, t), y);
    IndexParts(q, s, t);
  }

  lemma IndexParts(q: Scratch, s: Slot, t: Slot)
    requires ValidSlot(q, s) && ValidSlot(q, t) && SlotIndex(q, s) == SlotIndex(q, t)
    ensures s.engine == t.engine && s.scoreboard == t.scoreboard
  {
    MixedRadix(EngineWaves(q), s.engine, s.scoreboard, t.engine, t.scoreboard);
  }

  lemma BaseParts(backing: nat, per: nat, n: nat, die: nat, i: nat, x: nat, die': nat, i': nat, y: nat)
    requires x < n && y < n && (i + 1) * n <= per && (i' + 1) * n <= per
    requires SlotAddress(backing, per, n, die, i) + x == SlotAddress(backing, per, n, die', i') + y
    ensures die == die' && i == i' && x == y
  {
    assert (i + 1) * n == n * i + n && (i' + 1) * n == n * i' + n;
    MixedRadix(per, die, n * i + x, die', n * i' + y);
    MixedRadix(n, i, x, i', y);
  }

  lemma MixedRadix(d: nat, q: nat, r: nat, q': nat, r': nat)
    requires r < d && r' < d && d * q + r == d * q' + r'
    ensures q == q' && r == r'
  {
    DivModUnique(d * q + r, d, q, r);
    DivModUnique(d * q + r, d, q', r');
  }

  /** No two private bytes share storage: bytes of different dies, engines, slots, lanes or
      private addresses have different global addresses. */
  lemma NoSharedStorage(q: Scratch, s: Slot, t: Slot, lanes: nat, lanes': nat, flat: FlatScratch, flat': FlatScratch,
    lane: nat, lane': nat, a: nat, a': nat)
    requires ValidSlot(q, s) && ValidSlot(q, t) && RingFits(q)
    requires lanes in {32, 64} && lanes' in {32, 64} && (s == t ==> lanes == lanes')
    requires a < Null(Swizzled) && a' < Null(Swizzled)
    requires var r, r' := ToGlobal(WaveIn(q, s, lanes, flat), lane, Swizzled, a),
                          ToGlobal(WaveIn(q, t, lanes', flat'), lane', Swizzled, a');
      r.Ok? && r'.Ok? && r.value.address == r'.value.address
    ensures s == t && lane == lane' && a == a'
  {
    var x, y := Swizzle(lanes, lane, a), Swizzle(lanes', lane', a');
    SwizzledInSlot(q, s, lanes, flat, lane, a);
    SwizzledInSlot(q, t, lanes', flat', lane', a');
    SlotsAreDisjoint(q, s, t, x, y);
    SameLane(lanes, lane, a, lane', a');
  }

  lemma SameLane(lanes: nat, lane: nat, a: nat, lane': nat, a': nat)
    requires lane < lanes && lane' < lanes && Swizzle(lanes, lane, a) == Swizzle(lanes, lane', a')
    ensures lane == lane' && a == a'
  {
    SwizzleIsBijection(lanes, lane, a, Swizzle(lanes, lane, a));
    SwizzleIsBijection(lanes, lane', a', Swizzle(lanes, lane, a));
  }

  lemma SwizzledInSlot(q: Scratch, s: Slot, lanes: nat, flat: FlatScratch, lane: nat, a: nat)
    requires q.engines > 0 && a < Null(Swizzled)
    requires ToGlobal(WaveIn(q, s, lanes, flat), lane, Swizzled, a).Ok?
    ensures lane < lanes && Swizzle(lanes, lane, a) < WaveBytes(q)
    ensures ToGlobal(WaveIn(q, s, lanes, flat), lane, Swizzled, a).value.address
      == SlotBase(q, s) + Swizzle(lanes, lane, a)
  {
    SwizzledFits(WaveIn(q, s, lanes, flat), lane, a);
  }

  lemma SwizzledFits(w: Wave, lane: nat, a: nat)
    requires a < Null(Swizzled) && ToGlobal(w, lane, Swizzled, a).Ok?
    ensures lane < w.laneCount && Swizzle(w.laneCount, lane, a) < w.scratchSize
    ensures ToGlobal(w, lane, Swizzled, a).value.address == w.scratchBase + Swizzle(w.laneCount, lane, a)
  {
    assert ToGlobal(w, lane, Swizzled, a) == GlobalAt(w, Swizzle(w.laneCount, lane, a));
  }
}
