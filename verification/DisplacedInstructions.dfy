/** The pool of instruction buffers a queue keeps in the memory reserved for the debugger. A buffer
    is a chunk of 32 bytes: the instruction ends where the guard instruction, at the end of the chunk,
    begins. */
module DisplacedInstructions {
  import opened Wrappers
  import opened FlatMemory

  const CHUNK: nat := 32
  const MAX_CHUNKS: nat := 0xFFFF

  datatype Result<T> = Ok(value: T) | Fatal

  /** The free list is used from its end. `live` is the instruction each allocated chunk holds. */
  datatype Pool = Pool(base: nat, count: nat, next: nat, free: seq<nat>, live: map<nat, Bytes>, memory: Bytes)

  /** Where the chunks start and how many there are, from the reserved memory announced in the
      header of the context save area at `area`. */
  function Reserve(area: nat, offset: nat, size: nat): Result<(nat, nat)> {
    if offset == 0 || size == 0 then Fatal
    else
      var base := AlignUp(area + offset, CHUNK);
      var bytes := area + size + offset - base;
      if bytes < 0 || bytes / CHUNK > MAX_CHUNKS then Fatal else Ok((base, bytes / CHUNK))
  }

  function ChunkAt(p: Pool, i: nat): nat { p.base + i * 32 }

  function GuardAt(p: Pool, guard: Bytes, i: nat): int { ChunkAt(p, i) + 32 - |guard| }

  function BufferAt(p: Pool, guard: Bytes, i: nat, instruction: Bytes): int {
    ChunkAt(p, i) + 32 - |guard| - |instruction|
  }

  predicate FitsChunk(guard: Bytes, instruction: Bytes) {
    |guard| > 0 && |instruction| > 0 && |instruction| + |guard| <= CHUNK
  }

  predicate Holds(m: Bytes, at: int, data: Bytes) {
    0 <= at && at + |data| <= |m| && m[at..at + |data|] == data
  }

  ghost predicate LiveOk(p: Pool, guard: Bytes, i: nat)
    requires i in p.live
  {
    FitsChunk(guard, p.live[i]) && Holds(p.memory, BufferAt(p, guard, i, p.live[i]), p.live[i])
  }

  /** Live and free chunks are the chunks used so far, each in one of the two and once. */
  ghost predicate Bookkeeping(p: Pool) {
    && p.next <= p.count <= MAX_CHUNKS
    && Distinct(p.free)
    && (forall i: nat :: Used(p, i) <==> i in p.live || i in p.free)
    && (forall i :: i in p.live ==> i !in p.free)
  }

  predicate Used(p: Pool, i: nat) { i < p.next }

  ghost predicate GuardOk(p: Pool, guard: Bytes, i: nat) {
    Holds(p.memory, GuardAt(p, guard, i), guard)
  }

  /** Every live buffer holds its instruction, and every chunk used so far ends in the guard. */
  ghost predicate Contents(p: Pool, guard: Bytes) {
    && |guard| <= CHUNK && p.base + p.count * 32 <= |p.memory|
    && (forall i :: i in p.live ==> LiveOk(p, guard, i))
    && (forall i: nat :: Used(p, i) ==> GuardOk(p, guard, i))
  }

  ghost predicate Inv(p: Pool, guard: Bytes) {
    Bookkeeping(p) && Contents(p, guard)
  }

  function Index(p: Pool): nat {
    if |p.free| > 0 then p.free[|p.free| - 1] else p.next
  }

  predicate Full(p: Pool) { |p.free| == 0 && p.next >= p.count }

  ghost function Allocated(p: Pool, guard: Bytes, instruction: Bytes): Pool
    requires FitsChunk(guard, instruction) && !Full(p)
    requires ChunkAt(p, Index(p)) + 32 <= |p.memory|
  {
    var i := Index(p);
    var taken := Taken(p, guard);
    taken.(live := p.live[i := instruction],
           memory := Patch(taken.memory, BufferAt(p, guard, i, instruction), instruction))
  }

  /** A chunk is taken off the free list, or is the first one never used, which gets its guard. */
  ghost function Taken(p: Pool, guard: Bytes): (t: Pool)
    requires |guard| <= CHUNK && !Full(p) && ChunkAt(p, Index(p)) + 32 <= |p.memory|
    ensures |t.memory| == |p.memory|
  {
    if |p.free| > 0 then p.(free := p.free[..|p.free| - 1])
    else p.(next := p.next + 1, memory := Patch(p.memory, GuardAt(p, guard, p.next), guard))
  }

  function IndexOf(p: Pool, ptr: nat): nat
    requires p.base <= ptr
  {
    (ptr - p.base) / 32
  }

  ghost function Released(p: Pool, ptr: nat): Pool
    requires p.base <= ptr
  {
    p.(free := p.free + [IndexOf(p, ptr)], live := p.live - {IndexOf(p, ptr)})
  }

  // ----- every step keeps the pool sound -----

  lemma PatchKeeps(m: Bytes, at: int, data: Bytes, other: int, kept: Bytes)
    requires 0 <= at && at + |data| <= |m| && Holds(m, other, kept)
    requires other + |kept| <= at || at + |data| <= other
    ensures Holds(Patch(m, at, data), other, kept)
  {
  }

  lemma PatchHolds(m: Bytes, at: int, data: Bytes)
    requires 0 <= at && at + |data| <= |m|
    ensures Holds(Patch(m, at, data), at, data)
  {
  }

  /** After an allocation in chunk `i`, which held no instruction, the instruction and the guard are
      in place, */
  lemma ChunkWritten(p: Pool, guard: Bytes, i: nat, instruction: Bytes)
    requires p.base + i * 32 + 32 <= |p.memory| && FitsChunk(guard, instruction) && !Full(p) && i == Index(p)
    requires |p.free| == 0 || GuardOk(p, guard, i)
    ensures var memory := Allocated(p, guard, instruction).memory;
      Holds(memory, BufferAt(p, guard, i, instruction), instruction) && Holds(memory, GuardAt(p, guard, i), guard)
  {
    TwoPatchesHold(p.memory, |p.free| == 0, GuardAt(p, guard, i), guard, BufferAt(p, guard, i, instruction), instruction);
  }

  /** and other chunks keep what they hold. */
  lemma OtherChunkKept(p: Pool, guard: Bytes, i: nat, instruction: Bytes, k: nat, at: int, kept: Bytes)
    requires p.base + i * 32 + 32 <= |p.memory| && FitsChunk(guard, instruction) && !Full(p) && i == Index(p) != k
    requires ChunkAt(p, k) <= at && at + |kept| <= ChunkAt(p, k) + 32 && Holds(p.memory, at, kept)
    ensures Holds(Allocated(p, guard, instruction).memory, at, kept)
  {
    TwoPatchesKeep(p.memory, |p.free| == 0, GuardAt(p, guard, i), guard, BufferAt(p, guard, i, instruction), instruction, at, kept);
  }

  lemma TwoPatchesHold(m: Bytes, both: bool, guardAt: int, guard: Bytes, at: int, instruction: Bytes)
    requires 0 <= at && at + |instruction| == guardAt && guardAt + |guard| <= |m| && (both || Holds(m, guardAt, guard))
    ensures var m' := Patch(if both then Patch(m, guardAt, guard) else m, at, instruction);
      Holds(m', at, instruction) && Holds(m', guardAt, guard)
  {
    var guarded := if both then Patch(m, guardAt, guard) else m;
    if both { PatchHolds(m, guardAt, guard); }
    PatchHolds(guarded, at, instruction);
    PatchKeeps(guarded, at, instruction, guardAt, guard);
  }

  /** Writes that end where a chunk ends leave what lies outside the chunk. */
  lemma TwoPatchesKeep(m: Bytes, both: bool, guardAt: int, guard: Bytes, at: int, instruction: Bytes, other: int, kept: Bytes)
    requires 0 <= at && at + |instruction| == guardAt && guardAt + |guard| <= |m| && Holds(m, other, kept)
    requires other + |kept| <= at || guardAt + |guard| <= other
    ensures Holds(Patch(if both then Patch(m, guardAt, guard) else m, at, instruction), other, kept)
  {
    if both { PatchKeeps(m, guardAt, guard, other, kept); }
    PatchKeeps(if both then Patch(m, guardAt, guard) else m, at, instruction, other, kept);
  }

  lemma AllocateKeepsInv(p: Pool, guard: Bytes, instruction: Bytes)
    requires Inv(p, guard) && FitsChunk(guard, instruction) && !Full(p)
    ensures Index(p) < p.count && Index(p) !in p.live && ChunkAt(p, Index(p)) + 32 <= |p.memory|
    ensures Inv(Allocated(p, guard, instruction), guard)
  {
    var i := Index(p);
    IndexIsFree(p);
    var p' := Allocated(p, guard, instruction);
    AllocateKeepsBookkeeping(p, guard, instruction);
    assert |p.free| > 0 ==> GuardOk(p, guard, i);
    forall k | k in p'.live
      ensures LiveOk(p', guard, k)
    {
      assert k == i || LiveOk(p, guard, k);
      AllocateKeepsLive(p, guard, instruction, k);
    }
    forall k: nat | Used(p', k)
      ensures GuardOk(p', guard, k)
    {
      assert k == i || (Used(p, k) && GuardOk(p, guard, k));
      AllocateKeepsGuard(p, guard, instruction, k);
    }
  }

  lemma AllocateKeepsLive(p: Pool, guard: Bytes, instruction: Bytes, k: nat)
    requires ChunkAt(p, Index(p)) + 32 <= |p.memory| && FitsChunk(guard, instruction) && !Full(p)
    requires |p.free| == 0 || GuardOk(p, guard, Index(p))
    requires k == Index(p) || (k in p.live && LiveOk(p, guard, k))
    ensures LiveOk(Allocated(p, guard, instruction), guard, k)
  {
    ChunkWritten(p, guard, Index(p), instruction);
    if k != Index(p) {
      OtherChunkKept(p, guard, Index(p), instruction, k, BufferAt(p, guard, k, p.live[k]), p.live[k]);
    }
  }

  lemma AllocateKeepsGuard(p: Pool, guard: Bytes, instruction: Bytes, k: nat)
    requires ChunkAt(p, Index(p)) + 32 <= |p.memory| && FitsChunk(guard, instruction) && !Full(p)
    requires |p.free| == 0 || GuardOk(p, guard, Index(p))
    requires k == Index(p) || GuardOk(p, guard, k)
    ensures GuardOk(Allocated(p, guard, instruction), guard, k)
  {
    ChunkWritten(p, guard, Index(p), instruction);
    if k != Index(p) {
      OtherChunkKept(p, guard, Index(p), instruction, k, GuardAt(p, guard, k), guard);
    }
  }

  lemma IndexIsFree(p: Pool)
    requires Bookkeeping(p) && !Full(p)
    ensures Index(p) < p.count && Index(p) !in p.live && (|p.free| > 0 ==> Used(p, Index(p)))
  {
    if |p.free| > 0 {
      assert p.free[|p.free| - 1] in p.free;
    }
    assert Used(p, Index(p)) <==> Index(p) in p.live || Index(p) in p.free;
  }

  lemma AllocateKeepsBookkeeping(p: Pool, guard: Bytes, instruction: Bytes)
    requires Inv(p, guard) && FitsChunk(guard, instruction) && !Full(p)
    requires Index(p) < p.count && Index(p) !in p.live && ChunkAt(p, Index(p)) + 32 <= |p.memory|
    ensures Bookkeeping(Allocated(p, guard, instruction))
  {
    var p' := Allocated(p, guard, instruction);
    var i := Index(p);
    if |p.free| > 0 {
      assert p.free == p'.free + [i];
      assert i !in p'.free;
    } else {
      assert !Used(p, i);
    }
    forall k: nat
      ensures Used(p', k) <==> k in p'.live || k in p'.free
    {
      assert Used(p, k) <==> k in p.live || k in p.free;
    }
  }

  /** What an allocation writes: at the end of a chunk that held no instruction, the new instruction with
      the guard directly behind it. The memory outside the chunk and the other instructions stay. */
  lemma GuardFollows(p: Pool, guard: Bytes, instruction: Bytes)
    requires Inv(p, guard) && FitsChunk(guard, instruction) && !Full(p)
    ensures var i := Index(p); i < p.count && i !in p.live && ChunkAt(p, i) + 32 <= |p.memory|
    ensures var i, at, q := Index(p), BufferAt(p, guard, Index(p), instruction), Allocated(p, guard, instruction);
      && Holds(q.memory, at, instruction + guard) && at + |instruction| + |guard| == p.base + (i + 1) * 32
      && q.live == p.live[i := instruction] && |q.memory| == |p.memory|
      && forall a :: 0 <= a < |p.memory| && !(p.base + i * 32 <= a < p.base + (i + 1) * 32) ==> q.memory[a] == p.memory[a]
  {
    IndexIsFree(p);
    var i, at := Index(p), BufferAt(p, guard, Index(p), instruction);
    assert |p.free| > 0 ==> GuardOk(p, guard, i);
    ChunkWritten(p, guard, i, instruction);
    HoldsBoth(Allocated(p, guard, instruction).memory, at, instruction, guard);
  }

  lemma HoldsBoth(m: Bytes, at: int, first: Bytes, second: Bytes)
    requires Holds(m, at, first) && Holds(m, at + |first|, second)
    ensures Holds(m, at, first + second)
  {
    assert m[at..at + |first| + |second|] == m[at..at + |first|] + m[at + |first|..at + |first| + |second|];
  }

  /** The address of a live buffer gives back its chunk by division. */
  lemma AddressNamesChunk(p: Pool, guard: Bytes, i: nat)
    requires Inv(p, guard) && i in p.live
    ensures Used(p, i) && p.base <= BufferAt(p, guard, i, p.live[i])
    ensures IndexOf(p, BufferAt(p, guard, i, p.live[i])) == i
  {
    assert LiveOk(p, guard, i);
  }

  lemma ReleaseKeepsInv(p: Pool, guard: Bytes, i: nat)
    requires Inv(p, guard) && i in p.live
    ensures var ptr := BufferAt(p, guard, i, p.live[i]);
      p.base <= ptr && Inv(Released(p, ptr), guard)
  {
    AddressNamesChunk(p, guard, i);
    ReleaseKeepsUse(p, guard, i);
    var p' := Released(p, BufferAt(p, guard, i, p.live[i]));
    forall k | k in p'.live
      ensures LiveOk(p', guard, k)
    {
      assert LiveOk(p, guard, k);
      StaysLive(p, p', guard, k);
    }
    forall k: nat | Used(p', k)
      ensures GuardOk(p', guard, k)
    {
      assert GuardOk(p, guard, k);
      StaysGuarded(p, p', guard, k);
    }
  }

  lemma StaysLive(p: Pool, p': Pool, guard: Bytes, k: nat)
    requires k in p.live && LiveOk(p, guard, k) && k in p'.live && p'.live[k] == p.live[k]
    requires p' == p.(live := p'.live, free := p'.free)
    ensures LiveOk(p', guard, k)
  {
  }

  lemma StaysGuarded(p: Pool, p': Pool, guard: Bytes, k: nat)
    requires Used(p, k) && GuardOk(p, guard, k) && p' == p.(live := p'.live, free := p'.free)
    ensures GuardOk(p', guard, k)
  {
  }

  lemma ReleaseKeepsUse(p: Pool, guard: Bytes, i: nat)
    requires Inv(p, guard) && i in p.live
    ensures p.base <= BufferAt(p, guard, i, p.live[i])
    ensures var p' := Released(p, BufferAt(p, guard, i, p.live[i]));
      forall k: nat :: Used(p', k) <==> k in p'.live || k in p'.free
  {
    AddressNamesChunk(p, guard, i);
    var p' := Released(p, BufferAt(p, guard, i, p.live[i]));
    assert Used(p, i);
    forall k: nat
      ensures Used(p', k) <==> k in p'.live || k in p'.free
    {
      assert Used(p, k) <==> k in p.live || k in p.free;
    }
  }

  /** An allocation fails exactly when every chunk of the reserved memory is live. */
  lemma FullExactly(p: Pool, guard: Bytes)
    requires Inv(p, guard)
    ensures Full(p) <==> forall i: nat :: i < p.count ==> i in p.live
  {
    if |p.free| > 0 {
      assert p.free[0] in p.free && Used(p, p.free[0]) && p.free[0] !in p.live;
    } else if p.next < p.count {
      assert !Used(p, p.next);
    } else {
      forall i: nat | i < p.count ensures i in p.live { assert Used(p, i); }
    }
  }

  /** Live buffers never overlap one another or a guard, and lie in the chunks. */
  lemma BuffersAreApart(p: Pool, guard: Bytes, i: nat, j: nat)
    requires Inv(p, guard) && i in p.live && Used(p, j)
    ensures var at, n := BufferAt(p, guard, i, p.live[i]), |p.live[i]|;
      && p.base <= at && at + n <= p.base + p.count * 32
      && (at + n <= GuardAt(p, guard, j) || GuardAt(p, guard, j) + |guard| <= at)
      && (j in p.live && i != j ==>
            || at + n <= BufferAt(p, guard, j, p.live[j])
            || BufferAt(p, guard, j, p.live[j]) + |p.live[j]| <= at)
  {
    assert LiveOk(p, guard, i);
    if j in p.live { assert LiveOk(p, guard, j); }
  }

  /** The chunks are aligned and lie in the memory reserved, and as many fit as there is room
      for after alignment. */
  lemma ReservedExactly(area: nat, offset: nat, size: nat)
    ensures match Reserve(area, offset, size)
      case Ok((base, count)) =>
        && base % 32 == 0 && area + offset <= base < area + offset + 32
        && base + count * 32 <= area + offset + size < base + count * 32 + 32
      case Fatal => true
    ensures Reserve(area, offset, size).Fatal? <==>
      var base := AlignUp(area + offset, CHUNK);
      || offset == 0 || size == 0 || area + offset + size < base
      || area + offset + size >= base + (MAX_CHUNKS + 1) * 32
  {
  }

  // ----- runs -----

  datatype Step =
    | Allocate(instruction: Bytes)
    | Release(chunk: nat)
    | WriteElsewhere(at: nat, data: Bytes)

  ghost predicate Allowed(p: Pool, guard: Bytes, step: Step) {
    match step
    case Allocate(instruction) => FitsChunk(guard, instruction) && !Full(p)
    case Release(chunk) => chunk in p.live
    case WriteElsewhere(at, data) =>
      at + |data| <= |p.memory| && (at + |data| <= p.base || p.base + p.count * 32 <= at)
  }

  ghost function Next(p: Pool, guard: Bytes, step: Step): Pool
    requires Inv(p, guard) && Allowed(p, guard, step)
  {
    match step
    case Allocate(instruction) => AllocateKeepsInv(p, guard, instruction); Allocated(p, guard, instruction)
    case Release(chunk) => AddressNamesChunk(p, guard, chunk); Released(p, BufferAt(p, guard, chunk, p.live[chunk]))
    case WriteElsewhere(at, data) => p.(memory := Patch(p.memory, at, data))
  }

  lemma WriteKeepsInv(p: Pool, guard: Bytes, at: nat, data: Bytes)
    requires Inv(p, guard) && Allowed(p, guard, WriteElsewhere(at, data))
    ensures Inv(p.(memory := Patch(p.memory, at, data)), guard)
  {
    var p' := p.(memory := Patch(p.memory, at, data));
    forall k: nat
      ensures Used(p', k) <==> k in p'.live || k in p'.free
      ensures Used(p', k) ==> GuardOk(p', guard, k)
    {
      assert Used(p, k) <==> k in p.live || k in p.free;
      if Used(p, k) {
        assert GuardOk(p, guard, k);
        PatchKeeps(p.memory, at, data, GuardAt(p, guard, k), guard);
      }
    }
    forall i | i in p'.live
      ensures LiveOk(p', guard, i)
    {
      WriteKeepsLive(p, guard, at, data, i);
    }
  }

  lemma WriteKeepsLive(p: Pool, guard: Bytes, at: nat, data: Bytes, i: nat)
    requires Inv(p, guard) && Allowed(p, guard, WriteElsewhere(at, data)) && i in p.live
    ensures LiveOk(p.(memory := Patch(p.memory, at, data)), guard, i)
  {
    assert LiveOk(p, guard, i) && Used(p, i);
    PatchKeeps(p.memory, at, data, BufferAt(p, guard, i, p.live[i]), p.live[i]);
  }

  lemma StepKeepsInv(p: Pool, guard: Bytes, step: Step)
    requires Inv(p, guard) && Allowed(p, guard, step)
    ensures Inv(Next(p, guard, step), guard)
  {
    match step
    case Allocate(instruction) => AllocateKeepsInv(p, guard, instruction);
    case Release(chunk) => ReleaseKeepsInv(p, guard, chunk);
    case WriteElsewhere(at, data) => WriteKeepsInv(p, guard, at, data);
  }

  lemma StepKeepsLive(p: Pool, guard: Bytes, step: Step, i: nat)
    requires Inv(p, guard) && Allowed(p, guard, step) && i in p.live && step != Release(i)
    ensures var q := Next(p, guard, step);
      i in q.live && q.live[i] == p.live[i] && q.base == p.base
  {
    match step
    case Allocate(instruction) => IndexIsFree(p);
    case Release(chunk) => AddressNamesChunk(p, guard, chunk);
    case WriteElsewhere(_, _) =>
  }

  ghost predicate LegalRun(p: Pool, guard: Bytes, steps: seq<Step>)
    requires Inv(p, guard)
    decreases |steps|
  {
    steps == [] || (
      Allowed(p, guard, steps[0]) && (StepKeepsInv(p, guard, steps[0]); LegalRun(Next(p, guard, steps[0]), guard, steps[1..])))
  }

  ghost function RunOf(p: Pool, guard: Bytes, steps: seq<Step>): Pool
    requires Inv(p, guard) && LegalRun(p, guard, steps)
    decreases |steps|
  {
    if steps == [] then p
    else StepKeepsInv(p, guard, steps[0]); RunOf(Next(p, guard, steps[0]), guard, steps[1..])
  }

  /** In every run of allocations, releases and writes to other memory, a buffer that is not
      released keeps its instruction at the address it was given. */
  lemma {:induction false} BuffersSurvive(p: Pool, guard: Bytes, steps: seq<Step>, i: nat)
    requires Inv(p, guard) && LegalRun(p, guard, steps) && i in p.live && Release(i) !in steps
    ensures var q := RunOf(p, guard, steps);
      && i in q.live && q.live[i] == p.live[i] && q.base == p.base
      && Holds(q.memory, BufferAt(p, guard, i, p.live[i]), p.live[i])
    decreases |steps|
  {
    if steps != [] {
      assert steps[0] in steps;
      StepKeepsInv(p, guard, steps[0]);
      StepKeepsLive(p, guard, steps[0], i);
      BuffersSurvive(Next(p, guard, steps[0]), guard, steps[1..], i);
    } else {
      assert LiveOk(p, guard, i);
    }
  }

  /** In every run the pool stays sound: live and free chunks partition those used, every live
      buffer holds its instruction, and every guard stays in place. */
  lemma {:induction false} EveryRunIsSound(p: Pool, guard: Bytes, steps: seq<Step>)
    requires Inv(p, guard) && LegalRun(p, guard, steps)
    ensures Inv(RunOf(p, guard, steps), guard)
    decreases |steps|
  {
    if steps != [] {
      StepKeepsInv(p, guard, steps[0]);
      EveryRunIsSound(Next(p, guard, steps[0]), guard, steps[1..]);
    }
  }

  function Balance(steps: seq<Step>): int {
    if steps == [] then 0
    else Balance(steps[1..]) + if steps[0].Allocate? then 1 else if steps[0].Release? then -1 else 0
  }

  /** Every allocation adds one live buffer and every release takes one away. */
  lemma {:induction false} LiveIsBalanced(p: Pool, guard: Bytes, steps: seq<Step>)
    requires Inv(p, guard) && LegalRun(p, guard, steps)
    ensures |RunOf(p, guard, steps).live| == |p.live| + Balance(steps)
    decreases |steps|
  {
    if steps != [] {
      StepKeepsInv(p, guard, steps[0]);
      StepCounts(p, guard, steps[0]);
      LiveIsBalanced(Next(p, guard, steps[0]), guard, steps[1..]);
    }
  }

  lemma StepCounts(p: Pool, guard: Bytes, step: Step)
    requires Inv(p, guard) && Allowed(p, guard, step)
    ensures |Next(p, guard, step).live| == |p.live| + if step.Allocate? then 1 else if step.Release? then -1 else 0
  {
    match step
    case Allocate(instruction) => IndexIsFree(p);
    case Release(chunk) =>
      AddressNamesChunk(p, guard, chunk);
      assert p.live == (p.live - {chunk})[chunk := p.live[chunk]];
    case WriteElsewhere(_, _) =>
  }

  // ----- the queue's allocator -----

  class Allocator {
    const guard: Bytes
    const base: nat
    const count: nat
    var next: nat
    var free: seq<nat>
    var memory: Bytes
    ghost var live: map<nat, Bytes>

    ghost function Abs(): Pool
      reads this
    {
      Pool(base, count, next, free, live, memory)
    }

    ghost predicate Valid()
      reads this
    {
      Inv(Abs(), guard)
    }

    constructor (guard: Bytes, base: nat, count: nat, memory: Bytes)
      requires |guard| <= CHUNK && count <= MAX_CHUNKS && base + count * 32 <= |memory|
      ensures Valid() && this.guard == guard && Abs() == Pool(base, count, 0, [], map[], memory)
    {
      this.guard := guard;
      this.base := base;
      this.count := count;
      this.memory := memory;
      next := 0;
      free := [];
      live := map[];
    }

    /** Places an instruction in a buffer of its own and returns its address. */
    method Allocate(instruction: Bytes) returns (r: Result<nat>)
      requires Valid() && FitsChunk(guard, instruction)
      modifies this
      ensures Valid()
      ensures r.Fatal? <==> old(Full(Abs()))
      ensures r.Fatal? ==> Abs() == old(Abs())
      ensures r.Ok? ==>
        && old(ChunkAt(Abs(), Index(Abs())) + 32 <= |memory|)
        && Abs() == Allocated(old(Abs()), guard, instruction)
        && r.value == BufferAt(Abs(), guard, old(Index(Abs())), instruction)
    {
      if |free| == 0 && next >= count {
        return Fatal;
      }
      ghost var before := Abs();
      AllocateKeepsInv(before, guard, instruction);
      var index := TakeChunk();
      StoreInstruction(index, instruction, before);
      r := Ok(base + index * 32 + 32 - |guard| - |instruction|);
    }

    method StoreInstruction(index: nat, instruction: Bytes, ghost before: Pool)
      requires FitsChunk(guard, instruction) && !Full(before) && ChunkAt(before, Index(before)) + 32 <= |before.memory|
      requires index == Index(before) && Abs() == Taken(before, guard)
      modifies this
      ensures Abs() == Allocated(before, guard, instruction)
    {
      memory := Patch(memory, base + index * 32 + 32 - |guard| - |instruction|, instruction);
      live := live[index := instruction];
    }

    method TakeChunk() returns (index: nat)
      requires |guard| <= CHUNK && !Full(Abs()) && ChunkAt(Abs(), Index(Abs())) + 32 <= |memory|
      modifies this
      ensures index == old(Index(Abs())) && Abs() == Taken(old(Abs()), guard)
    {
      if |free| > 0 {
        index := free[|free| - 1];
        free := free[..|free| - 1];
      } else {
        index := next;
        next := next + 1;
        memory := Patch(memory, base + index * 32 + 32 - |guard|, guard);
      }
    }

    /** Returns the buffer at `ptr` to the free list. */
    method Release(ptr: nat, ghost chunk: nat)
      requires Valid() && chunk in live && ptr == BufferAt(Abs(), guard, chunk, live[chunk])
      modifies this
      ensures Valid() && base <= ptr && Abs() == Released(old(Abs()), ptr) && chunk !in live && chunk in free
    {
      AddressNamesChunk(Abs(), guard, chunk);
      ReleaseKeepsInv(Abs(), guard, chunk);
      var index := (ptr - base) / 32;
      assert index < count;
      free := free + [index];
      live := live - {index};
    }
  }
}
