/** The queue suspend and resume protocol as a transition system. A queue's state as the
    library reports it differs on purpose from its state on the hardware: `hwSuspended`
    records the latter. Every reply of the driver and everything the hardware does to memory
    is chosen by the environment. */
module QueueSpec {
  import opened Wrappers
  import opened FlatMemory
  import opened CacheSpec

  datatype LaunchMode = LaunchNormal | LaunchHalt | LaunchKill | LaunchSingleStep | LaunchDisable

  datatype QueueState = Invalid | Suspended | Running

  type QueueId = nat

  /** A context save area. */
  datatype Area = Area(base: nat, size: nat)

  /** `wavesRunning` is the number of waves in the running state, known only while it means
      something. */
  datatype QueueView = QueueView(state: QueueState, wavesRunning: Option<nat>, hwSuspended: bool, area: Area)

  datatype ProcessView = ProcessView(mode: LaunchMode, progressNeeded: bool,
                                     queues: map<QueueId, QueueView>, cache: CacheState)

  // ----- context save areas -----

  ghost predicate AreaOk(q: Area) {
    Aligned(q.base) && Aligned(q.size) && q.size > 0 && q.base + q.size <= ADDRESS_SPACE
  }

  ghost predicate InArea(q: Area, a: nat) {
    q.base <= a < q.base + q.size
  }

  ghost predicate Disjoint(q: Area, r: Area) {
    q.base + q.size <= r.base || r.base + r.size <= q.base
  }

  ghost predicate AreaClean(c: CacheState, q: Area) {
    forall l :: l in c.lines && InArea(q, l) ==> !c.lines[l].dirty
  }

  ghost predicate AreaCoherent(c: CacheState, q: Area)
    requires WellFormed(c)
  {
    forall l :: l in c.lines && InArea(q, l) ==> LineCoherent(c, l)
  }

  /** What the hardware would restore from the save area is what the library sees there. */
  ghost predicate AreaCommitted(c: CacheState, q: Area)
    requires WellFormed(c) && q.base + q.size <= ADDRESS_SPACE
  {
    forall a: nat :: InArea(q, a) ==> c.memory[a] == ByteAt(c, a)
  }

  /** The two caches agree on the lines and the memory of the area. */
  ghost predicate AreaSame(c: CacheState, d: CacheState, q: Area)
    requires WellFormed(c) && WellFormed(d) && q.base + q.size <= ADDRESS_SPACE
  {
    && (forall l :: InArea(q, l) ==> (l in c.lines <==> l in d.lines))
    && (forall l :: InArea(q, l) && l in c.lines ==> c.lines[l] == d.lines[l])
    && forall a: nat :: InArea(q, a) ==> c.memory[a] == d.memory[a]
  }

  /** They agree everywhere outside the area. */
  ghost predicate SameOutside(c: CacheState, d: CacheState, q: Area)
    requires WellFormed(c) && WellFormed(d)
  {
    && (forall l :: !InArea(q, l) ==> (l in c.lines <==> l in d.lines))
    && (forall l :: !InArea(q, l) && l in c.lines ==> c.lines[l] == d.lines[l])
    && forall a :: 0 <= a < ADDRESS_SPACE && !InArea(q, a) ==> c.memory[a] == d.memory[a]
  }

  // ----- accesses to a save area while it is suspended -----

  datatype AreaAccess = Poke(address: nat, data: Bytes) | Touch(address: nat, size: nat)

  ghost predicate AccessOk(q: Area, access: AreaAccess) {
    match access
    case Poke(address, data) => q.base <= address && address + |data| <= q.base + q.size
    case Touch(address, size) => q.base <= address && address + size <= q.base + q.size
  }

  ghost predicate AccessesOk(q: Area, accesses: seq<AreaAccess>) {
    forall i :: 0 <= i < |accesses| ==> AccessOk(q, accesses[i])
  }

  ghost function ApplyAccess(c: CacheState, q: Area, access: AreaAccess): (d: CacheState)
    requires WellFormed(c) && AreaOk(q) && AccessOk(q, access)
    ensures WellFormed(d) && SameOutside(c, d, q)
    ensures AreaCoherent(c, q) ==> AreaCoherent(d, q)
  {
    match access
    case Poke(address, data) =>
      PokeIsLocal(c, q, address, data);
      Write(c, address, data)
    case Touch(address, size) =>
      if size == 0 then c else TouchedIsLocal(c, q, address, size); Touched(c, address, size)
  }

  ghost function Touched(c: CacheState, address: nat, size: nat): CacheState
    requires WellFormed(c) && size > 0 && LineEnd(address + size) <= ADDRESS_SPACE
  {
    Prefetch(c, LineOf(address), LineEnd(address + size), LineEnd(address + size) - LineOf(address))
  }

  ghost function ApplyAccesses(c: CacheState, q: Area, accesses: seq<AreaAccess>): (d: CacheState)
    requires WellFormed(c) && AreaOk(q) && AccessesOk(q, accesses)
    ensures WellFormed(d) && SameOutside(c, d, q)
    ensures AreaCoherent(c, q) ==> AreaCoherent(d, q)
    decreases |accesses|
  {
    if accesses == [] then c
    else ApplyAccesses(ApplyAccess(c, q, accesses[0]), q, accesses[1..])
  }

  lemma PokeIsLocal(c: CacheState, q: Area, address: nat, data: Bytes)
    requires WellFormed(c) && AreaOk(q) && AccessOk(q, Poke(address, data))
    ensures var d := Write(c, address, data);
      WellFormed(d) && SameOutside(c, d, q) && (AreaCoherent(c, q) ==> AreaCoherent(d, q))
  {
    var d := Write(c, address, data);
    WriteIsPatch(c, address, data);
    forall l | l in c.lines && !InArea(q, l)
      ensures d.lines[l] == c.lines[l]
    {
      if l < q.base { AlignedGap(l, q.base); }
    }
    if AreaCoherent(c, q) {
      forall l | l in d.lines && InArea(q, l)
        ensures LineCoherent(d, l)
      {
        WriteKeepsLineCoherent(c, address, data, l);
      }
    }
  }

  lemma WriteKeepsLineCoherent(c: CacheState, address: nat, data: Bytes, l: nat)
    requires WellFormed(c) && address + |data| <= ADDRESS_SPACE && l in c.lines && LineCoherent(c, l)
    ensures WellFormed(Write(c, address, data)) && LineCoherent(Write(c, address, data), l)
  {
    var d := Write(c, address, data);
    WriteIsPatch(c, address, data);
    if !d.lines[l].dirty {
      forall i | 0 <= i < LINE_SIZE
        ensures d.lines[l].data[i] == d.memory[l + i]
      {
        LinesAlign(l, l + i);
        assert c.memory[l..l + LINE_SIZE][i] == c.memory[l + i];
      }
    }
  }

  lemma LinesBound(lo: nat, hi: nat, a: nat, b: nat)
    requires Aligned(lo) && Aligned(hi) && lo <= a && b <= hi
    ensures lo <= LineOf(a) && LineEnd(b) <= hi
  {
  }

  lemma TouchedIsLocal(c: CacheState, q: Area, address: nat, size: nat)
    requires WellFormed(c) && AreaOk(q) && AccessOk(q, Touch(address, size)) && size > 0
    ensures LineEnd(address + size) <= ADDRESS_SPACE
    ensures var d := Touched(c, address, size);
      WellFormed(d) && SameOutside(c, d, q) && (AreaCoherent(c, q) ==> AreaCoherent(d, q))
  {
    TouchBounds(q, address, size);
    TouchIsLocal(c, q, LineOf(address), LineEnd(address + size));
  }

  lemma TouchBounds(q: Area, address: nat, size: nat)
    requires AreaOk(q) && AccessOk(q, Touch(address, size)) && size > 0
    ensures q.base <= LineOf(address) < LineEnd(address + size) <= q.base + q.size
  {
    LinesBound(q.base, q.base + q.size, address, address + size);
  }

  lemma TouchIsLocal(c: CacheState, q: Area, begin: nat, end: nat)
    requires WellFormed(c) && AreaOk(q) && Aligned(begin) && Aligned(end)
    requires q.base <= begin <= end <= q.base + q.size
    ensures var d := Prefetch(c, begin, end, end - begin);
      WellFormed(d) && SameOutside(c, d, q) && (AreaCoherent(c, q) ==> AreaCoherent(d, q))
  {
    var d := Prefetch(c, begin, end, end - begin);
    assert WellFormed(d) by { PrefetchKeepsView(c, begin, end); }
    if AreaCoherent(c, q) {
      forall l | l in d.lines && InArea(q, l)
        ensures LineCoherent(d, l)
      {
        if l in c.lines {
          assert LineCoherent(c, l);
        } else {
          assert StagedLine(c.memory, begin, end - begin, l) == c.memory[l..l + LINE_SIZE] by { AlignedGap(l, end); }
        }
      }
    }
  }

  // ----- one queue changes state -----

  /** What the library finds when it decodes a newly saved area: how many waves are in the
      running state, and the prefetches and register writes made on the way. `exited` says
      that the process was found dead before the end. */
  datatype WaveUpdate = WaveUpdate(waves: nat, accesses: seq<AreaAccess>, exited: bool)

  type WaveUpdates = map<QueueId, WaveUpdate>

  function UpdateFor(updates: WaveUpdates, id: QueueId): WaveUpdate {
    if id in updates then updates[id] else WaveUpdate(0, [], false)
  }

  predicate IsAllStopped(mode: LaunchMode, q: QueueView) {
    mode.LaunchHalt? && q.wavesRunning == Some(0)
  }

  function FirstLine(q: Area): nat {
    q.base
  }

  function LastLine(q: Area): nat
    requires q.size > 0
  {
    LineOf(q.base + q.size - 1)
  }

  ghost predicate ProcessOk(p: ProcessView) {
    && WellFormed(p.cache)
    && (forall id :: id in p.queues ==> AreaOk(p.queues[id].area))
    && forall i, j {:trigger Disjoint(p.queues[i].area, p.queues[j].area)} ::
         i in p.queues && j in p.queues && i != j ==> Disjoint(p.queues[i].area, p.queues[j].area)
  }

  /** Nothing but the save areas and the shape of the cache matters for ProcessOk. */
  lemma SameAreasOk(p: ProcessView, r: ProcessView)
    requires ProcessOk(p) && WellFormed(r.cache) && r.queues.Keys == p.queues.Keys
    requires forall i :: i in p.queues ==> r.queues[i].area == p.queues[i].area
    ensures ProcessOk(r)
  {
    forall i, j | i in r.queues && j in r.queues && i != j
      ensures Disjoint(r.queues[i].area, r.queues[j].area)
    {
      assert Disjoint(p.queues[i].area, p.queues[j].area);
    }
  }

  ghost predicate UpdatesOk(p: ProcessView, updates: WaveUpdates) {
    forall id :: id in p.queues ==> AccessesOk(p.queues[id].area, UpdateFor(updates, id).accesses)
  }

  /** The cache after a queue that is not all-stopped has entered `state`. */
  ghost function CacheAfterChange(c: CacheState, q: Area, state: QueueState, update: WaveUpdate): (d: CacheState)
    requires WellFormed(c) && AreaOk(q) && AccessesOk(q, update.accesses)
    ensures WellFormed(d) && SameOutside(c, d, q)
    ensures state.Running? ==> AreaClean(d, q) && (AreaCoherent(c, q) ==> AreaCoherent(d, q) && AreaCommitted(d, q))
    ensures state.Suspended? ==> AreaCoherent(d, q)
  {
    match state
    case Running =>
      WriteBackIsLocal(c, q);
      WriteBack(c, FirstLine(q), LastLine(q))
    case Suspended =>
      DiscardIsLocal(c, q);
      ApplyAccesses(Discard(c, FirstLine(q), LastLine(q)), q, update.accesses)
    case Invalid => c
  }

  /** A queue record after it has entered `state`. */
  ghost function QueueAfterChange(mode: LaunchMode, q: QueueView, state: QueueState, update: WaveUpdate): QueueView {
    if IsAllStopped(mode, q) then q.(state := state)
    else
      match state
      case Running => q.(state := state, wavesRunning := None)
      case Suspended =>
        q.(state := if update.exited then Invalid else Suspended, wavesRunning := Some(update.waves))
      case Invalid => q.(state := state)
  }

  /** The library publishes `state` for queue `id`. */
  ghost function SetState(p: ProcessView, id: QueueId, state: QueueState, update: WaveUpdate): ProcessView
    requires ProcessOk(p) && id in p.queues && AccessesOk(p.queues[id].area, update.accesses)
  {
    var q := p.queues[id];
    if q.state == state then p
    else p.(queues := p.queues[id := QueueAfterChange(p.mode, q, state, update)],
            cache := if IsAllStopped(p.mode, q) then p.cache else CacheAfterChange(p.cache, q.area, state, update))
  }

  lemma SetStateIsLocal(p: ProcessView, id: QueueId, state: QueueState, update: WaveUpdate)
    requires ProcessOk(p) && id in p.queues && AccessesOk(p.queues[id].area, update.accesses)
    ensures var r := SetState(p, id, state, update);
      && ProcessOk(r) && r.queues.Keys == p.queues.Keys
      && forall i :: i in p.queues && i != id ==>
           r.queues[i] == p.queues[i] && AreaSame(p.cache, r.cache, p.queues[i].area)
  {
    var r := SetState(p, id, state, update);
    SameAreasOk(p, r);
    assert SameOutside(p.cache, r.cache, p.queues[id].area);
    forall i | i in p.queues && i != id
      ensures AreaSame(p.cache, r.cache, p.queues[i].area)
    {
      assert Disjoint(p.queues[id].area, p.queues[i].area);
      OutsideIsSame(p.cache, r.cache, p.queues[id].area, p.queues[i].area);
    }
  }

  lemma OutsideIsSame(c: CacheState, d: CacheState, q: Area, r: Area)
    requires WellFormed(c) && WellFormed(d) && AreaOk(q) && AreaOk(r) && Disjoint(q, r)
    requires SameOutside(c, d, q)
    ensures AreaSame(c, d, r)
  {
  }

  lemma AreaLines(q: Area, l: nat)
    requires AreaOk(q)
    ensures LastLine(q) + LINE_SIZE == q.base + q.size
    ensures Aligned(l) ==> (FirstLine(q) <= l <= LastLine(q) <==> InArea(q, l))
    ensures InArea(q, LineOf(l)) <==> InArea(q, l)
  {
    LineInside(q.base, q.base + q.size, l);
    if Aligned(l) && l > LastLine(q) { AlignedGap(LastLine(q), l); }
  }

  lemma WriteBackIsLocal(c: CacheState, q: Area)
    requires WellFormed(c) && AreaOk(q)
    ensures var d := WriteBack(c, FirstLine(q), LastLine(q));
      && WellFormed(d) && SameOutside(c, d, q) && AreaClean(d, q)
      && (AreaCoherent(c, q) ==> AreaCoherent(d, q) && AreaCommitted(d, q))
  {
    var d := WriteBack(c, FirstLine(q), LastLine(q));
    WriteBackKeepsView(c, FirstLine(q), LastLine(q));
    forall l: nat
      ensures l in c.lines ==> (FirstLine(q) <= l <= LastLine(q) <==> InArea(q, l))
      ensures InArea(q, LineOf(l)) <==> InArea(q, l)
    {
      AreaLines(q, l);
    }
    if AreaCoherent(c, q) {
      forall a: nat | InArea(q, a)
        ensures d.memory[a] == ByteAt(d, a)
      {
        AreaLines(q, LineOf(a));
        WriteBackAgrees(c, FirstLine(q), LastLine(q), a);
        assert View(d)[a] == View(c)[a];
      }
      forall l | l in d.lines && InArea(q, l)
        ensures LineCoherent(d, l)
      {
        CommittedLine(d, q, l);
      }
    }
  }

  lemma CommittedLine(d: CacheState, q: Area, l: nat)
    requires WellFormed(d) && AreaOk(q) && AreaCommitted(d, q) && l in d.lines && InArea(q, l)
    ensures LineCoherent(d, l)
  {
    AlignedGap(l, q.base + q.size);
    forall i | 0 <= i < LINE_SIZE
      ensures d.lines[l].data[i] == d.memory[l + i]
    {
      LinesAlign(l, l + i);
      assert ByteAt(d, l + i) == d.memory[l + i];
    }
  }

  lemma DiscardIsLocal(c: CacheState, q: Area)
    requires WellFormed(c) && AreaOk(q)
    ensures var d := Discard(c, FirstLine(q), LastLine(q));
      WellFormed(d) && SameOutside(c, d, q) && forall l :: l in d.lines ==> !InArea(q, l)
  {
    forall l | l in c.lines
      ensures FirstLine(q) <= l <= LastLine(q) <==> InArea(q, l)
    {
      AreaLines(q, l);
    }
  }
}
