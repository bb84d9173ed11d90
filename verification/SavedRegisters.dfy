/** Editing the registers of saved waves through the memory cache. */
module SavedRegisters {
  import opened Wrappers
  import opened FlatMemory
  import opened RegisterLayout
  import opened ControlStack
  import CacheSpec
  import QueueSpec
  import QueueProtocol
  import QueueRuns

  /** The waves found on a control stack and their records, all inside the address space. */
  ghost predicate SaveArea(f: Family, waves: seq<Saved>, records: seq<Record>, top: nat, bottom: nat) {
    AllOk(f, waves) && Descending(f, waves, records, top, bottom) && top <= ADDRESS_SPACE
  }

  function ShapeOfWave(f: Family, w: Saved): Shape
    requires IsSaved(f, w)
  {
    ShapeOf(f, w.wave, w.state.first)
  }

  /** Register `r` of wave `i`: where it is saved, and how long it is. */
  ghost predicate IsSavedAt(f: Family, waves: seq<Saved>, records: seq<Record>, i: nat, r: Register, at: int, n: nat) {
    && i < |waves| == |records| && IsSaved(f, waves[i]) && IsNumber(r)
    && ValidShape(f, ShapeOfWave(f, waves[i]))
    && Address(f, ShapeOfWave(f, waves[i]), records[i].end, r) == Some(at)
    && n == RegisterBytes(ShapeOfWave(f, waves[i]), r)
  }

  /** Two registers of two waves share storage: the waves are the same and the registers aliases. */
  ghost predicate SameStorage(f: Family, waves: seq<Saved>, i: nat, r: Register, j: nat, r': Register)
    requires i < |waves| && IsSaved(f, waves[i]) && ValidShape(f, ShapeOfWave(f, waves[i]))
  {
    && i == j
    && Place(f, ShapeOfWave(f, waves[i]), r).Some? && Place(f, ShapeOfWave(f, waves[i]), r').Some?
    && Share(Place(f, ShapeOfWave(f, waves[i]), r).value, Place(f, ShapeOfWave(f, waves[i]), r').value)
  }

  lemma SavedInArea(f: Family, waves: seq<Saved>, records: seq<Record>, top: nat, bottom: nat, i: nat, r: Register, at: int, n: nat)
    requires SaveArea(f, waves, records, top, bottom) && IsSavedAt(f, waves, records, i, r, at, n)
    ensures bottom <= at && at + n <= top
  {
    RegistersInside(f, ShapeOfWave(f, waves[i]), records[i].end, r);
    assert IsRecordOf(f, records[i], waves[i], Above(records, i, top));
    DescendingIsStacked(f, waves, records, top, bottom);
    InArea(records, top, Gap(f), i);
  }

  /** Registers that do not share storage lie apart, in one wave or in two. */
  lemma SavedApart(f: Family, waves: seq<Saved>, records: seq<Record>, top: nat, bottom: nat,
    i: nat, r: Register, at: int, n: nat, j: nat, r': Register, at': int, n': nat)
    requires SaveArea(f, waves, records, top, bottom)
    requires IsSavedAt(f, waves, records, i, r, at, n) && IsSavedAt(f, waves, records, j, r', at', n')
    ensures RangesMeet(at, n, at', n') <==> SameStorage(f, waves, i, r, j, r')
  {
    if i == j {
      RegistersOverlapExactly(f, ShapeOfWave(f, waves[i]), records[i].end, r, r');
    } else {
      WavesDoNotOverlap(f, waves, records, top, bottom, i, j, r, r');
    }
  }

  /** Writing a register of one saved wave through the cache gives that register the new value and
      leaves, as the library sees it, every register of every wave that does not share its
      storage, whichever lines are cached. */
  lemma WriteOneRegister(s: CacheSpec.CacheState, f: Family, waves: seq<Saved>, records: seq<Record>, top: nat, bottom: nat,
    i: nat, r: Register, at: int, data: Bytes, j: nat, r': Register, at': int, n': nat)
    requires CacheSpec.WellFormed(s) && SaveArea(f, waves, records, top, bottom)
    requires IsSavedAt(f, waves, records, i, r, at, |data|) && IsSavedAt(f, waves, records, j, r', at', n')
    requires n' > 0 && |data| > 0 && !SameStorage(f, waves, i, r, j, r')
    ensures 0 <= at && at + |data| <= ADDRESS_SPACE && 0 <= at' && at' + n' <= ADDRESS_SPACE
    ensures var t := CacheSpec.Write(s, at, data);
      && CacheSpec.WellFormed(t)
      && CacheSpec.View(t)[at..at + |data|] == data
      && CacheSpec.View(t)[at'..at' + n'] == CacheSpec.View(s)[at'..at' + n']
  {
    SavedInArea(f, waves, records, top, bottom, i, r, at, |data|);
    SavedInArea(f, waves, records, top, bottom, j, r', at', n');
    SavedApart(f, waves, records, top, bottom, i, r, at, |data|, j, r', at', n');
    CacheSpec.WriteIsPatch(s, at, data);
    PatchSpares(CacheSpec.View(s), at, data, at', n');
  }

  lemma PatchSpares(v: Bytes, at: nat, data: Bytes, at': nat, n': nat)
    requires at + |data| <= |v| && at' + n' <= |v| && |data| > 0 && n' > 0 && !RangesMeet(at, |data|, at', n')
    ensures Patch(v, at, data)[at..at + |data|] == data
    ensures Patch(v, at, data)[at'..at' + n'] == v[at'..at' + n']
  {
  }

  // ----- from the client's edits to the hardware -----

  /** A register of a saved wave is given a value. */
  datatype Edit = Edit(wave: nat, register: Register, at: nat, data: Bytes)

  ghost predicate EditsOk(f: Family, waves: seq<Saved>, records: seq<Record>, edits: seq<Edit>) {
    forall k :: 0 <= k < |edits| ==> EditOk(f, waves, records, edits[k])
  }

  ghost predicate EditOk(f: Family, waves: seq<Saved>, records: seq<Record>, e: Edit) {
    IsSavedAt(f, waves, records, e.wave, e.register, e.at, |e.data|) && |e.data| > 0
  }

  function Pokes(edits: seq<Edit>): (accesses: seq<QueueSpec.AreaAccess>)
    ensures |accesses| == |edits|
  {
    seq(|edits|, k requires 0 <= k < |edits| => QueueSpec.Poke(edits[k].at, edits[k].data))
  }

  /** The records of the waves lie in the save area of a queue. */
  ghost predicate SavedIn(q: QueueSpec.Area, f: Family, waves: seq<Saved>, records: seq<Record>, top: nat, bottom: nat) {
    SaveArea(f, waves, records, top, bottom) && QueueSpec.AreaOk(q) && q.base <= bottom && top <= q.base + q.size
  }

  lemma PokesAreOk(q: QueueSpec.Area, f: Family, waves: seq<Saved>, records: seq<Record>, top: nat, bottom: nat, edits: seq<Edit>)
    requires SavedIn(q, f, waves, records, top, bottom) && EditsOk(f, waves, records, edits)
    ensures QueueSpec.AccessesOk(q, Pokes(edits))
  {
    forall k | 0 <= k < |edits|
      ensures QueueSpec.AccessOk(q, Pokes(edits)[k])
    {
      assert EditOk(f, waves, records, edits[k]);
      SavedInArea(f, waves, records, top, bottom, edits[k].wave, edits[k].register, edits[k].at, |edits[k].data|);
    }
  }

  /** No edit touches register `r` of wave `i`. */
  ghost predicate Spared(f: Family, waves: seq<Saved>, edits: seq<Edit>, i: nat, r: Register) {
    forall k :: 0 <= k < |edits| ==> SparedBy(f, waves, edits[k], i, r)
  }

  ghost predicate SparedBy(f: Family, waves: seq<Saved>, e: Edit, i: nat, r: Register) {
    e.wave < |waves| && IsSaved(f, waves[e.wave]) && ValidShape(f, ShapeOfWave(f, waves[e.wave]))
      && !SameStorage(f, waves, e.wave, e.register, i, r)
  }

  /** The library sees `value` in that register. */
  ghost predicate Shows(s: CacheSpec.CacheState, at: nat, value: Bytes) {
    CacheSpec.WellFormed(s) && at + |value| <= ADDRESS_SPACE && CacheSpec.View(s)[at..at + |value|] == value
  }

  lemma FirstPoke(s: CacheSpec.CacheState, q: QueueSpec.Area, edits: seq<Edit>)
    requires CacheSpec.WellFormed(s) && QueueSpec.AreaOk(q) && QueueSpec.AccessesOk(q, Pokes(edits)) && edits != []
    ensures var e, rest := edits[0], Pokes(edits[1..]);
      && e.at + |e.data| <= ADDRESS_SPACE && CacheSpec.WellFormed(CacheSpec.Write(s, e.at, e.data))
      && QueueSpec.AccessesOk(q, rest)
      && QueueSpec.ApplyAccesses(s, q, Pokes(edits)) == QueueSpec.ApplyAccesses(CacheSpec.Write(s, e.at, e.data), q, rest)
  {
    var first, rest := Pokes(edits)[0], Pokes(edits[1..]);
    assert QueueSpec.AccessOk(q, first);
    forall k | 0 <= k < |rest|
      ensures rest[k] == Pokes(edits)[k + 1] && QueueSpec.AccessOk(q, rest[k])
    {
    }
    assert Pokes(edits)[1..] == rest;
    QueueSpec.PokeIsLocal(s, q, edits[0].at, edits[0].data);
  }

  lemma EditSpares(s: CacheSpec.CacheState, f: Family, waves: seq<Saved>, records: seq<Record>, top: nat, bottom: nat,
    e: Edit, i: nat, r: Register, at: nat, value: Bytes)
    requires SaveArea(f, waves, records, top, bottom) && EditOk(f, waves, records, e)
    requires IsSavedAt(f, waves, records, i, r, at, |value|) && |value| > 0
    requires SparedBy(f, waves, e, i, r) && Shows(s, at, value)
    ensures e.at + |e.data| <= ADDRESS_SPACE && Shows(CacheSpec.Write(s, e.at, e.data), at, value)
  {
    EditIsApart(f, waves, records, top, bottom, e, i, r, at, |value|);
    WriteSpares(s, e.at, e.data, at, value);
  }

  lemma EditIsApart(f: Family, waves: seq<Saved>, records: seq<Record>, top: nat, bottom: nat, e: Edit, i: nat, r: Register,
    at: nat, n: nat)
    requires SaveArea(f, waves, records, top, bottom) && EditOk(f, waves, records, e)
    requires IsSavedAt(f, waves, records, i, r, at, n) && SparedBy(f, waves, e, i, r)
    ensures e.at + |e.data| <= ADDRESS_SPACE && at + n <= ADDRESS_SPACE && !RangesMeet(e.at, |e.data|, at, n)
  {
    SavedInArea(f, waves, records, top, bottom, e.wave, e.register, e.at, |e.data|);
    SavedInArea(f, waves, records, top, bottom, i, r, at, n);
    SavedApart(f, waves, records, top, bottom, e.wave, e.register, e.at, |e.data|, i, r, at, n);
  }

  lemma WriteSpares(s: CacheSpec.CacheState, at: nat, data: Bytes, at': nat, value: Bytes)
    requires at + |data| <= ADDRESS_SPACE && Shows(s, at', value)
    requires |data| > 0 && |value| > 0 && !RangesMeet(at, |data|, at', |value|)
    ensures Shows(CacheSpec.Write(s, at, data), at', value)
  {
    CacheSpec.WriteIsPatch(s, at, data);
    PatchSpares(CacheSpec.View(s), at, data, at', |value|);
  }

  /** A register that no edit touches keeps its value. */
  lemma {:induction false} EditsSpare(s: CacheSpec.CacheState, q: QueueSpec.Area, f: Family, waves: seq<Saved>, records: seq<Record>,
    top: nat, bottom: nat, edits: seq<Edit>, i: nat, r: Register, at: nat, value: Bytes)
    requires CacheSpec.WellFormed(s) && SavedIn(q, f, waves, records, top, bottom)
    requires EditsOk(f, waves, records, edits) && QueueSpec.AccessesOk(q, Pokes(edits))
    requires IsSavedAt(f, waves, records, i, r, at, |value|) && |value| > 0
    requires Spared(f, waves, edits, i, r) && Shows(s, at, value)
    ensures Shows(QueueSpec.ApplyAccesses(s, q, Pokes(edits)), at, value)
    decreases |edits|
  {
    if edits != [] {
      var e := edits[0];
      assert EditOk(f, waves, records, e) && SparedBy(f, waves, e, i, r);
      EditSpares(s, f, waves, records, top, bottom, e, i, r, at, value);
      RestIsOk(f, waves, records, edits, i, r);
      FirstPoke(s, q, edits);
      EditsSpare(CacheSpec.Write(s, e.at, e.data), q, f, waves, records, top, bottom, edits[1..], i, r, at, value);
    }
  }

  lemma RestIsOk(f: Family, waves: seq<Saved>, records: seq<Record>, edits: seq<Edit>, i: nat, r: Register)
    requires EditsOk(f, waves, records, edits) && edits != []
    ensures EditsOk(f, waves, records, edits[1..])
    ensures Spared(f, waves, edits, i, r) ==> Spared(f, waves, edits[1..], i, r)
  {
    forall k | 0 <= k < |edits| - 1
      ensures EditOk(f, waves, records, edits[1..][k])
      ensures Spared(f, waves, edits, i, r) ==> SparedBy(f, waves, edits[1..][k], i, r)
    {
      assert EditOk(f, waves, records, edits[k + 1]);
      assert Spared(f, waves, edits, i, r) ==> SparedBy(f, waves, edits[k + 1], i, r);
    }
  }

  /** A register shows the value it was given last. */
  lemma {:induction false} LastEditShows(s: CacheSpec.CacheState, q: QueueSpec.Area, f: Family, waves: seq<Saved>, records: seq<Record>,
    top: nat, bottom: nat, edits: seq<Edit>, k: nat)
    requires CacheSpec.WellFormed(s) && SavedIn(q, f, waves, records, top, bottom)
    requires EditsOk(f, waves, records, edits) && QueueSpec.AccessesOk(q, Pokes(edits))
    requires k < |edits| && Spared(f, waves, edits[k + 1..], edits[k].wave, edits[k].register)
    ensures Shows(QueueSpec.ApplyAccesses(s, q, Pokes(edits)), edits[k].at, edits[k].data)
    decreases |edits|
  {
    if k == 0 {
      FirstEditLasts(s, q, f, waves, records, top, bottom, edits);
    } else {
      RestIsOk(f, waves, records, edits, edits[0].wave, edits[0].register);
      FirstPoke(s, q, edits);
      RestOfRest(edits, k);
      LastEditShows(CacheSpec.Write(s, edits[0].at, edits[0].data), q, f, waves, records, top, bottom, edits[1..], k - 1);
    }
  }

  lemma RestOfRest(edits: seq<Edit>, k: nat)
    requires 0 < k < |edits|
    ensures edits[1..][k - 1] == edits[k] && edits[1..][k - 1 + 1..] == edits[k + 1..]
  {
  }

  lemma FirstEditLasts(s: CacheSpec.CacheState, q: QueueSpec.Area, f: Family, waves: seq<Saved>, records: seq<Record>,
    top: nat, bottom: nat, edits: seq<Edit>)
    requires CacheSpec.WellFormed(s) && SavedIn(q, f, waves, records, top, bottom)
    requires EditsOk(f, waves, records, edits) && QueueSpec.AccessesOk(q, Pokes(edits))
    requires edits != [] && Spared(f, waves, edits[1..], edits[0].wave, edits[0].register)
    ensures Shows(QueueSpec.ApplyAccesses(s, q, Pokes(edits)), edits[0].at, edits[0].data)
  {
    var e := edits[0];
    assert EditOk(f, waves, records, e);
    RestIsOk(f, waves, records, edits, e.wave, e.register);
    FirstPoke(s, q, edits);
    FirstEditShows(s, f, waves, records, top, bottom, e);
    EditsSpare(CacheSpec.Write(s, e.at, e.data), q, f, waves, records, top, bottom, edits[1..], e.wave, e.register, e.at, e.data);
  }

  lemma FirstEditShows(s: CacheSpec.CacheState, f: Family, waves: seq<Saved>, records: seq<Record>, top: nat, bottom: nat, e: Edit)
    requires CacheSpec.WellFormed(s) && SaveArea(f, waves, records, top, bottom) && EditOk(f, waves, records, e)
    ensures e.at + |e.data| <= ADDRESS_SPACE && Shows(CacheSpec.Write(s, e.at, e.data), e.at, e.data)
  {
    SavedInArea(f, waves, records, top, bottom, e.wave, e.register, e.at, |e.data|);
    CacheSpec.WriteIsPatch(s, e.at, e.data);
  }

  /** Registers edited while their queue is suspended, in any order and however often: when the
      driver is asked to resume the queue, memory holds for each the value it was given last. */
  lemma EditsReachHardware(p: QueueSpec.ProcessView, id: QueueSpec.QueueId, ids: seq<QueueSpec.QueueId>,
    f: Family, waves: seq<Saved>, records: seq<Record>, top: nat, bottom: nat, edits: seq<Edit>, k: nat)
    requires QueueProtocol.Inv(p) && id in p.queues && p.queues[id].state.Suspended?
    requires SavedIn(p.queues[id].area, f, waves, records, top, bottom) && EditsOk(f, waves, records, edits)
    requires k < |edits| && Spared(f, waves, edits[k + 1..], edits[k].wave, edits[k].register)
    ensures QueueRuns.Allowed(p, QueueRuns.RegisterAccess(id, Pokes(edits)))
    ensures var q := QueueRuns.Next(p, QueueRuns.RegisterAccess(id, Pokes(edits)));
      QueueProtocol.ResumeAllowed(q, ids) && id in QueueProtocol.NeedDriver(q, ids) ==>
        Holds(QueueProtocol.ResumePublished(q, ids).cache.memory, edits[k].at, edits[k].data)
  {
    PokesAreOk(p.queues[id].area, f, waves, records, top, bottom, edits);
    QueueRuns.StepKeepsInv(p, QueueRuns.RegisterAccess(id, Pokes(edits)));
    LastEditShows(p.cache, p.queues[id].area, f, waves, records, top, bottom, edits, k);
    assert EditOk(f, waves, records, edits[k]);
    SavedInArea(f, waves, records, top, bottom, edits[k].wave, edits[k].register, edits[k].at, |edits[k].data|);
    ShownIsCommitted(QueueRuns.Next(p, QueueRuns.RegisterAccess(id, Pokes(edits))), id, ids, edits[k].at, edits[k].data);
  }

  /** Registers that are not edited are restored as the library saw them. */
  lemma OthersReachHardware(p: QueueSpec.ProcessView, id: QueueSpec.QueueId, ids: seq<QueueSpec.QueueId>,
    f: Family, waves: seq<Saved>, records: seq<Record>, top: nat, bottom: nat, edits: seq<Edit>,
    i: nat, r: Register, at: nat, value: Bytes)
    requires QueueProtocol.Inv(p) && id in p.queues && p.queues[id].state.Suspended?
    requires SavedIn(p.queues[id].area, f, waves, records, top, bottom) && EditsOk(f, waves, records, edits)
    requires IsSavedAt(f, waves, records, i, r, at, |value|) && |value| > 0
    requires Spared(f, waves, edits, i, r) && Shows(p.cache, at, value)
    ensures QueueRuns.Allowed(p, QueueRuns.RegisterAccess(id, Pokes(edits)))
    ensures var q := QueueRuns.Next(p, QueueRuns.RegisterAccess(id, Pokes(edits)));
      QueueProtocol.ResumeAllowed(q, ids) && id in QueueProtocol.NeedDriver(q, ids) ==>
        Holds(QueueProtocol.ResumePublished(q, ids).cache.memory, at, value)
  {
    PokesAreOk(p.queues[id].area, f, waves, records, top, bottom, edits);
    QueueRuns.StepKeepsInv(p, QueueRuns.RegisterAccess(id, Pokes(edits)));
    EditsSpare(p.cache, p.queues[id].area, f, waves, records, top, bottom, edits, i, r, at, value);
    SavedInArea(f, waves, records, top, bottom, i, r, at, |value|);
    ShownIsCommitted(QueueRuns.Next(p, QueueRuns.RegisterAccess(id, Pokes(edits))), id, ids, at, value);
  }

  ghost predicate Holds(memory: Bytes, at: nat, value: Bytes) {
    at + |value| <= |memory| && memory[at..at + |value|] == value
  }

  lemma ShownIsCommitted(q: QueueSpec.ProcessView, id: QueueSpec.QueueId, ids: seq<QueueSpec.QueueId>, at: nat, value: Bytes)
    requires QueueProtocol.Inv(q) && id in q.queues && Shows(q.cache, at, value) && |value| > 0
    requires q.queues[id].area.base <= at && at + |value| <= q.queues[id].area.base + q.queues[id].area.size
    ensures QueueProtocol.ResumeAllowed(q, ids) && id in QueueProtocol.NeedDriver(q, ids) ==>
      Holds(QueueProtocol.ResumePublished(q, ids).cache.memory, at, value)
  {
    if QueueProtocol.ResumeAllowed(q, ids) && id in QueueProtocol.NeedDriver(q, ids) {
      var memory, view := QueueProtocol.ResumePublished(q, ids).cache.memory, CacheSpec.View(q.cache);
      forall a | at <= a < at + |value|
        ensures a < |memory| && memory[a] == view[a]
      {
        QueueProtocol.ResumeCommitsView(q, ids, id, a);
      }
      SameSlice(memory, view, at, |value|);
    }
  }

  lemma SameSlice(m: Bytes, v: Bytes, at: nat, n: nat)
    requires n > 0 ==> at + n <= |v|
    requires n > 0 ==> at + n <= |m|
    requires forall a :: at <= a < at + n ==> m[a] == v[a]
    ensures n > 0 ==> m[at..at + n] == v[at..at + n]
  {
  }
}
