/** Reading and writing private memory through the memory cache, one contiguous piece at a
    time. */
module PrivateTransfers {
  import opened FlatMemory
  import opened PrivateMemory
  import opened ScatterGather
  import CacheSpec
  import opened MemoryCaches

  /** One lane's view of private memory, or the whole wave's. */
  datatype Lane = Lane(w: Wave, lane: nat, s: Space)

  ghost predicate ValidLane(m: Lane) {
    ValidWave(m.w) && (m.s.Swizzled? || m.s.Unswizzled?)
  }

  /** Private byte `a` exists, and is kept at global address At(m, a). */
  predicate Exists(m: Lane, a: nat) {
    && (m.s.Swizzled? || m.s.Unswizzled?) && a < Null(m.s)
    && m.w.scratchBase <= ADDRESS_SPACE && InSlot(m.w, m.lane, m.s, a)
  }

  function At(m: Lane, a: nat): nat
    requires Exists(m, a)
  {
    m.w.scratchBase + SlotOffset(m.w, m.lane, m.s, a)
  }

  /** The private bytes that exist and where they are kept. */
  ghost function PlacesOf(m: Lane): Places {
    map a: nat | a < SEGMENT && Exists(m, a) :: At(m, a)
  }

  lemma PlaceOf(m: Lane, a: nat)
    ensures a in PlacesOf(m) <==> Exists(m, a)
    ensures a in PlacesOf(m) ==> PlacesOf(m)[a] == At(m, a)
  {
  }

  lemma AtIsAddress(m: Lane, a: nat)
    requires ValidLane(m) && Exists(m, a)
    ensures At(m, a) < m.w.scratchBase + m.w.scratchSize <= ADDRESS_SPACE
  {
  }

  /** Different private bytes of a lane are kept at different addresses. */
  lemma PlacesDiffer(m: Lane, a: nat, b: nat)
    requires ValidLane(m) && Exists(m, a) && Exists(m, b) && At(m, a) == At(m, b)
    ensures a == b
  {
    if m.s.Swizzled? { SameLane(m.w.laneCount, m.lane, a, m.lane, b); }
  }

  /** Every private byte of a lane is kept inside the address space, and no two at one address. */
  lemma PlacesAreGood(m: Lane)
    requires ValidLane(m)
    ensures Inside(PlacesOf(m)) && OneToOne(PlacesOf(m))
  {
    var p := PlacesOf(m);
    forall a | a in p
      ensures p[a] < ADDRESS_SPACE
    {
      PlaceOf(m, a);
      AtIsAddress(m, a);
    }
    forall a, b | a in p && b in p && p[a] == p[b]
      ensures a == b
    {
      PlaceOf(m, a);
      PlaceOf(m, b);
      PlacesDiffer(m, a, b);
    }
  }

  // ----- pieces -----

  /** The conversion to global memory succeeds exactly on the bytes that exist. */
  lemma Locates(m: Lane, a: nat)
    requires ValidLane(m) && a < Null(m.s)
    ensures ToGlobal(m.w, m.lane, m.s, a).Ok? <==> Exists(m, a)
    ensures var r := ToGlobal(m.w, m.lane, m.s, a);
      r.Ok? ==> && r.value.address == At(m, a) && r.value.contiguous > 0
                && r.value.address + r.value.contiguous <= m.w.scratchBase + m.w.scratchSize
  {
    if m.s.Swizzled? {
      LowerKeeps(Swizzled, a);
      GlobalIsWord(m.w, m.lane, Swizzled, a, a);
      if Exists(m, a) { WordInSlot(SlotOffset(m.w, m.lane, Swizzled, a), m.w.scratchSize); }
    }
  }

  /** A slot holds whole words. */
  lemma WordInSlot(offset: nat, size: nat)
    requires offset < size && size % 256 == 0
    ensures offset + (4 - offset % 4) <= size
  {
    RoomInWord(offset, 3 - offset % 4, size);
  }

  /** A conversion that succeeds yields no bytes at all exactly at the null address: a transfer
      that starts there would ask for nothing, get it, and never advance. */
  lemma NoProgressExactly(m: Lane, a: nat)
    requires ValidLane(m) && a < SEGMENT && ToGlobal(m.w, m.lane, m.s, a).Ok?
    ensures ToGlobal(m.w, m.lane, m.s, a).value.contiguous == 0 <==> a == Null(m.s)
  {
    if a < Null(m.s) { Locates(m, a); }
  }

  lemma PieceFollows(m: Lane, a: nat, k: nat)
    requires ValidLane(m) && a < Null(m.s) && ToGlobal(m.w, m.lane, m.s, a).Ok?
    requires k < ToGlobal(m.w, m.lane, m.s, a).value.contiguous
    ensures Exists(m, a) && Exists(m, a + k) && At(m, a + k) == At(m, a) + k
  {
    Locates(m, a);
    if m.s.Swizzled? {
      assert ToGlobal(m.w, m.lane, m.s, a) == GlobalAt(m.w, Swizzle(m.w.laneCount, m.lane, a));
      WordFits(m.w.laneCount, m.lane, a, k, m.w.scratchSize);
      SwizzleGrows(m.w.laneCount, m.lane, a + k);
    }
  }

  lemma PieceIsConsecutive(m: Lane, a: nat, n: nat, to: nat)
    requires ValidLane(m) && a + n < Null(m.s) && ToGlobal(m.w, m.lane, m.s, a + n).Ok?
    requires n <= to && to - n <= ToGlobal(m.w, m.lane, m.s, a + n).value.contiguous
    ensures Exists(m, a + n) && At(m, a + n) + (to - n) <= ADDRESS_SPACE
    ensures Consecutive(PlacesOf(m), a, n, to, At(m, a + n))
  {
    Locates(m, a + n);
    var at := At(m, a + n);
    forall k | n <= k < to
      ensures FollowsAt(PlacesOf(m), a, n, k, at)
    {
      NextFollows(m, a, n, k);
    }
    AllFollow(PlacesOf(m), a, n, to, at);
  }

  lemma NextFollows(m: Lane, a: nat, n: nat, k: nat)
    requires ValidLane(m) && a + n < Null(m.s) && ToGlobal(m.w, m.lane, m.s, a + n).Ok?
    requires n <= k && k - n < ToGlobal(m.w, m.lane, m.s, a + n).value.contiguous
    ensures Exists(m, a + n) && FollowsAt(PlacesOf(m), a, n, k, At(m, a + n))
  {
    PieceFollows(m, a + n, k - n);
    assert a + n + (k - n) == a + k;
    PlaceOf(m, a + k);
  }

  // ----- slots -----

  /** A store by one lane of one slot leaves every private byte of every other lane and slot as
      it was, and of its own lane every byte not stored. */
  lemma StoreIsPrivate(q: Scratch, s: Slot, t: Slot, lanes: nat, lanes': nat, flat: FlatScratch, flat': FlatScratch,
    lane: nat, lane': nat, v: Bytes, a: nat, data: Bytes, b: nat)
    requires ValidSlot(q, s) && ValidSlot(q, t) && RingFits(q)
    requires lanes in {32, 64} && lanes' in {32, 64} && (s == t ==> lanes == lanes')
    requires |v| == ADDRESS_SPACE
    requires AllThere(PlacesOf(LaneIn(q, s, lanes, flat, lane)), a, |data|)
    requires Exists(LaneIn(q, t, lanes', flat', lane'), b)
    requires !(s == t && lane == lane' && a <= b < a + |data|)
    ensures var m, m' := LaneIn(q, s, lanes, flat, lane), LaneIn(q, t, lanes', flat', lane');
      && ValidLane(m) && At(m', b) < ADDRESS_SPACE && Inside(PlacesOf(m))
      && Scatter(v, PlacesOf(m), a, data)[At(m', b)] == v[At(m', b)]
  {
    var m, m' := LaneIn(q, s, lanes, flat, lane), LaneIn(q, t, lanes', flat', lane');
    WaveInSlotIsValid(q, s, lanes, flat);
    WaveInSlotIsValid(q, t, lanes', flat');
    PlacesAreGood(m);
    var x := At(m', b);
    AtIsAddress(m', b);
    ScatterExactly(v, PlacesOf(m), a, data, x);
    forall k: nat
      ensures !Keeps(PlacesOf(m), a, |data|, k, x)
    {
      StoreMisses(q, s, t, lanes, lanes', flat, flat', lane, lane', a, |data|, b, k);
    }
  }

  lemma StoreMisses(q: Scratch, s: Slot, t: Slot, lanes: nat, lanes': nat, flat: FlatScratch, flat': FlatScratch,
    lane: nat, lane': nat, a: nat, n: nat, b: nat, k: nat)
    requires ValidSlot(q, s) && ValidSlot(q, t) && RingFits(q)
    requires lanes in {32, 64} && lanes' in {32, 64} && (s == t ==> lanes == lanes')
    requires ValidLane(LaneIn(q, s, lanes, flat, lane)) && ValidLane(LaneIn(q, t, lanes', flat', lane'))
    requires Exists(LaneIn(q, t, lanes', flat', lane'), b)
    requires !(s == t && lane == lane' && a <= b < a + n)
    ensures !Keeps(PlacesOf(LaneIn(q, s, lanes, flat, lane)), a, n, k, At(LaneIn(q, t, lanes', flat', lane'), b))
  {
    var m := LaneIn(q, s, lanes, flat, lane);
    PlaceOf(m, a + k);
    if k < n && Exists(m, a + k) {
      PlacesInSlotsDiffer(q, s, t, lanes, lanes', flat, flat', lane, lane', a + k, b);
    }
  }

  function LaneIn(q: Scratch, s: Slot, lanes: nat, flat: FlatScratch, lane: nat): Lane
    requires q.engines > 0
  {
    Lane(WaveIn(q, s, lanes, flat), lane, Swizzled)
  }

  lemma PlacesInSlotsDiffer(q: Scratch, s: Slot, t: Slot, lanes: nat, lanes': nat, flat: FlatScratch, flat': FlatScratch,
    lane: nat, lane': nat, a: nat, b: nat)
    requires ValidSlot(q, s) && ValidSlot(q, t) && RingFits(q)
    requires lanes in {32, 64} && lanes' in {32, 64} && (s == t ==> lanes == lanes')
    requires ValidLane(LaneIn(q, s, lanes, flat, lane)) && Exists(LaneIn(q, s, lanes, flat, lane), a)
    requires ValidLane(LaneIn(q, t, lanes', flat', lane')) && Exists(LaneIn(q, t, lanes', flat', lane'), b)
    ensures At(LaneIn(q, s, lanes, flat, lane), a) == At(LaneIn(q, t, lanes', flat', lane'), b) ==>
      s == t && lane == lane' && a == b
  {
    var m, m' := LaneIn(q, s, lanes, flat, lane), LaneIn(q, t, lanes', flat', lane');
    Locates(m, a);
    Locates(m', b);
    if At(m, a) == At(m', b) {
      assert ToGlobal(m.w, lane, Swizzled, a).value.address == ToGlobal(m'.w, lane', Swizzled, b).value.address;
      NoSharedStorage(q, s, t, lanes, lanes', flat, flat', lane, lane', a, b);
    }
  }

  // ----- the transfer -----

  /** Exactly the private bytes [a, a + n) were moved: a write stored the first `n` bytes of
      `access` there and changed nothing else, a read returned them. `v` and `v'` are all of memory
      as the library sees it before and after. */
  ghost predicate PrivateMoved(v: Bytes, v': Bytes, p: Places, a: nat, access: Access, n: nat, data: Bytes)
    requires |v| == ADDRESS_SPACE == |v'|
  {
    && Inside(p) && n <= SizeOf(access) && AllThere(p, a, n)
    && match access
       case Read(_) => v' == v && data == Gather(v, p, a, n)
       case Write(source) => v' == Scatter(v, p, a, source[..n]) && data == []
  }

  lemma PieceMoved(v: Bytes, mid: Bytes, v': Bytes, p: Places, a: nat, access: Access, n: nat, data: Bytes,
    to: nat, at: nat, piece: Bytes)
    requires |v| == |mid| == |v'| == ADDRESS_SPACE
    requires PrivateMoved(v, mid, p, a, access, n, data) && n <= to <= SizeOf(access)
    requires Consecutive(p, a, n, to, at) && at + (to - n) <= ADDRESS_SPACE
    requires access.Read? ==> v' == mid && piece == mid[at..at + (to - n)]
    requires access.Write? ==> v' == Patch(mid, at, access.data[n..to]) && piece == []
    ensures PrivateMoved(v, v', p, a, access, to, data + piece)
  {
    match access
    case Read(_) => PieceRead(v, p, a, n, to, at);
    case Write(source) => PieceStored(v, p, a, source, n, to, at);
  }

  /** How a private transfer ends: with the number of bytes moved, because the first byte does
      not exist, with an exception from global memory, or not at all. */
  datatype PrivateOutcome = Total(count: nat) | OutOfBounds | Raised(outcome: Outcome) | NeverEnds

  /** The private transfer that ended with `r` after `n` bytes ended as it should. */
  ghost predicate EndsWell(m: Lane, a: nat, size: nat, reliable: bool, r: PrivateOutcome, n: nat) {
    && n <= size
    && (r.NeverEnds? <==> size > 0 && a == Null(m.s))
    && (r.OutOfBounds? <==> size > 0 && a != Null(m.s) && !Exists(m, a))
    && (r.Total? ==> r.count == n)
    && (r.Raised? ==> n < size && Exists(m, a + n) && !reliable)
    && (r.Total? && reliable ==> n == size || !Exists(m, a + n))
  }

  /** A private transfer under way: `n` bytes are moved and, if it goes on, all those asked for. */
  ghost predicate UnderWay(m: Lane, a: nat, size: nat, reliable: bool, r: PrivateOutcome, n: nat, moved: nat, going: bool) {
    && moved <= n <= size && (n > 0 ==> Exists(m, a))
    && (going ==> r == Total(moved) && n == moved && (n < size ==> Reachable(m, a, n)))
    && (!going ==> EndsWell(m, a, size, reliable, r, n))
  }

  /** Only a transfer that has not begun can stand at the null address. */
  predicate Reachable(m: Lane, a: nat, n: nat) {
    a + n < Null(m.s) || (n == 0 && a == Null(m.s))
  }

  /** Reads or writes private bytes from `a` on, as many as exist. Fails only when not even the
      first one exists. A turn of the loop that moves nothing and does not stop is followed by
      the same turn for ever. */
  method TransferPrivate(cache: MemoryCache, m: Lane, a: nat, access: Access)
    returns (r: PrivateOutcome, ghost n: nat, data: Bytes)
    requires cache.Valid() && ValidLane(m) && m.w.scratchBase + m.w.scratchSize < ADDRESS_SPACE && a < SEGMENT
    modifies cache, cache.backing
    ensures cache.Valid()
    ensures EndsWell(m, a, SizeOf(access), cache.backing.reliable, r, n)
    ensures PrivateMoved(old(CacheSpec.View(cache.Abs())), CacheSpec.View(cache.Abs()), PlacesOf(m), a, access, n, data)
  {
    ghost var v := CacheSpec.View(cache.Abs());
    PlacesAreGood(m);
    r, n, data := Total(0), 0, [];
    var moved, going := 0, true;
    while moved < SizeOf(access) && going
      invariant cache.Valid() && UnderWay(m, a, SizeOf(access), cache.backing.reliable, r, n, moved, going)
      invariant PrivateMoved(v, CacheSpec.View(cache.Abs()), PlacesOf(m), a, access, n, data)
      decreases SizeOf(access) - moved, going
    {
      var so := moved;
      r, n, data, moved, going := TransferMore(cache, m, a, access, moved, v, data);
      if going && moved == so { return NeverEnds, n, data; }
    }
  }

  /** One turn of the loop. At the null address it moves nothing, changes nothing and goes on. */
  method TransferMore(cache: MemoryCache, m: Lane, a: nat, access: Access, moved: nat, ghost v: Bytes, data: Bytes)
    returns (r: PrivateOutcome, ghost n: nat, data': Bytes, moved': nat, going: bool)
    requires cache.Valid() && ValidLane(m) && m.w.scratchBase + m.w.scratchSize < ADDRESS_SPACE
    requires moved < SizeOf(access) && Reachable(m, a, moved) && (moved > 0 ==> Exists(m, a))
    requires |v| == ADDRESS_SPACE && PrivateMoved(v, CacheSpec.View(cache.Abs()), PlacesOf(m), a, access, moved, data)
    modifies cache, cache.backing
    ensures cache.Valid() && UnderWay(m, a, SizeOf(access), cache.backing.reliable, r, n, moved', going)
    ensures a + moved == Null(m.s) ==> going && moved' == moved && data' == data && cache.Abs() == old(cache.Abs())
    ensures a + moved != Null(m.s) ==> moved <= moved' && (going ==> moved < moved')
    ensures PrivateMoved(v, CacheSpec.View(cache.Abs()), PlacesOf(m), a, access, n, data')
  {
    match ToGlobal(m.w, m.lane, m.s, a + moved) {
      case Err(e) =>
        n, data', moved', going := moved, data, moved, false;
        r := if moved == 0 then OutOfBounds else Total(moved);
        TurnFails(m, a, SizeOf(access), cache.backing.reliable, moved);
      case Ok(range) =>
        var size := if SizeOf(access) - moved < range.contiguous then SizeOf(access) - moved else range.contiguous;
        TurnAsks(m, a, moved, SizeOf(access), size);
        var outcome;
        outcome, n, data' := TransferPiece(cache, m, a, access, moved, range.address, size, v, data);
        going := outcome == Done(size);
        r, moved' := if outcome.Done? then Total(moved + outcome.count) else Raised(outcome), moved + Count(outcome);
        TurnIsUnderWay(m, a, SizeOf(access), cache.backing.reliable, moved, size, outcome, n);
    }
  }

  /** The conversion fails: the bytes end here, or there are none. */
  lemma TurnFails(m: Lane, a: nat, total: nat, reliable: bool, moved: nat)
    requires ValidLane(m) && moved < total && Reachable(m, a, moved) && (moved > 0 ==> Exists(m, a))
    requires ToGlobal(m.w, m.lane, m.s, a + moved).Err?
    ensures a + moved != Null(m.s)
    ensures UnderWay(m, a, total, reliable, if moved == 0 then OutOfBounds else Total(moved), moved, moved, false)
  {
    if a + moved != Null(m.s) { Locates(m, a + moved); }
  }

  lemma TurnAsks(m: Lane, a: nat, moved: nat, total: nat, size: nat)
    requires ValidLane(m) && moved < total && Reachable(m, a, moved)
    requires ToGlobal(m.w, m.lane, m.s, a + moved).Ok?
    requires var n := ToGlobal(m.w, m.lane, m.s, a + moved).value.contiguous; size == if total - moved < n then total - moved else n
    ensures PieceAt(m, a, moved, ToGlobal(m.w, m.lane, m.s, a + moved).value.address, size)
  {
    if a + moved == Null(m.s) { NullConverts(m); } else { Locates(m, a + moved); }
  }

  lemma NullConverts(m: Lane)
    requires ValidLane(m)
    ensures ToGlobal(m.w, m.lane, m.s, Null(m.s)) == Ok(Range(0, 0))
  {
    LowerKeeps(m.s, Null(m.s));
  }

  lemma TurnIsUnderWay(m: Lane, a: nat, total: nat, reliable: bool, moved: nat, size: nat, outcome: Outcome, n: nat)
    requires moved <= n <= moved + size <= total && Reachable(m, a, moved) && (moved > 0 ==> Exists(m, a)) && moved < total
    requires size == 0 <==> a + moved == Null(m.s)
    requires (outcome.Done? ==> n == moved + outcome.count) && (!outcome.Done? ==> n < moved + size)
    requires (reliable ==> outcome == Done(size)) && (n < moved + size ==> Exists(m, a + n))
    requires n > 0 ==> a + n < Null(m.s) && Exists(m, a)
    ensures UnderWay(m, a, total, reliable, if outcome.Done? then Total(moved + outcome.count) else Raised(outcome),
                     n, moved + Count(outcome), outcome == Done(size))
  {
  }

  /** The piece asked for is `size` private bytes kept one after the other, or nothing at the null
      address. */
  ghost predicate PieceAt(m: Lane, a: nat, n: nat, address: nat, size: nat) {
    if a + n == Null(m.s) then n == 0 && address == 0 && size == 0
    else
      && size > 0 && a + n < Null(m.s) && ToGlobal(m.w, m.lane, m.s, a + n).Ok?
      && address == ToGlobal(m.w, m.lane, m.s, a + n).value.address
      && size <= ToGlobal(m.w, m.lane, m.s, a + n).value.contiguous
  }

  /** The next piece of a private transfer. */
  method TransferPiece(cache: MemoryCache, m: Lane, a: nat, access: Access, moved: nat, address: nat, size: nat,
    ghost v: Bytes, data: Bytes) returns (outcome: Outcome, ghost n: nat, data': Bytes)
    requires cache.Valid() && ValidLane(m) && m.w.scratchBase + m.w.scratchSize < ADDRESS_SPACE
    requires moved + size <= SizeOf(access) && PieceAt(m, a, moved, address, size)
    requires |v| == ADDRESS_SPACE && PrivateMoved(v, CacheSpec.View(cache.Abs()), PlacesOf(m), a, access, moved, data)
    modifies cache, cache.backing
    ensures cache.Valid() && moved <= n <= moved + size && (cache.backing.reliable ==> outcome == Done(size))
    ensures (outcome.Done? ==> n == moved + outcome.count) && (!outcome.Done? ==> n < moved + size)
    ensures n < moved + size ==> Exists(m, a + n)
    ensures size == 0 ==> data' == data && cache.Abs() == old(cache.Abs())
    ensures n > 0 ==> a + n < Null(m.s) && Exists(m, a)
    ensures PrivateMoved(v, CacheSpec.View(cache.Abs()), PlacesOf(m), a, access, n, data')
  {
    ghost var mid := cache.Abs();
    PieceIsInside(m, a, moved, address, size);
    var piece;
    ghost var more;
    outcome, more, piece := cache.Transfer(address, Piece(access, moved, moved + size));
    n := moved + more;
    data' := data + piece;
    PieceFinished(cache, mid, m, a, access, moved, address, size, n, v, data, piece);
  }

  lemma PieceFinished(cache: MemoryCache, mid: CacheSpec.CacheState, m: Lane, a: nat, access: Access, moved: nat, address: nat,
    size: nat, n: nat, v: Bytes, data: Bytes, piece: Bytes)
    requires CacheSpec.WellFormed(mid) && cache.Valid() && ValidLane(m) && address + size < ADDRESS_SPACE
    requires moved + size <= SizeOf(access) && PieceAt(m, a, moved, address, size) && moved <= n <= moved + size
    requires |v| == ADDRESS_SPACE && PrivateMoved(v, CacheSpec.View(mid), PlacesOf(m), a, access, moved, data)
    requires cache.Moved(mid, address, Piece(access, moved, moved + size), n - moved, piece, cache.Abs())
    ensures n < moved + size ==> Exists(m, a + n)
    ensures size == 0 ==> data + piece == data && cache.Abs() == mid
    ensures n > 0 ==> a + n < Null(m.s) && Exists(m, a)
    ensures PrivateMoved(v, CacheSpec.View(cache.Abs()), PlacesOf(m), a, access, n, data + piece)
  {
    if size == 0 {
      CacheSpec.WriteNothing(mid, address);
      assert piece == [];
    } else {
      PieceEnds(m, a, moved, address, size, n);
      PieceDone(cache, mid, PlacesOf(m), a, access, moved, size, n, address, v, data, piece);
      PieceBegins(m, a, n);
    }
  }

  lemma PieceIsInside(m: Lane, a: nat, n: nat, address: nat, size: nat)
    requires ValidLane(m) && m.w.scratchBase + m.w.scratchSize < ADDRESS_SPACE && PieceAt(m, a, n, address, size)
    ensures address + size < ADDRESS_SPACE
    ensures size > 0 ==> Exists(m, a + n) && address == At(m, a + n)
  {
    if a + n != Null(m.s) { Locates(m, a + n); }
  }

  lemma PieceEnds(m: Lane, a: nat, moved: nat, address: nat, size: nat, n: nat)
    requires ValidLane(m) && PieceAt(m, a, moved, address, size) && moved <= n <= moved + size && size > 0
    ensures Consecutive(PlacesOf(m), a, moved, n, address)
    ensures n < moved + size ==> Exists(m, a + n)
  {
    Locates(m, a + moved);
    PieceIsConsecutive(m, a, moved, n);
    if n < moved + size { NextFollows(m, a, moved, n); PlaceOf(m, a + n); }
  }

  lemma PieceBegins(m: Lane, a: nat, n: nat)
    requires ValidLane(m) && AllThere(PlacesOf(m), a, n)
    ensures n > 0 ==> a + n < Null(m.s) && Exists(m, a)
  {
    if n > 0 {
      EachThere(PlacesOf(m), a, n, 0);
      PlaceOf(m, a);
      EachThere(PlacesOf(m), a, n, n - 1);
      PlaceOf(m, a + (n - 1));
      FarFromNull(m, a + (n - 1));
    }
  }

  /** Slots end long before the null address. */
  lemma FarFromNull(m: Lane, a: nat)
    requires ValidLane(m) && Exists(m, a)
    ensures a + 1 < Null(m.s)
  {
    if m.s.Swizzled? { SwizzleGrows(m.w.laneCount, m.lane, a); }
  }

  lemma PieceDone(cache: MemoryCache, mid: CacheSpec.CacheState, p: Places, a: nat, access: Access, moved: nat, size: nat,
    n: nat, address: nat, v: Bytes, data: Bytes, piece: Bytes)
    requires CacheSpec.WellFormed(mid) && cache.Valid() && moved + size <= SizeOf(access) && moved <= n <= moved + size
    requires address + size <= ADDRESS_SPACE && Consecutive(p, a, moved, n, address)
    requires |v| == ADDRESS_SPACE && PrivateMoved(v, CacheSpec.View(mid), p, a, access, moved, data)
    requires cache.Moved(mid, address, Piece(access, moved, moved + size), n - moved, piece, cache.Abs())
    ensures PrivateMoved(v, CacheSpec.View(cache.Abs()), p, a, access, n, data + piece)
  {
    StoredPiece(mid, access, moved, size, n, address);
    PieceMoved(v, CacheSpec.View(mid), CacheSpec.View(cache.Abs()), p, a, access, moved, data, n, address, piece);
  }

  lemma StoredPiece(s: CacheSpec.CacheState, access: Access, moved: nat, size: nat, n: nat, address: nat)
    requires CacheSpec.WellFormed(s) && moved + size <= SizeOf(access) && moved <= n <= moved + size
    requires address + size <= ADDRESS_SPACE
    ensures var stored := Stored(Piece(access, moved, moved + size), n - moved);
      && |stored| <= n - moved
      && CacheSpec.WellFormed(CacheSpec.Write(s, address, stored))
      && (access.Read? ==> CacheSpec.View(CacheSpec.Write(s, address, stored)) == CacheSpec.View(s))
      && (access.Write? ==>
            CacheSpec.View(CacheSpec.Write(s, address, stored)) == Patch(CacheSpec.View(s), address, access.data[moved..n]))
  {
    var stored := Stored(Piece(access, moved, moved + size), n - moved);
    CacheSpec.WriteIsPatch(s, address, stored);
    if access.Write? { PrefixOfSlice(access.data, moved, moved + size, n); }
  }
}
