/** What the operations of the write-back memory cache mean, as functions on the cache lines
    and the backing memory, and the proof that together they behave like one flat memory. */
module CacheSpec {
  import opened FlatMemory

  const LINE_SIZE: nat := 64

  datatype CacheLine = CacheLine(data: Bytes, dirty: bool)

  datatype CacheState = CacheState(lines: map<nat, CacheLine>, memory: Bytes)

  ghost predicate WellFormedLines(lines: map<nat, CacheLine>) {
    forall l :: l in lines ==> Aligned(l) && l + LINE_SIZE <= ADDRESS_SPACE && |lines[l].data| == LINE_SIZE
  }

  ghost predicate WellFormed(s: CacheState) {
    |s.memory| == ADDRESS_SPACE && WellFormedLines(s.lines)
  }

  predicate Aligned(x: nat) {
    x % 64 == 0
  }

  function LineOf(address: nat): (l: nat)
    ensures l <= address < l + LINE_SIZE && Aligned(l)
  {
    address - address % 64
  }

  /** `address` rounded up to a line boundary. */
  function LineEnd(address: nat): (l: nat)
    ensures l < address + LINE_SIZE && address <= l && Aligned(l)
  {
    LineOf(address + LINE_SIZE - 1)
  }

  /** The byte the library sees at `address`. */
  ghost function ByteAt(s: CacheState, address: nat): Byte
    requires WellFormed(s) && address < ADDRESS_SPACE
  {
    var l := LineOf(address);
    if l in s.lines then s.lines[l].data[address - l] else s.memory[address]
  }

  /** The whole address space as the library sees it. */
  ghost function View(s: CacheState): (v: Bytes)
    requires WellFormed(s)
    ensures |v| == ADDRESS_SPACE
    ensures forall a :: 0 <= a < ADDRESS_SPACE ==> v[a] == ByteAt(s, a)
  {
    seq(ADDRESS_SPACE, a requires 0 <= a < ADDRESS_SPACE => ByteAt(s, a))
  }

  /** A clean line holds what the backing memory holds. */
  ghost predicate LineCoherent(s: CacheState, l: nat)
    requires WellFormed(s) && l in s.lines
  {
    s.lines[l].dirty || s.lines[l].data == s.memory[l..l + LINE_SIZE]
  }

  ghost predicate Coherent(s: CacheState)
    requires WellFormed(s)
  {
    forall l :: l in s.lines ==> LineCoherent(s, l)
  }

  ghost predicate AllClean(s: CacheState, first: nat, last: nat) {
    forall l :: l in s.lines && first <= l <= last ==> !s.lines[l].dirty
  }

  // ----- the operations -----

  ghost predicate InRange(a: nat, address: nat, size: nat) {
    address <= a < address + size
  }

  /** A cache line after `data` has been written at `address`. */
  ghost function WrittenLine(l: nat, line: CacheLine, address: nat, data: Bytes): CacheLine
    requires |line.data| == LINE_SIZE
  {
    if |data| > 0 && l < address + |data| && address < l + LINE_SIZE then
      CacheLine(seq(LINE_SIZE, i requires 0 <= i < LINE_SIZE =>
        if InRange(l + i, address, |data|) then data[l + i - address] else line.data[i]), true)
    else line
  }

  /** Write: the bytes that fall in a cached line go to the line only and make it dirty, the
      others go to the backing memory. */
  ghost function Write(s: CacheState, address: nat, data: Bytes): CacheState
    requires WellFormed(s) && address + |data| <= ADDRESS_SPACE
  {
    CacheState(
      map l | l in s.lines :: WrittenLine(l, s.lines[l], address, data),
      seq(ADDRESS_SPACE, a requires 0 <= a < ADDRESS_SPACE =>
        if InRange(a, address, |data|) && LineOf(a) !in s.lines then data[a - address] else s.memory[a]))
  }

  /** The line-sized piece at `l` of a zeroed staging buffer that starts at `begin` and of
      which only the first `count` bytes were filled from memory. */
  ghost function StagedLine(memory: Bytes, begin: nat, count: nat, l: nat): Bytes
    requires l + LINE_SIZE <= |memory|
  {
    seq(LINE_SIZE, i requires 0 <= i < LINE_SIZE => if l + i < begin + count then memory[l + i] else 0)
  }

  /** Prefetch: absent lines of [begin, end) are created from the staging buffer, present
      lines are left alone. */
  ghost function Prefetch(s: CacheState, begin: nat, end: nat, count: nat): CacheState
    requires WellFormed(s) && end <= ADDRESS_SPACE && Aligned(begin) && Aligned(end)
  {
    CacheState(
      (map l: nat | begin <= l < end && Aligned(l) ::
        CacheLine(StagedLine(s.memory, begin, count, l), false)) + s.lines,
      s.memory)
  }

  ghost function WriteBack(s: CacheState, first: nat, last: nat): CacheState
    requires WellFormed(s)
  {
    CacheState(
      map l | l in s.lines :: if first <= l <= last then s.lines[l].(dirty := false) else s.lines[l],
      seq(ADDRESS_SPACE, a requires 0 <= a < ADDRESS_SPACE =>
        if WrittenBack(s, first, last, a) then s.lines[LineOf(a)].data[a - LineOf(a)] else s.memory[a]))
  }

  ghost predicate WrittenBack(s: CacheState, first: nat, last: nat, a: nat) {
    LineOf(a) in s.lines && first <= LineOf(a) <= last && s.lines[LineOf(a)].dirty
  }

  ghost function Discard(s: CacheState, first: nat, last: nat): CacheState {
    s.(lines := map l | l in s.lines && !(first <= l <= last) :: s.lines[l])
  }

  // ----- one operation at a time -----

  lemma AlignedGap(l: nat, m: nat)
    requires Aligned(l) && Aligned(m) && l < m
    ensures l + LINE_SIZE <= m
  {
  }

  lemma LinesAlign(l: nat, a: nat)
    requires Aligned(l)
    ensures LineOf(a) == l <==> l <= a < l + LINE_SIZE
  {
  }

  /** A write changes the view exactly on the bytes written, and keeps clean lines clean. */
  lemma WriteIsPatch(s: CacheState, address: nat, data: Bytes)
    requires WellFormed(s) && address + |data| <= ADDRESS_SPACE
    ensures WellFormed(Write(s, address, data))
    ensures View(Write(s, address, data)) == Patch(View(s), address, data)
    ensures Coherent(s) ==> Coherent(Write(s, address, data))
  {
    var t := Write(s, address, data);
    var p := Patch(View(s), address, data);
    forall a | 0 <= a < ADDRESS_SPACE
      ensures ByteAt(t, a) == p[a]
    {
      var l := LineOf(a);
    }
    assert View(t) == p;
    if Coherent(s) {
      forall l | l in t.lines
        ensures LineCoherent(t, l)
      {
        assert LineCoherent(s, l);
        if !t.lines[l].dirty {
          forall i | 0 <= i < LINE_SIZE
            ensures t.lines[l].data[i] == t.memory[l + i]
          {
            LinesAlign(l, l + i);
            assert s.memory[l..l + LINE_SIZE][i] == s.memory[l + i];
          }
        }
      }
    }
  }

  /** Where the bytes of a write go: memory changes at no cached address until a write-back, and the
      cached lines the write touches, and no others, become dirty. */
  lemma WriteGoesWhere(s: CacheState, address: nat, data: Bytes)
    requires WellFormed(s) && address + |data| <= ADDRESS_SPACE
    ensures var t := Write(s, address, data);
      && t.lines.Keys == s.lines.Keys && |t.memory| == ADDRESS_SPACE
      && (forall a :: 0 <= a < ADDRESS_SPACE && LineOf(a) in s.lines ==> t.memory[a] == s.memory[a])
      && forall l :: l in s.lines ==>
           (t.lines[l].dirty <==> s.lines[l].dirty || exists a :: InRange(a, address, |data|) && LineOf(a) == l)
  {
    forall l | l in s.lines
      ensures (exists a :: InRange(a, address, |data|) && LineOf(a) == l) <==>
        |data| > 0 && l < address + |data| && address < l + LINE_SIZE
    {
      if |data| > 0 && l < address + |data| && address < l + LINE_SIZE {
        var a := if l <= address then address else l;
        LinesAlign(l, a);
        assert InRange(a, address, |data|) && LineOf(a) == l;
      }
    }
  }

  /** Writing two adjacent pieces one after the other is writing their concatenation. */
  lemma WriteConcat(s: CacheState, address: nat, d1: Bytes, d2: Bytes)
    requires WellFormed(s) && address + |d1| + |d2| <= ADDRESS_SPACE
    ensures WellFormed(Write(s, address, d1))
    ensures Write(Write(s, address, d1), address + |d1|, d2) == Write(s, address, d1 + d2)
  {
    var t := Write(s, address, d1);
    var u := Write(t, address + |d1|, d2);
    var w := Write(s, address, d1 + d2);
    forall l | l in s.lines
      ensures u.lines[l] == w.lines[l]
    {
      assert u.lines[l].data == w.lines[l].data;
    }
    assert u.lines == w.lines;
    assert u.memory == w.memory;
  }

  lemma WriteNothing(s: CacheState, address: nat)
    requires WellFormed(s) && address <= ADDRESS_SPACE
    ensures Write(s, address, []) == s
  {
    assert Write(s, address, []).memory == s.memory;
  }

  /** A full prefetch leaves the view alone and adds only clean, coherent lines. */
  lemma PrefetchKeepsView(s: CacheState, begin: nat, end: nat)
    requires WellFormed(s) && begin <= end <= ADDRESS_SPACE && Aligned(begin) && Aligned(end)
    ensures var t := Prefetch(s, begin, end, end - begin);
      WellFormed(t) && View(t) == View(s) && (Coherent(s) ==> Coherent(t))
  {
    var t := Prefetch(s, begin, end, end - begin);
    PrefetchedLines(s, begin, end, end - begin);
    forall a | 0 <= a < ADDRESS_SPACE
      ensures ByteAt(t, a) == ByteAt(s, a)
    {
      PrefetchedByte(s, begin, end, a);
    }
    assert View(t) == View(s);
    if Coherent(s) {
      forall l | l in t.lines
        ensures LineCoherent(t, l)
      {
        if l in s.lines {
          assert LineCoherent(s, l);
        } else {
          StagedIsMemory(s.memory, begin, end, l);
        }
      }
    }
  }

  /** The lines after a prefetch, one by one. */
  lemma PrefetchedLines(s: CacheState, begin: nat, end: nat, count: nat)
    requires WellFormed(s) && end <= ADDRESS_SPACE && Aligned(begin) && Aligned(end)
    ensures var t := Prefetch(s, begin, end, count);
      && WellFormed(t)
      && (forall l :: l in s.lines ==> l in t.lines && t.lines[l] == s.lines[l])
      && forall l :: l in t.lines && l !in s.lines ==>
           begin <= l < l + LINE_SIZE <= end && Aligned(l) && t.lines[l] == CacheLine(StagedLine(s.memory, begin, count, l), false)
  {
    var t := Prefetch(s, begin, end, count);
    forall l | l in t.lines && l !in s.lines
      ensures begin <= l < l + LINE_SIZE <= end && Aligned(l)
    {
      AlignedGap(l, end);
    }
  }

  /** After a prefetch every byte of its range is cached, whatever arrived. */
  lemma PrefetchCovers(s: CacheState, begin: nat, end: nat, count: nat, a: nat)
    requires WellFormed(s) && begin <= a < end <= ADDRESS_SPACE && Aligned(begin) && Aligned(end)
    ensures LineOf(a) in Prefetch(s, begin, end, count).lines
  {
    if LineOf(a) < begin { AlignedGap(LineOf(a), begin); }
  }

  lemma PrefetchedByte(s: CacheState, begin: nat, end: nat, a: nat)
    requires WellFormed(s) && end <= ADDRESS_SPACE && Aligned(begin) && Aligned(end) && begin <= end && a < ADDRESS_SPACE
    ensures WellFormed(Prefetch(s, begin, end, end - begin))
    ensures ByteAt(Prefetch(s, begin, end, end - begin), a) == ByteAt(s, a)
  {
    PrefetchedLines(s, begin, end, end - begin);
    var l := LineOf(a);
    if l in Prefetch(s, begin, end, end - begin).lines && l !in s.lines {
      StagedIsMemory(s.memory, begin, end, l);
      assert s.memory[l..l + LINE_SIZE][a - l] == s.memory[a];
    }
  }

  lemma StagedIsMemory(memory: Bytes, begin: nat, end: nat, l: nat)
    requires begin <= l && l + LINE_SIZE <= end <= |memory|
    ensures StagedLine(memory, begin, end - begin, l) == memory[l..l + LINE_SIZE]
  {
  }

  /** A prefetch of one more line. */
  lemma PrefetchNext(s: CacheState, begin: nat, l: nat, count: nat)
    requires WellFormed(s) && Aligned(begin) && Aligned(l) && begin <= l && l + LINE_SIZE <= ADDRESS_SPACE
    ensures Aligned(l + LINE_SIZE)
    ensures var p := Prefetch(s, begin, l, count).lines;
      && (l in p <==> l in s.lines)
      && Prefetch(s, begin, l + LINE_SIZE, count).lines ==
           if l in p then p else p[l := CacheLine(StagedLine(s.memory, begin, count, l), false)]
  {
    var p, q := Prefetch(s, begin, l, count).lines, Prefetch(s, begin, l + LINE_SIZE, count).lines;
    forall k: nat
      ensures k in q <==> k in p || k == l
      ensures k in q ==> q[k] == if k in p then p[k] else CacheLine(StagedLine(s.memory, begin, count, l), false)
    {
      PrefetchedOne(s, begin, l, count, k);
    }
    assert q == if l in p then p else p[l := CacheLine(StagedLine(s.memory, begin, count, l), false)];
  }

  /** What one more line of the range changes at line `k`. */
  lemma PrefetchedOne(s: CacheState, begin: nat, l: nat, count: nat, k: nat)
    requires WellFormed(s) && Aligned(begin) && Aligned(l) && begin <= l && l + LINE_SIZE <= ADDRESS_SPACE
    ensures Aligned(l + LINE_SIZE)
    ensures var p, q := Prefetch(s, begin, l, count).lines, Prefetch(s, begin, l + LINE_SIZE, count).lines;
      && (k in q <==> k in p || k == l)
      && (k in q ==> q[k] == if k in p then p[k] else CacheLine(StagedLine(s.memory, begin, count, l), false))
  {
    if l < k < l + LINE_SIZE && Aligned(k) { AlignedGap(l, k); }
  }

  /** The transfer count of a prefetch is ignored, so a short one shows zeros: the view
      survives if and only if every byte that was not transferred and not cached is zero. */
  lemma ShortPrefetch(s: CacheState, begin: nat, end: nat, count: nat)
    requires WellFormed(s) && begin <= end <= ADDRESS_SPACE && Aligned(begin) && Aligned(end)
    requires count <= end - begin
    ensures WellFormed(Prefetch(s, begin, end, count))
    ensures View(Prefetch(s, begin, end, count)) == View(s) <==>
      forall a :: begin + count <= a < end && LineOf(a) !in s.lines ==> s.memory[a] == 0
  {
    var t := Prefetch(s, begin, end, count);
    PrefetchedLines(s, begin, end, count);
    forall a | 0 <= a < ADDRESS_SPACE
      ensures ByteAt(t, a) ==
        if begin + count <= a < end && LineOf(a) !in s.lines then 0 else ByteAt(s, a)
    {
      ShortByte(s, begin, end, count, a);
    }
    if View(t) == View(s) {
      forall a | begin + count <= a < end && LineOf(a) !in s.lines
        ensures s.memory[a] == 0
      {
        assert View(t)[a] == View(s)[a];
      }
    }
    if forall a :: begin + count <= a < end && LineOf(a) !in s.lines ==> s.memory[a] == 0 {
      assert View(t) == View(s);
    }
  }

  ghost predicate KeepsView(s: CacheState, begin: nat, end: nat, count: nat)
    requires WellFormed(s) && end <= ADDRESS_SPACE && Aligned(begin) && Aligned(end)
  {
    var t := Prefetch(s, begin, end, count);
    WellFormed(t) && View(t) == View(s)
  }

  /** A memory that holds the bytes transferred, and anything beyond them. */
  ghost predicate SameBelow(m: Bytes, m': Bytes, bound: nat) {
    |m| == |m'| == ADDRESS_SPACE && forall a :: 0 <= a < bound && a < ADDRESS_SPACE ==> m'[a] == m[a]
  }

  /** A short prefetch is safe whatever the bytes are that were not transferred if and only if
      every one of them lies in a line already cached. */
  lemma ShortPrefetchGuard(s: CacheState, begin: nat, end: nat, count: nat)
    requires WellFormed(s) && begin <= end <= ADDRESS_SPACE && Aligned(begin) && Aligned(end)
    requires count <= end - begin
    ensures (forall m :: SameBelow(s.memory, m, begin + count) ==> KeepsView(s.(memory := m), begin, end, count)) <==>
      forall a :: begin + count <= a < end ==> LineOf(a) in s.lines
  {
    if forall a :: begin + count <= a < end ==> LineOf(a) in s.lines {
      forall m | SameBelow(s.memory, m, begin + count)
        ensures KeepsView(s.(memory := m), begin, end, count)
      {
        ShortPrefetch(s.(memory := m), begin, end, count);
      }
    } else {
      var a :| begin + count <= a < end && LineOf(a) !in s.lines;
      var m := s.memory[a := 1];
      ShortPrefetch(s.(memory := m), begin, end, count);
      assert SameBelow(s.memory, m, begin + count);
    }
  }

  /** One line of two arrives and the first byte of the other is not zero: it is lost. */
  lemma ShortPrefetchLosesByte()
    ensures exists s: CacheState :: WellFormed(s) && Coherent(s) && !KeepsView(s, 0, 128, 64)
  {
    var s := CacheState(map[], seq(ADDRESS_SPACE, a => if a == 64 then 1 else 0));
    ShortPrefetch(s, 0, 128, 64);
    assert s.memory[64] == 1 && LineOf(64) !in s.lines;
    assert !KeepsView(s, 0, 128, 64);
    assert Coherent(s);
  }

  lemma ShortByte(s: CacheState, begin: nat, end: nat, count: nat, a: nat)
    requires WellFormed(s) && begin <= end <= ADDRESS_SPACE && Aligned(begin) && Aligned(end)
    requires count <= end - begin && a < ADDRESS_SPACE && WellFormed(Prefetch(s, begin, end, count))
    ensures ByteAt(Prefetch(s, begin, end, count), a) ==
      if begin + count <= a < end && LineOf(a) !in s.lines then 0 else ByteAt(s, a)
  {
    LineInside(begin, end, a);
  }

  lemma LineInside(begin: nat, end: nat, a: nat)
    requires Aligned(begin) && Aligned(end)
    ensures begin <= LineOf(a) < end <==> begin <= a < end
  {
  }

  /** Write-back leaves the view alone, makes every line of the range clean, makes memory
      agree with the view wherever it wrote, and changes it nowhere else. */
  lemma WriteBackKeepsView(s: CacheState, first: nat, last: nat)
    requires WellFormed(s)
    ensures var t := WriteBack(s, first, last);
      && WellFormed(t) && View(t) == View(s) && AllClean(t, first, last)
      && (Coherent(s) ==> Coherent(t))
      && forall a :: 0 <= a < ADDRESS_SPACE ==>
           t.memory[a] == if WrittenBack(s, first, last, a) then ByteAt(s, a) else s.memory[a]
  {
    var t := WriteBack(s, first, last);
    forall a | 0 <= a < ADDRESS_SPACE
      ensures ByteAt(t, a) == ByteAt(s, a)
    {
    }
    assert View(t) == View(s);
    if Coherent(s) {
      forall l | l in t.lines
        ensures LineCoherent(t, l)
      {
        assert LineCoherent(s, l);
        WriteBackKeepsLine(s, first, last, l);
      }
    }
  }

  lemma WriteBackKeepsLine(s: CacheState, first: nat, last: nat, l: nat)
    requires WellFormed(s) && l in s.lines && LineCoherent(s, l)
    ensures WellFormed(WriteBack(s, first, last)) && LineCoherent(WriteBack(s, first, last), l)
  {
    var t := WriteBack(s, first, last);
    if !t.lines[l].dirty {
      forall i | 0 <= i < LINE_SIZE
        ensures t.lines[l].data[i] == t.memory[l + i]
      {
        LinesAlign(l, l + i);
        assert s.memory[l..l + LINE_SIZE][i] == s.memory[l + i];
      }
    }
  }

  // ----- a write-back that fails -----

  /** What a write-back that fails may leave in memory: at each byte the new value or the old. */
  ghost predicate OldOrNew(s: CacheState, first: nat, last: nat, memory: Bytes)
    requires WellFormed(s)
  {
    && |memory| == ADDRESS_SPACE
    && forall a :: 0 <= a < ADDRESS_SPACE ==> memory[a] == s.memory[a] || (WrittenBack(s, first, last, a) && memory[a] == ByteAt(s, a))
  }

  /** The lines are clean all the same. */
  ghost function AfterFailure(s: CacheState, first: nat, last: nat, memory: Bytes): CacheState
    requires WellFormed(s)
  {
    WriteBack(s, first, last).(memory := memory)
  }

  /** Every byte of a dirty line in the range has reached memory. */
  ghost predicate AllStored(s: CacheState, first: nat, last: nat, memory: Bytes)
    requires WellFormed(s) && |memory| == ADDRESS_SPACE
  {
    forall a :: 0 <= a < ADDRESS_SPACE && WrittenBack(s, first, last, a) ==> memory[a] == ByteAt(s, a)
  }

  lemma FailureKeepsView(s: CacheState, first: nat, last: nat, memory: Bytes)
    requires WellFormed(s) && OldOrNew(s, first, last, memory)
    ensures var t := AfterFailure(s, first, last, memory); WellFormed(t) && View(t) == View(s) && AllClean(t, first, last)
  {
    var t := AfterFailure(s, first, last, memory);
    forall a | 0 <= a < ADDRESS_SPACE
      ensures ByteAt(t, a) == ByteAt(s, a)
    {
    }
    assert View(t) == View(s);
  }

  lemma LineAfterFailure(s: CacheState, first: nat, last: nat, memory: Bytes, l: nat)
    requires WellFormed(s) && OldOrNew(s, first, last, memory) && l in s.lines && LineCoherent(s, l)
    requires AllStored(s, first, last, memory)
    ensures WellFormed(AfterFailure(s, first, last, memory)) && LineCoherent(AfterFailure(s, first, last, memory), l)
  {
    var t := AfterFailure(s, first, last, memory);
    if !t.lines[l].dirty {
      forall i | 0 <= i < LINE_SIZE
        ensures t.lines[l].data[i] == memory[l + i]
      {
        LinesAlign(l, l + i);
        if !s.lines[l].dirty { assert s.memory[l..l + LINE_SIZE][i] == s.memory[l + i]; }
      }
    }
  }

  /** After a failure the clean lines still agree with memory if and only if every byte of the lines
      that were dirty has reached it. */
  lemma FailureIsCoherentExactly(s: CacheState, first: nat, last: nat, memory: Bytes)
    requires WellFormed(s) && Coherent(s) && OldOrNew(s, first, last, memory)
    ensures WellFormed(AfterFailure(s, first, last, memory))
    ensures Coherent(AfterFailure(s, first, last, memory)) <==> AllStored(s, first, last, memory)
  {
    var t := AfterFailure(s, first, last, memory);
    if AllStored(s, first, last, memory) {
      forall l | l in t.lines
        ensures LineCoherent(t, l)
      {
        assert LineCoherent(s, l);
        LineAfterFailure(s, first, last, memory, l);
      }
    } else {
      var a :| 0 <= a < ADDRESS_SPACE && WrittenBack(s, first, last, a) && memory[a] != ByteAt(s, a);
      var l := LineOf(a);
      assert memory[l..l + LINE_SIZE][a - l] == memory[a];
      assert !LineCoherent(t, l);
    }
  }

  /** Whatever part of a write-back fails, they agree if and only if the lines that were dirty held
      what memory holds already. */
  lemma FailureGuard(s: CacheState, first: nat, last: nat)
    requires WellFormed(s) && Coherent(s)
    ensures (forall m :: OldOrNew(s, first, last, m) ==> AllStored(s, first, last, m)) <==> AllStored(s, first, last, s.memory)
  {
    assert OldOrNew(s, first, last, s.memory);
  }

  /** The next discard of the range is allowed, and loses nothing under the same condition. */
  lemma DiscardAfterFailureExactly(s: CacheState, first: nat, last: nat, memory: Bytes)
    requires WellFormed(s) && Coherent(s) && OldOrNew(s, first, last, memory)
    ensures var t := AfterFailure(s, first, last, memory);
      && WellFormed(t) && AllClean(t, first, last) && WellFormed(Discard(t, first, last))
      && (View(Discard(t, first, last)) == View(s) <==> AllStored(s, first, last, memory))
  {
    var t := AfterFailure(s, first, last, memory);
    FailureKeepsView(s, first, last, memory);
    FailureIsCoherentExactly(s, first, last, memory);
    if AllStored(s, first, last, memory) {
      DiscardKeepsView(t, first, last);
    } else {
      var a :| 0 <= a < ADDRESS_SPACE && WrittenBack(s, first, last, a) && memory[a] != ByteAt(s, a);
      assert View(Discard(t, first, last))[a] == memory[a] && View(s)[a] == ByteAt(s, a);
    }
  }

  /** Discarding clean, coherent lines leaves the view alone. */
  lemma DiscardKeepsView(s: CacheState, first: nat, last: nat)
    requires WellFormed(s) && Coherent(s) && AllClean(s, first, last)
    ensures var t := Discard(s, first, last); WellFormed(t) && Coherent(t) && View(t) == View(s)
  {
    var t := Discard(s, first, last);
    forall a | 0 <= a < ADDRESS_SPACE
      ensures ByteAt(t, a) == ByteAt(s, a)
    {
      var l := LineOf(a);
      if l in s.lines && l !in t.lines {
        assert LineCoherent(s, l);
        assert s.memory[l..l + LINE_SIZE][a - l] == s.memory[a];
      }
    }
    assert View(t) == View(s);
    forall l | l in t.lines
      ensures LineCoherent(t, l)
    {
      assert LineCoherent(s, l);
    }
  }

  // ----- whole runs -----

  datatype Operation =
    | Load(address: nat, size: nat)
    | Store(address: nat, data: Bytes)
    | Fetch(begin: nat, end: nat)
    | Flush(first: nat, last: nat)
    | Drop(first: nat, last: nat)

  /** What the callers must respect: no wrap-around at the top of the address space, whole
      lines, and no dirty line under a discard that is not forced. */
  ghost predicate Allowed(s: CacheState, op: Operation) {
    match op
    case Load(address, size) => address + size <= ADDRESS_SPACE
    case Store(address, data) => address + |data| <= ADDRESS_SPACE
    case Fetch(begin, end) => begin <= end <= ADDRESS_SPACE && Aligned(begin) && Aligned(end)
    case Flush(_, _) => true
    case Drop(first, last) => AllClean(s, first, last)
  }

  /** The state after `op` when every transfer is complete. */
  ghost function Apply(s: CacheState, op: Operation): CacheState
    requires WellFormed(s) && Allowed(s, op)
  {
    match op
    case Load(_, _) => s
    case Store(address, data) => Write(s, address, data)
    case Fetch(begin, end) => Prefetch(s, begin, end, end - begin)
    case Flush(first, last) => WriteBack(s, first, last)
    case Drop(first, last) => Discard(s, first, last)
  }

  /** The bytes `op` returns to its caller. */
  ghost function Answer(s: CacheState, op: Operation): Bytes
    requires WellFormed(s) && Allowed(s, op)
  {
    if op.Load? then View(s)[op.address..op.address + op.size] else []
  }

  /** The same operations on plain memory. */
  ghost function FlatApply(m: Bytes, op: Operation): (m': Bytes)
    requires |m| == ADDRESS_SPACE
    ensures |m'| == |m|
  {
    if op.Store? && op.address + |op.data| <= |m| then Patch(m, op.address, op.data) else m
  }

  ghost function FlatAnswers(m: Bytes, ops: seq<Operation>): seq<Bytes>
    requires |m| == ADDRESS_SPACE
    decreases |ops|
  {
    if ops == [] then []
    else
      var r := if ops[0].Load? && ops[0].address + ops[0].size <= |m|
        then m[ops[0].address..ops[0].address + ops[0].size] else [];
      [r] + FlatAnswers(FlatApply(m, ops[0]), ops[1..])
  }

  ghost function FlatRun(m: Bytes, ops: seq<Operation>): (m': Bytes)
    requires |m| == ADDRESS_SPACE
    ensures |m'| == |m|
    decreases |ops|
  {
    if ops == [] then m else FlatRun(FlatApply(m, ops[0]), ops[1..])
  }

  /** Once its line is dropped, a byte is seen as memory holds it. */
  lemma DropForgets(s: CacheState, first: nat, last: nat, a: nat)
    requires WellFormed(s) && Allowed(s, Drop(first, last)) && a < ADDRESS_SPACE && first <= LineOf(a) <= last
    ensures var t := Apply(s, Drop(first, last)); WellFormed(t) && ByteAt(t, a) == s.memory[a] && t.memory == s.memory
  {
  }

  ghost predicate Legal(s: CacheState, ops: seq<Operation>)
    requires WellFormed(s) && Coherent(s)
    decreases |ops|
  {
    ops == [] || (Allowed(s, ops[0]) && (StepRefines(s, ops[0]); Legal(Apply(s, ops[0]), ops[1..])))
  }

  ghost function Run(s: CacheState, ops: seq<Operation>): CacheState
    requires WellFormed(s) && Coherent(s) && Legal(s, ops)
    decreases |ops|
  {
    if ops == [] then s else StepRefines(s, ops[0]); Run(Apply(s, ops[0]), ops[1..])
  }

  ghost function Answers(s: CacheState, ops: seq<Operation>): seq<Bytes>
    requires WellFormed(s) && Coherent(s) && Legal(s, ops)
    decreases |ops|
  {
    if ops == [] then []
    else StepRefines(s, ops[0]); [Answer(s, ops[0])] + Answers(Apply(s, ops[0]), ops[1..])
  }

  lemma StepRefines(s: CacheState, op: Operation)
    requires WellFormed(s) && Coherent(s) && Allowed(s, op)
    ensures WellFormed(Apply(s, op)) && Coherent(Apply(s, op))
    ensures View(Apply(s, op)) == FlatApply(View(s), op)
  {
    StepFollows(s, op);
  }

  /** From `s` to `t` the view changes as flat memory does under `op`. */
  ghost predicate Follows(s: CacheState, t: CacheState, op: Operation)
    requires WellFormed(s)
  {
    WellFormed(t) && Coherent(t) && View(t) == FlatApply(View(s), op)
  }

  lemma StepFollows(s: CacheState, op: Operation)
    requires WellFormed(s) && Coherent(s) && Allowed(s, op)
    ensures Follows(s, Apply(s, op), op)
  {
    match op
    case Load(_, _) =>
    case Store(_, _) => StoreRefines(s, op);
    case Fetch(_, _) => FetchRefines(s, op);
    case Flush(_, _) => FlushRefines(s, op);
    case Drop(_, _) => DropRefines(s, op);
  }

  lemma FetchRefines(s: CacheState, op: Operation)
    requires WellFormed(s) && Coherent(s) && Allowed(s, op) && op.Fetch?
    ensures Follows(s, Apply(s, op), op)
  {
    PrefetchKeepsView(s, op.begin, op.end);
  }

  lemma DropRefines(s: CacheState, op: Operation)
    requires WellFormed(s) && Coherent(s) && Allowed(s, op) && op.Drop?
    ensures Follows(s, Apply(s, op), op)
  {
    DiscardKeepsView(s, op.first, op.last);
  }

  lemma StoreRefines(s: CacheState, op: Operation)
    requires WellFormed(s) && Coherent(s) && Allowed(s, op) && op.Store?
    ensures Follows(s, Apply(s, op), op)
  {
    WriteIsPatch(s, op.address, op.data);
  }

  lemma FlushRefines(s: CacheState, op: Operation)
    requires WellFormed(s) && Coherent(s) && Allowed(s, op) && op.Flush?
    ensures Follows(s, Apply(s, op), op)
  {
    WriteBackKeepsView(s, op.first, op.last);
  }

  /** Over any legal sequence of operations the cache cannot be told from flat memory: every
      read returns the bytes last written, the views stay equal and clean lines stay coherent. */
  lemma {:induction false} CacheRefinesFlatMemory(s: CacheState, ops: seq<Operation>)
    requires WellFormed(s) && Coherent(s) && Legal(s, ops)
    ensures Answers(s, ops) == FlatAnswers(View(s), ops)
    ensures WellFormed(Run(s, ops)) && Coherent(Run(s, ops))
    ensures View(Run(s, ops)) == FlatRun(View(s), ops)
    decreases |ops|
  {
    if ops != [] {
      StepRefines(s, ops[0]);
      CacheRefinesFlatMemory(Apply(s, ops[0]), ops[1..]);
    }
  }

  /** Nothing written is ever lost: writing everything back after any run leaves exactly the
      flat result in the backing memory. */
  lemma FlushAfterRun(s: CacheState, ops: seq<Operation>)
    requires WellFormed(s) && Coherent(s) && Legal(s, ops)
    ensures WellFormed(Run(s, ops))
    ensures WriteBack(Run(s, ops), 0, ADDRESS_SPACE).memory == FlatRun(View(s), ops)
  {
    CacheRefinesFlatMemory(s, ops);
    var t := Run(s, ops);
    var u := WriteBack(t, 0, ADDRESS_SPACE);
    forall a | 0 <= a < ADDRESS_SPACE
      ensures u.memory[a] == View(t)[a]
    {
      WriteBackAgrees(t, 0, ADDRESS_SPACE, a);
    }
  }

  /** After a write-back, memory agrees with the view at every byte of the range whose line
      was dirty or coherent. */
  lemma WriteBackAgrees(s: CacheState, first: nat, last: nat, a: nat)
    requires WellFormed(s) && a < ADDRESS_SPACE
    requires first <= LineOf(a) <= last
    requires LineOf(a) in s.lines ==> LineCoherent(s, LineOf(a))
    ensures WriteBack(s, first, last).memory[a] == ByteAt(s, a)
  {
    var l := LineOf(a);
    if l in s.lines && !s.lines[l].dirty {
      assert s.memory[l..l + LINE_SIZE][a - l] == s.memory[a];
    }
  }
}
