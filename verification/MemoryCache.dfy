/** The memory cache itself: a map of 64-byte lines over the backing global memory, updated in
    place. Every method is tied to the operation of the same name in CacheSpec. */
module MemoryCaches {
  import opened FlatMemory
  import opened CacheSpec

  datatype Access = Read(size: nat) | Write(data: Bytes)

  function SizeOf(access: Access): nat {
    match access
    case Read(size) => size
    case Write(data) => |data|
  }

  function Piece(access: Access, from: nat, to: nat): Access
    requires from <= to <= SizeOf(access)
  {
    match access
    case Read(_) => Read(to - from)
    case Write(data) => Write(data[from..to])
  }

  /** The first `count` bytes of a write, nothing for a read. */
  function Stored(access: Access, count: nat): Bytes
    requires count <= SizeOf(access)
  {
    if access.Write? then access.data[..count] else []
  }

  /** How a transfer ends: with the number of bytes moved, or with an exception, for a memory
      access error or because the process has exited. */
  datatype Outcome = Done(count: nat) | Fault | Exited

  /** The bytes a single transfer of process memory has moved. */
  function Count(outcome: Outcome): nat {
    if outcome.Done? then outcome.count else 0
  }

  /** The process memory behind the cache. A transfer moves the first bytes of the request;
      unless `reliable` is set the environment may make it short or fail. */
  class GlobalMemory {
    var bytes: Bytes
    const reliable: bool

    constructor (bytes: Bytes, reliable: bool)
      requires |bytes| == ADDRESS_SPACE
      ensures this.bytes == bytes && this.reliable == reliable
    {
      this.bytes := bytes;
      this.reliable := reliable;
    }

    method Transfer(address: nat, access: Access) returns (outcome: Outcome, data: Bytes)
      requires |bytes| == ADDRESS_SPACE && address + SizeOf(access) <= ADDRESS_SPACE
      modifies this
      ensures Count(outcome) <= SizeOf(access) && (reliable ==> outcome == Done(SizeOf(access)))
      ensures |bytes| == ADDRESS_SPACE
      ensures access.Write? ==> bytes == Patch(old(bytes), address, access.data[..Count(outcome)]) && data == []
      ensures access.Read? ==> bytes == old(bytes) && data == bytes[address..address + Count(outcome)]
    {
      var n: nat :| n <= SizeOf(access) + 2;
      if reliable { n := SizeOf(access); }
      outcome := if n <= SizeOf(access) then Done(n) else if n == SizeOf(access) + 1 then Fault else Exited;
      match access {
        case Read(_) =>
          data := bytes[address..address + Count(outcome)];
        case Write(source) =>
          data := [];
          bytes := Patch(bytes, address, source[..Count(outcome)]);
      }
    }
  }

  /** An iterator position in the ordered map of lines. */
  datatype Position = At(line: nat) | End

  class MemoryCache {
    var lines: map<nat, CacheLine>
    const backing: GlobalMemory

    ghost predicate Valid()
      reads this, backing
    {
      WellFormed(Abs())
    }

    ghost function Abs(): CacheState
      reads this, backing
    {
      CacheState(lines, backing.bytes)
    }

    constructor (backing: GlobalMemory)
      requires |backing.bytes| == ADDRESS_SPACE
      ensures Valid() && this.backing == backing && Abs() == CacheState(map[], backing.bytes)
    {
      this.backing := backing;
      lines := map[];
    }

    /** The first line at or above `from`, as the ordered map's lower bound. */
    method LowerBound(from: nat) returns (it: Position)
      ensures it.End? ==> forall l :: l in lines ==> l < from
      ensures it.At? ==> it.line in lines && from <= it.line
      ensures it.At? ==> forall l :: l in lines && from <= l ==> it.line <= l
    {
      it := End;
      var rest := lines.Keys;
      while rest != {}
        invariant rest <= lines.Keys
        invariant it.At? ==> it.line in lines && from <= it.line
        invariant it.End? ==> forall l :: l in lines && l !in rest ==> l < from
        invariant it.At? ==> forall l :: l in lines && l !in rest && from <= l ==> it.line <= l
      {
        var l :| l in rest;
        if from <= l && (it.End? || l < it.line) {
          it := At(l);
        }
        rest := rest - {l};
      }
    }

    method ContainsAll(address: nat, size: nat) returns (all: bool)
      requires size > 0 && address + size <= ADDRESS_SPACE
      ensures all <==> forall a :: address <= a < address + size ==> LineOf(a) in lines
    {
      var begin := LineOf(address);
      var end := LineEnd(address + size);
      var l := begin;
      while l < end
        invariant Aligned(l) && begin <= l <= end
        invariant forall a :: address <= a < address + size && LineOf(a) < l ==> LineOf(a) in lines
      {
        ghost var a := if address < l then l else address;
        LinesAlign(l, a);
        NextLine(l);
        if l !in lines {
          assert address <= a < address + size && LineOf(a) == l;
          return false;
        }
        l := l + LINE_SIZE;
      }
      return true;
    }

    /** Creates the absent lines of the range and fills them, ignoring how many bytes the
        transfer delivered. After a memory access error the prefetch is dropped; that the
        process has exited is reported. */
    method Prefetch(address: nat, size: nat) returns (exited: bool, ghost dropped: bool, ghost count: nat)
      requires Valid() && LineEnd(address + size) <= ADDRESS_SPACE
      modifies this, backing
      ensures size == 0 || exited || dropped ==> Abs() == old(Abs())
      ensures size > 0 && !exited && !dropped ==>
        var begin, end := LineOf(address), LineEnd(address + size);
        && count <= end - begin && (backing.reliable ==> count == end - begin)
        && Abs() == CacheSpec.Prefetch(old(Abs()), begin, end, count)
      ensures backing.reliable ==> !exited && !dropped
      ensures Valid()
    {
      exited, dropped, count := false, false, 0;
      if size == 0 {
        return;
      }
      var begin := LineOf(address);
      var end := LineEnd(address + size);
      var outcome, data := backing.Transfer(begin, Read(end - begin));
      match outcome {
        case Done(n) =>
          var staging := data + seq(end - begin - |data|, _ => 0);
          count := n;
          StagingHolds(backing.bytes, begin, end, data);
          FillLines(begin, end, staging, n);
        case Fault =>
          dropped := true;
        case Exited =>
          exited := true;
      }
    }

    /** The filling loop of a prefetch: a line that is already present keeps its contents. */
    method FillLines(begin: nat, end: nat, staging: Bytes, ghost count: nat)
      requires Valid() && Aligned(begin) && Aligned(end) && begin <= end <= ADDRESS_SPACE
      requires staging == Staging(backing.bytes, begin, end, count)
      modifies this
      ensures Valid() && Abs() == CacheSpec.Prefetch(old(Abs()), begin, end, count)
    {
      ghost var before := Abs();
      var l := begin;
      NothingPrefetched(before, begin, count);
      while l < end
        invariant Aligned(l) && begin <= l <= end && WellFormed(before)
        invariant lines == CacheSpec.Prefetch(before, begin, l, count).lines
      {
        AlignedGap(l, end);
        FillLine(begin, end, staging, before, count, l);
        l := l + LINE_SIZE;
      }
      PrefetchedLines(before, begin, end, count);
    }

    /** Creates the line at `l` from the staging buffer unless it is present. */
    method FillLine(begin: nat, end: nat, staging: Bytes, ghost before: CacheState, ghost count: nat, l: nat)
      requires WellFormed(before) && Aligned(begin) && Aligned(l) && begin <= l && l + LINE_SIZE <= end <= ADDRESS_SPACE
      requires before.memory == backing.bytes && lines == CacheSpec.Prefetch(before, begin, l, count).lines
      requires staging == Staging(backing.bytes, begin, end, count)
      modifies this
      ensures Aligned(l + LINE_SIZE) && lines == CacheSpec.Prefetch(before, begin, l + LINE_SIZE, count).lines
    {
      var present := ContainsAll(l, LINE_SIZE);
      OneLine(l);
      StagedLineOf(backing.bytes, begin, end, count, l);
      PrefetchNext(before, begin, l, count);
      if !present {
        lines := lines[l := CacheLine(staging[l - begin..l - begin + LINE_SIZE], false)];
      }
    }

    lemma NothingPrefetched(s: CacheState, begin: nat, count: nat)
      requires WellFormed(s) && Aligned(begin) && begin <= ADDRESS_SPACE
      ensures CacheSpec.Prefetch(s, begin, begin, count).lines == s.lines
    {
    }

    /** A zeroed buffer for [begin, end) of which the first `count` bytes were filled. */
    ghost function Staging(memory: Bytes, begin: nat, end: nat, count: nat): Bytes
      requires begin <= end <= |memory|
    {
      seq(end - begin, i requires 0 <= i < end - begin => if i < count then memory[begin + i] else 0)
    }

    /** The staging buffer, cut at line boundaries. */
    lemma StagedLineOf(memory: Bytes, begin: nat, end: nat, count: nat, l: nat)
      requires begin <= l && l + LINE_SIZE <= end <= |memory|
      ensures Staging(memory, begin, end, count)[l - begin..l - begin + LINE_SIZE] == StagedLine(memory, begin, count, l)
    {
    }

    lemma StagingHolds(memory: Bytes, begin: nat, end: nat, data: Bytes)
      requires begin + |data| <= end <= |memory| && data == memory[begin..begin + |data|]
      ensures data + seq(end - begin - |data|, _ => 0) == Staging(memory, begin, end, |data|)
    {
    }

    /** No line boundary lies strictly between one line and the next. */
    lemma NextLine(l: nat)
      requires Aligned(l)
      ensures Aligned(l + LINE_SIZE)
      ensures forall k: nat :: l < k < l + LINE_SIZE ==> !Aligned(k)
    {
    }

    lemma OneLine(l: nat)
      requires Aligned(l)
      ensures (forall a :: l <= a < l + LINE_SIZE ==> LineOf(a) in lines) <==> l in lines
    {
      assert LineOf(l) == l;
      forall a | l <= a < l + LINE_SIZE
        ensures LineOf(a) == l
      {
        LinesAlign(l, a);
      }
    }

    /** The end of the run of adjacent dirty lines that starts at `start`. */
    method FindRun(start: nat, last: nat) returns (next: nat)
      requires Valid() && start in lines && lines[start].dirty
      requires start <= last && Aligned(last)
      ensures Aligned(next) && start < next <= last + LINE_SIZE && next <= ADDRESS_SPACE
      ensures forall l :: start <= l < next && Aligned(l) ==> l in lines && lines[l].dirty
    {
      next := start + LINE_SIZE;
      NextLine(start);
      while next <= last && next in lines && lines[next].dirty
        invariant Aligned(next) && start < next <= last + LINE_SIZE && next <= ADDRESS_SPACE
        invariant forall l :: start <= l < next && Aligned(l) ==> l in lines && lines[l].dirty
        decreases last + LINE_SIZE - next
      {
        NextLine(next);
        next := next + LINE_SIZE;
      }
    }

    /** The staging buffer holds the lines of the run. */
    ghost predicate RunCopied(was: map<nat, CacheLine>, start: nat, next: nat, staging: Bytes)
      requires WellFormedLines(was)
    {
      && |staging| == next - start
      && forall a :: start <= a < next ==>
           LineOf(a) in was && staging[a - start] == was[LineOf(a)].data[a - LineOf(a)]
    }

    ghost predicate RunCleaned(was: map<nat, CacheLine>, start: nat, next: nat, now: map<nat, CacheLine>) {
      && now.Keys == was.Keys
      && forall l :: l in now ==> now[l] == if start <= l < next then was[l].(dirty := false) else was[l]
    }

    /** Copies the run [start, next) into a staging buffer and marks its lines clean. */
    method CollectRun(start: nat, next: nat) returns (staging: Bytes)
      requires Valid() && Aligned(start) && Aligned(next) && start < next <= ADDRESS_SPACE
      requires forall l :: start <= l < next && Aligned(l) ==> l in lines
      modifies this
      ensures |staging| == next - start
      ensures RunCopied(old(lines), start, next, staging) && RunCleaned(old(lines), start, next, lines)
    {
      ghost var before := lines;
      staging := [];
      var it := start;
      while it != next
        invariant Aligned(it) && start <= it <= next
        invariant |staging| == it - start
        invariant forall a :: start <= a < it ==>
          LineOf(a) in before && staging[a - start] == before[LineOf(a)].data[a - LineOf(a)]
        invariant lines.Keys == before.Keys
        invariant forall l :: l in lines ==>
          lines[l] == if start <= l < it then before[l].(dirty := false) else before[l]
        decreases next - it
      {
        AlignedGap(it, next);
        forall a | it <= a < it + LINE_SIZE
          ensures LineOf(a) == it
        {
          LinesAlign(it, a);
        }
        NextLine(it);
        staging := staging + lines[it].data;
        lines := lines[it := lines[it].(dirty := false)];
        it := it + LINE_SIZE;
      }
    }

    /** Write-back has marked the lines of the range below `from` clean and touched no other. */
    ghost predicate CleanedBelow(s: CacheState, first: nat, last: nat, from: nat, now: map<nat, CacheLine>) {
      && now.Keys == s.lines.Keys
      && forall l :: l in now ==>
           now[l] == CleanedLine(s.lines[l], first, last, from, l)
    }

    /** Write-back has stored the dirty bytes below `from`; after a failure some of them may
        still have their old value. No other byte has changed. */
    ghost predicate StoredBelow(s: CacheState, first: nat, last: nat, from: nat, now: Bytes, failed: bool)
      requires WellFormed(s)
    {
      && |now| == ADDRESS_SPACE
      && forall a :: 0 <= a < ADDRESS_SPACE ==>
           || now[a] == (if a < from && WrittenBack(s, first, last, a) then ByteAt(s, a) else s.memory[a])
           || (failed && now[a] == s.memory[a])
    }

    /** Nothing is dirty in [from, to), so storing is also done below `to`. */
    lemma SkipClean(s: CacheState, first: nat, last: nat, from: nat, to: nat, now: Bytes, failed: bool)
      requires WellFormed(s) && Aligned(from) && Aligned(to)
      requires StoredBelow(s, first, last, from, now, failed)
      requires forall l :: l in s.lines && from <= l < to && first <= l <= last ==> !s.lines[l].dirty
      ensures StoredBelow(s, first, last, if from < to then to else from, now, failed)
    {
      forall a | from <= a < to && a < ADDRESS_SPACE
        ensures !WrittenBack(s, first, last, a)
      {
        LineInside(from, to, a);
      }
    }

    /** A run of dirty lines has been transferred. */
    lemma RunStored(s: CacheState, first: nat, last: nat, from: nat, to: nat, was: Bytes, staging: Bytes,
      count: nat, failed: bool)
      requires WellFormed(s) && Aligned(from) && Aligned(to) && Aligned(last)
      requires first <= from < to <= last + LINE_SIZE && to <= ADDRESS_SPACE
      requires StoredBelow(s, first, last, from, was, failed)
      requires forall l :: from <= l < to && Aligned(l) ==> l in s.lines && s.lines[l].dirty
      requires count <= |staging| == to - from
      requires forall a :: from <= a < to ==> staging[a - from] == ByteAt(s, a)
      ensures StoredBelow(s, first, last, to, Patch(was, from, staging[..count]), failed || count < |staging|)
    {
      var now := Patch(was, from, staging[..count]);
      forall a | 0 <= a < ADDRESS_SPACE
        ensures
          || now[a] == (if a < to && WrittenBack(s, first, last, a) then ByteAt(s, a) else s.memory[a])
          || ((failed || count < |staging|) && now[a] == s.memory[a])
      {
        if from <= a < to { ByteOfRun(s, first, last, from, to, a); }
      }
    }

    lemma ByteOfRun(s: CacheState, first: nat, last: nat, from: nat, to: nat, a: nat)
      requires Aligned(from) && Aligned(to) && Aligned(last) && first <= from <= a < to <= last + LINE_SIZE
      requires forall l :: from <= l < to && Aligned(l) ==> l in s.lines && s.lines[l].dirty
      ensures WrittenBack(s, first, last, a)
    {
      LineInside(from, to, a);
      AlignedGap(LineOf(a), last + LINE_SIZE);
    }

    /** Writes one run of adjacent dirty lines back with a single transfer. Tells whether it
        failed; when the process has exited its bytes are dropped without saying so. */
    method WriteRun(start: nat, last: nat, ghost before: CacheState, ghost first: nat, ghost failed: bool)
      returns (next: nat, short: bool, ghost dropped: bool)
      requires Valid() && WellFormed(before) && Aligned(first) && Aligned(last) && first <= start <= last
      requires start in lines && lines[start].dirty
      requires CleanedBelow(before, first, last, start, lines)
      requires StoredBelow(before, first, last, start, backing.bytes, failed)
      modifies this, backing
      ensures Valid() && Aligned(next) && start < next <= ADDRESS_SPACE
      ensures CleanedBelow(before, first, last, next, lines)
      ensures StoredBelow(before, first, last, next, backing.bytes, failed || short || dropped)
      ensures backing.reliable ==> !short && !dropped
    {
      next := FindRun(start, last);
      ghost var was := backing.bytes;
      ghost var wasLines := lines;
      var staging := CollectRun(start, next);
      RunIsClean(before, first, last, start, next, wasLines, lines);
      RunIsStaged(before, first, last, start, next, wasLines, staging);
      var outcome, _ := backing.Transfer(start, Write(staging));
      RunStored(before, first, last, start, next, was, staging, Count(outcome), failed);
      short := outcome != Done(|staging|) && !outcome.Exited?;
      dropped := outcome.Exited?;
    }

    lemma RunIsClean(s: CacheState, first: nat, last: nat, start: nat, next: nat,
      was: map<nat, CacheLine>, now: map<nat, CacheLine>)
      requires WellFormed(s) && Aligned(last) && first <= start < next <= last + LINE_SIZE
      requires CleanedBelow(s, first, last, start, was) && RunCleaned(was, start, next, now)
      ensures CleanedBelow(s, first, last, next, now) && WellFormedLines(now)
    {
      forall l | l in now
        ensures now[l] == CleanedLine(s.lines[l], first, last, next, l)
      {
        assert was[l] == CleanedLine(s.lines[l], first, last, start, l);
        if start <= l < next { AlignedBelow(l, last); }
      }
    }

    /** The line at `l` once write-back has come as far as `from`. */
    static function CleanedLine(line: CacheLine, first: nat, last: nat, from: nat, l: nat): CacheLine {
      if first <= l <= last && l < from then line.(dirty := false) else line
    }

    static lemma AlignedBelow(l: nat, last: nat)
      requires Aligned(l) && Aligned(last) && l < last + LINE_SIZE
      ensures l <= last
    {
    }

    lemma RunIsStaged(s: CacheState, first: nat, last: nat, start: nat, next: nat, was: map<nat, CacheLine>, staging: Bytes)
      requires WellFormed(s) && WellFormedLines(was) && Aligned(start) && start < next <= ADDRESS_SPACE
      requires CleanedBelow(s, first, last, start, was) && RunCopied(was, start, next, staging)
      ensures forall a :: start <= a < next ==> staging[a - start] == ByteAt(s, a)
    {
      forall a | start <= a < next
        ensures staging[a - start] == ByteAt(s, a)
      {
        assert LineOf(a) in was;
      }
    }

    /** Every line of the range has been visited. */
    lemma AllVisited(s: CacheState, first: nat, last: nat, from: nat, now: CacheState, failed: bool)
      requires WellFormed(s) && Aligned(from) && Aligned(last)
      requires CleanedBelow(s, first, last, from, now.lines)
      requires StoredBelow(s, first, last, from, now.memory, failed)
      requires forall l :: l in s.lines && from <= l ==> l > last
      ensures var done := CacheSpec.WriteBack(s, first, last);
        && now.lines == done.lines
        && (!failed ==> now.memory == done.memory)
        && OldOrNew(s, first, last, now.memory)
    {
      SkipClean(s, first, last, from, LineEnd(ADDRESS_SPACE), now.memory, failed);
    }

    /** Writes the dirty lines of the range back, one transfer for each run of adjacent dirty
        lines. Lines are marked clean before their transfer; a short transfer or an access
        error is reported once all are done, an exit of the process is not. */
    method WriteBack(address: nat, size: nat) returns (failed: bool, ghost dropped: bool)
      requires Valid() && address + size <= ADDRESS_SPACE
      modifies this, backing
      ensures Valid()
      ensures size == 0 ==> Abs() == old(Abs()) && !failed && !dropped
      ensures size > 0 ==>
        var first, last := LineOf(address), LineOf(address + size - 1);
        var done := CacheSpec.WriteBack(old(Abs()), first, last);
        && lines == done.lines
        && (!failed && !dropped ==> backing.bytes == done.memory)
        && OldOrNew(old(Abs()), first, last, backing.bytes)
      ensures backing.reliable ==> !failed && !dropped
    {
      failed, dropped := false, false;
      if size == 0 {
        return;
      }
      var first := LineOf(address);
      var last := LineOf(address + size - 1);
      ghost var before := Abs();
      var it := LowerBound(first);
      ghost var from := first;
      while it.At? && it.line <= last
        invariant WrittenSoFar(before, first, last, from, failed || dropped, Abs())
        invariant it.At? ==> it.line in lines && from <= it.line
        invariant forall l :: l in before.lines && from <= l ==> it.At? && it.line <= l
        invariant backing.reliable ==> !failed && !dropped
        decreases ADDRESS_SPACE - from
      {
        var next, short, gone := WriteNext(it.line, last, before, first, from, failed || dropped);
        failed := failed || short;
        dropped := dropped || gone;
        from := next;
        it := LowerBound(next);
      }
      AllVisited(before, first, last, from, Abs(), failed || dropped);
    }

    /** Write-back has come as far as `from`. */
    ghost predicate WrittenSoFar(before: CacheState, first: nat, last: nat, from: nat, failed: bool, now: CacheState)
      requires WellFormed(before)
    {
      && WellFormed(now) && first <= from <= ADDRESS_SPACE && Aligned(from)
      && CleanedBelow(before, first, last, from, now.lines) && StoredBelow(before, first, last, from, now.memory, failed)
    }

    /** Passes over a clean line, or writes the run of dirty lines that begins there. */
    method WriteNext(start: nat, last: nat, ghost before: CacheState, ghost first: nat, ghost from: nat, ghost failed: bool)
      returns (next: nat, short: bool, ghost dropped: bool)
      requires WellFormed(before) && Aligned(first) && Aligned(last) && start in lines && from <= start <= last
      requires WrittenSoFar(before, first, last, from, failed, Abs())
      requires forall l :: l in before.lines && from <= l ==> start <= l
      modifies this, backing
      ensures start < next && WrittenSoFar(before, first, last, next, failed || short || dropped, Abs())
      ensures backing.reliable ==> !short && !dropped
    {
      SkipClean(before, first, last, from, start, backing.bytes, failed);
      if lines[start].dirty {
        next, short, dropped := WriteRun(start, last, before, first, failed);
      } else {
        next, short, dropped := start + LINE_SIZE, false, false;
        NextLine(start);
        SkipClean(before, first, last, start, next, backing.bytes, failed);
      }
    }

    /** Drops every line of the range; unless forced, none of them may be dirty. */
    method Discard(address: nat, size: nat, ghost force: bool)
      requires Valid() && address + size <= ADDRESS_SPACE
      requires size > 0 && !force ==>
        AllClean(Abs(), LineOf(address), LineOf(address + size - 1))
      modifies this
      ensures Valid()
      ensures Abs() == if size == 0 then old(Abs()) else
        CacheSpec.Discard(old(Abs()), LineOf(address), LineOf(address + size - 1))
    {
      if size == 0 {
        return;
      }
      var first := LineOf(address);
      var last := LineOf(address + size - 1);
      ghost var before := Abs();
      ghost var from := first;
      var it := LowerBound(first);
      while it.At? && it.line <= last
        invariant forall l :: l in lines <==> l in before.lines && !(first <= l < from)
        invariant forall l :: l in lines ==> lines[l] == before.lines[l]
        invariant first <= from <= last + 1
        invariant it.At? ==> it.line in lines && from <= it.line
        invariant forall l :: l in lines && from <= l ==> it.At? && it.line <= l
        decreases last + 1 - from
      {
        assert force || !lines[it.line].dirty;
        lines := lines - {it.line};
        from := it.line + 1;
        it := LowerBound(it.line);
      }
      assert Abs() == CacheSpec.Discard(before, first, last);
    }

    /** Exactly the first `count` bytes of `access` were moved, and nothing else changed. */
    ghost predicate Moved(s: CacheState, address: nat, access: Access, count: nat, data: Bytes, now: CacheState)
      requires WellFormed(s) && address + SizeOf(access) <= ADDRESS_SPACE
    {
      && count <= SizeOf(access)
      && now == CacheSpec.Write(s, address, Stored(access, count))
      && data == if access.Read? then View(s)[address..address + count] else []
    }

    lemma MovedMore(s: CacheState, address: nat, access: Access, n: nat, data: Bytes, mid: CacheState,
      to: nat, more: nat, piece: Bytes, now: CacheState)
      requires WellFormed(s) && address + SizeOf(access) <= ADDRESS_SPACE
      requires Moved(s, address, access, n, data, mid) && WellFormed(mid)
      requires n <= to <= SizeOf(access)
      requires Moved(mid, address + n, Piece(access, n, to), more, piece, now)
      ensures Moved(s, address, access, n + more, data + piece, now)
    {
      match access
      case Read(size) =>
        ReadMore(s, address, n, more);
        WriteNothing(s, address);
        WriteNothing(s, address + n);
      case Write(source) =>
        assert more <= SizeOf(Piece(access, n, to)) == to - n;
        PrefixOfSlice(source, n, to, n + more);
        WriteMore(s, address, source, n, more);
    }

    static lemma ReadMore(s: CacheState, address: nat, n: nat, more: nat)
      requires WellFormed(s) && address + n + more <= ADDRESS_SPACE
      ensures View(s)[address..address + n] + View(s)[address + n..address + n + more] == View(s)[address..address + n + more]
    {
    }

    static lemma WriteMore(s: CacheState, address: nat, source: Bytes, n: nat, more: nat)
      requires WellFormed(s) && n + more <= |source| && address + |source| <= ADDRESS_SPACE
      ensures WellFormed(CacheSpec.Write(s, address, source[..n]))
      ensures CacheSpec.Write(CacheSpec.Write(s, address, source[..n]), address + n, source[n..n + more])
        == CacheSpec.Write(s, address, source[..n + more])
    {
      assert source[..n] + source[n..n + more] == source[..n + more];
      WriteConcat(s, address, source[..n], source[n..n + more]);
    }

    /** The access is cut short at the end of the address space. */
    static function Clamped(address: nat, access: Access): Access
      requires address < ADDRESS_SPACE
    {
      if address + SizeOf(access) <= ADDRESS_SPACE then access else Piece(access, 0, ADDRESS_SPACE - address)
    }

    /** A range that reaches the end of the address space lies in the last line or touches no
        cached line; of any other the code never sees the end. */
    static predicate ComesToAnEnd(lines: map<nat, CacheLine>, address: nat, size: nat) {
      address + size < ADDRESS_SPACE || LineOf(address) + LINE_SIZE >= ADDRESS_SPACE
        || forall l :: l in lines ==> l < LineOf(address)
    }

    /** What a transfer has done when it ends with `outcome`: exactly the first `count` bytes
        were moved; the count is what it returns, unless it ends with an exception, and if it
        is short the next byte was not cached. */
    ghost predicate Transferred(s: CacheState, address: nat, access: Access, outcome: Outcome, count: nat, data: Bytes, now: CacheState)
      requires WellFormed(s) && address + SizeOf(access) <= ADDRESS_SPACE
    {
      && Moved(s, address, access, count, data, now)
      && (outcome.Done? ==> outcome.count == count)
      && (!outcome.Done? ==> count < SizeOf(access))
      && (count < SizeOf(access) ==> LineOf(address + count) !in s.lines)
    }

    /** Reads or writes `access` at `address`. The count returned says how much was moved:
        exactly that prefix was read from, or written to, the view, and nothing beyond it
        changed, whatever mix of cached and uncached lines the range covers. */
    method Transfer(address: nat, access: Access) returns (outcome: Outcome, ghost count: nat, data: Bytes)
      requires Valid() && address < ADDRESS_SPACE && ComesToAnEnd(lines, address, SizeOf(access))
      modifies this, backing
      ensures Valid() && Transferred(old(Abs()), address, Clamped(address, access), outcome, count, data, Abs())
      ensures backing.reliable ==> outcome == Done(SizeOf(Clamped(address, access)))
      decreases SizeOf(access) > 0 && LineOf(address) != LineOf(address + SizeOf(access) - 1), 1
    {
      ghost var before := Abs();
      WriteNothing(before, address);
      outcome, count, data := Done(0), 0, [];
      if SizeOf(access) == 0 {
        return;
      }
      var request := Clamped(address, access);
      var firstLine := LineOf(address);
      var lastLine := LineOf(address + SizeOf(request) - 1);
      var begin := LowerBound(firstLine);
      if begin.End? || begin.line > lastLine {
        outcome, data := backing.Transfer(address, request);
        count := Count(outcome);
        UncachedRange(before, address, request, outcome, firstLine, lastLine, data);
      } else if firstLine != lastLine {
        outcome, count, data := TransferLineByLine(address, request);
      } else {
        outcome, count, data := TransferWithinLine(address, request, firstLine);
      }
    }

    /** Part of a transfer over several lines: `moved` bytes in whole chunks, unless the last
        one was not complete. */
    ghost predicate Partly(s: CacheState, address: nat, access: Access, outcome: Outcome, count: nat, data: Bytes,
      moved: nat, complete: bool, now: CacheState)
      requires WellFormed(s) && address + SizeOf(access) <= ADDRESS_SPACE
    {
      && WellFormed(now) && Moved(s, address, access, count, data, now)
      && (outcome.Done? ==> outcome.count == count)
      && (complete ==> outcome == Done(moved))
      && (!complete ==> count < SizeOf(access) && LineOf(address + count) !in s.lines)
    }

    /** A transfer over several lines, one line at a time; it stops at the first short piece. */
    method TransferLineByLine(address: nat, access: Access) returns (outcome: Outcome, ghost count: nat, data: Bytes)
      requires Valid() && address + SizeOf(access) < ADDRESS_SPACE && SizeOf(access) > 0
      requires LineOf(address) != LineOf(address + SizeOf(access) - 1)
      modifies this, backing
      ensures Valid() && Transferred(old(Abs()), address, access, outcome, count, data, Abs())
      ensures backing.reliable ==> outcome == Done(SizeOf(access))
      decreases true, 0
    {
      ghost var before := Abs();
      WriteNothing(before, address);
      outcome, count, data := Done(0), 0, [];
      var moved, complete := 0, true;
      while moved < SizeOf(access) && complete
        invariant moved <= SizeOf(access)
        invariant Partly(before, address, access, outcome, count, data, moved, complete, Abs())
        invariant backing.reliable ==> complete
        decreases SizeOf(access) - moved, complete
      {
        outcome, count, data, moved, complete := TransferChunk(address, access, moved, data, before);
      }
    }

    /** Adds the next chunk to a transfer; a chunk stays in one line. */
    method TransferChunk(address: nat, access: Access, moved: nat, data: Bytes, ghost before: CacheState)
      returns (outcome: Outcome, ghost count: nat, data': Bytes, moved': nat, complete: bool)
      requires Valid() && WellFormed(before) && address + SizeOf(access) < ADDRESS_SPACE && moved < SizeOf(access)
      requires Moved(before, address, access, moved, data, Abs())
      modifies this, backing
      ensures Partly(before, address, access, outcome, count, data', moved', complete, Abs())
      ensures moved <= moved' <= SizeOf(access) && (complete ==> moved < moved')
      ensures backing.reliable ==> complete
      decreases false, 2
    {
      var to := ChunkEnd(address, SizeOf(access), moved);
      ghost var mid := Abs();
      ghost var n;
      var piece;
      outcome, n, piece := Transfer(address + moved, Piece(access, moved, to));
      MovedMore(before, address, access, moved, data, mid, to, n, piece, Abs());
      count, data' := moved + n, data + piece;
      moved', complete := moved, outcome == Done(to - moved);
      if outcome.Done? {
        moved' := moved + outcome.count;
        outcome := Done(moved');
      }
    }

    /** Where the chunk that starts `count` bytes into a transfer ends: at the next line or at the
        end of the transfer. */
    static function ChunkEnd(address: nat, size: nat, count: nat): (to: nat)
      requires count < size
      ensures count < to <= size && LineOf(address + count) == LineOf(address + to - 1)
    {
      var ptr := address + count;
      var limit := LineEnd(ptr + 1);
      var stop := if limit < address + size then limit else address + size;
      SameLine(ptr, stop);
      stop - address
    }

    /** The part of a transfer that stays inside one cached line. */
    method TransferWithinLine(address: nat, access: Access, l: nat) returns (outcome: Outcome, ghost count: nat, data: Bytes)
      requires Valid() && l in lines && SizeOf(access) > 0
      requires l <= address && address + SizeOf(access) <= l + LINE_SIZE
      modifies this
      ensures Valid() && Transferred(old(Abs()), address, access, outcome, count, data, Abs())
      ensures outcome == Done(SizeOf(access))
    {
      ghost var before := Abs();
      outcome, count := Done(SizeOf(access)), SizeOf(access);
      var line := lines[l];
      var offset := address - l;
      match access {
        case Read(size) =>
          data := line.data[offset..offset + size];
          forall a | address <= a < address + size
            ensures LineOf(a) == l
          {
            LinesAlign(l, a);
          }
          WriteNothing(before, address);
          assert data == View(before)[address..address + size];
        case Write(source) =>
          data := [];
          lines := lines[l := CacheLine(Patch(line.data, offset, source), true)];
          OnlyLine(before, address, source, l);
          assert Stored(access, SizeOf(access)) == source;
      }
    }

    /** The size of the next chunk as 64-bit arithmetic computes it. */
    static function Chunk(ptr: nat, size: nat): nat
      requires ptr < ADDRESS_SPACE
    {
      var limit, end := LineEnd(ptr + 1) % ADDRESS_SPACE, (ptr + size) % ADDRESS_SPACE;
      var least := if limit < end then limit else end;
      (least + ADDRESS_SPACE - ptr) % ADDRESS_SPACE
    }

    /** A transfer over several lines asks for less than it was asked for, and so comes to an end, if
        and only if it does not reach the very end of the address space. */
    static lemma ChunkShrinksExactly(ptr: nat, size: nat)
      requires 0 < size < ADDRESS_SPACE && ptr + size <= ADDRESS_SPACE && LineOf(ptr) != LineOf(ptr + size - 1)
      ensures 0 < Chunk(ptr, size)
      ensures Chunk(ptr, size) < size <==> ptr + size < ADDRESS_SPACE
      ensures ptr + size < ADDRESS_SPACE ==> ptr + Chunk(ptr, size) == LineEnd(ptr + 1)
    {
      assert LineOf(ptr) < LineOf(ptr + size - 1);
      AlignedGap(LineOf(ptr), LineOf(ptr + size - 1));
      var limit := LineEnd(ptr + 1);
      assert ptr < limit <= LineOf(ptr) + LINE_SIZE <= LineOf(ptr + size - 1) < ADDRESS_SPACE;
      if ptr + size < ADDRESS_SPACE {
        WholeLines(ptr, size);
      }
      ChunkOf(ptr, size, limit);
    }

    static lemma ChunkOf(ptr: nat, size: nat, limit: nat)
      requires limit == LineEnd(ptr + 1) && ptr < limit < ADDRESS_SPACE && ptr + size <= ADDRESS_SPACE && 0 < size < ADDRESS_SPACE
      requires ptr + size < ADDRESS_SPACE ==> limit < ptr + size
      ensures Chunk(ptr, size) == if ptr + size < ADDRESS_SPACE then limit - ptr else size
    {
      SmallModulo(limit);
      SmallModulo(size);
      SmallModulo(limit - ptr);
      ModPlusDivisor(limit - ptr, ADDRESS_SPACE);
      assert limit + ADDRESS_SPACE - ptr == limit - ptr + ADDRESS_SPACE;
      if ptr + size < ADDRESS_SPACE { SmallModulo(ptr + size); }
    }

    static lemma SmallModulo(x: nat)
      requires x < ADDRESS_SPACE
      ensures x % ADDRESS_SPACE == x
    {
    }

    static lemma WholeLines(ptr: nat, size: nat)
      requires size > 0 && LineOf(ptr) + LINE_SIZE <= LineOf(ptr + size - 1)
      ensures LineEnd(ptr + 1) < ptr + size
    {
    }

    /** A chunk that does not pass the next line boundary stays in one line. */
    static lemma SameLine(ptr: nat, stop: nat)
      requires ptr < stop <= LineEnd(ptr + 1)
      ensures LineOf(ptr) == LineOf(stop - 1)
    {
      var l := LineOf(ptr);
      LinesAlign(l + LINE_SIZE, ptr + LINE_SIZE);
      assert stop <= l + LINE_SIZE;
      LinesAlign(l, stop - 1);
    }

    /** Without a cached line in the range, the backing memory moves the bytes. */
    lemma UncachedRange(s: CacheState, address: nat, access: Access, outcome: Outcome, first: nat, last: nat, data: Bytes)
      requires WellFormed(s) && Count(outcome) <= SizeOf(access) && address + SizeOf(access) <= ADDRESS_SPACE && SizeOf(access) > 0
      requires first <= address && address + SizeOf(access) <= last + LINE_SIZE
      requires Aligned(first) && Aligned(last)
      requires forall l :: l in s.lines && first <= l ==> l > last
      requires data == if access.Read? then s.memory[address..address + Count(outcome)] else []
      ensures Transferred(s, address, access, outcome, Count(outcome), data,
        if access.Read? then s else s.(memory := Patch(s.memory, address, access.data[..Count(outcome)])))
    {
      var count := Count(outcome);
      forall a | first <= a < last + LINE_SIZE
        ensures LineOf(a) !in s.lines
      {
        LineInside(first, last + LINE_SIZE, a);
      }
      match access
      case Read(_) =>
        WriteNothing(s, address);
        assert View(s)[address..address + count] == s.memory[address..address + count];
      case Write(source) =>
        var t := CacheSpec.Write(s, address, source[..count]);
        forall l | l in s.lines
          ensures t.lines[l] == s.lines[l]
        {
          if l < first {
            AlignedGap(l, first);
          } else {
            AlignedGap(last, l);
          }
        }
        assert t.lines == s.lines;
        assert t.memory == Patch(s.memory, address, source[..count]);
    }

    /** A write inside one cached line changes that line only. */
    lemma OnlyLine(s: CacheState, address: nat, data: Bytes, l: nat)
      requires WellFormed(s) && l in s.lines && |data| > 0
      requires l <= address && address + |data| <= l + LINE_SIZE
      ensures CacheSpec.Write(s, address, data)
        == s.(lines := s.lines[l := CacheLine(Patch(s.lines[l].data, address - l, data), true)])
    {
      var t := CacheSpec.Write(s, address, data);
      var patched := CacheLine(Patch(s.lines[l].data, address - l, data), true);
      assert t.lines[l].data == patched.data;
      forall k | k in s.lines && k != l
        ensures t.lines[k] == s.lines[k]
      {
        if k < l { AlignedGap(k, l); } else { AlignedGap(l, k); }
      }
      assert t.lines == s.lines[l := patched];
      forall a | 0 <= a < ADDRESS_SPACE
        ensures t.memory[a] == s.memory[a]
      {
        LinesAlign(l, a);
      }
      assert t.memory == s.memory;
    }
  }
}
