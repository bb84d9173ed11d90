/** The ring of packets of an AQL queue: finding the packet a wave was dispatched from, and copying
    the packets in use. See section 2.8, "User mode queuing", of the HSA Platform System
    Architecture Specification. */
module PacketRing {
  import opened FlatMemory
  import opened Bits

  const PACKET: nat := 64

  datatype Result<T> = Ok(value: T) | InvalidArgument | Fatal

  /** A queue of `ring` packets at `address`, and the packets in use: read, ..., write - 1. */
  datatype Queue = Queue(address: nat, ring: nat, read: nat, write: nat)

  ghost predicate Valid(q: Queue) {
    q.ring > 0 && q.read <= q.write <= q.read + q.ring && q.address + q.ring * PACKET <= ADDRESS_SPACE
  }

  function SlotOf(q: Queue, id: nat): nat
    requires q.ring > 0
  {
    id % q.ring
  }

  // ----- packet identifiers -----

  /** The identifier of the packet at an address in the ring. */
  function PacketId(q: Queue, packet: nat): Result<nat>
    requires q.ring > 0 && q.address <= packet
  {
    var id := (packet - q.address) / PACKET + q.read / q.ring * q.ring;
    var id' := if id < q.read && q.read % q.ring > q.write % q.ring then id + q.ring else id;
    if id' < q.read || id' >= q.write then Fatal else Ok(id')
  }

  lemma Decompose(x: nat, d: nat)
    requires d > 0
    ensures x == x / d * d + x % d && x % d < d && 0 <= x / d * d <= x
  {
    MulMonotone(0, x / d, d);
  }

  /** An identifier of the window lies in the same lap of the ring as the first one, or in the
      next lap and before its slot. */
  lemma LapOf(q: Queue, id: nat)
    requires Valid(q) && q.read <= id <= q.read + q.ring
    ensures (id == q.read / q.ring * q.ring + id % q.ring && q.read % q.ring <= id % q.ring)
         || (id == q.read / q.ring * q.ring + q.ring + id % q.ring && id % q.ring <= q.read % q.ring)
  {
    Decompose(q.read, q.ring);
    SameOrNextLap(q.read / q.ring, q.ring, q.read / q.ring * q.ring, q.read % q.ring, id);
  }

  lemma SameOrNextLap(lap: nat, d: nat, base: nat, r: nat, id: nat)
    requires r < d && base == lap * d && base + r <= id <= base + r + d
    ensures (id == base + id % d && r <= id % d) || (id == base + d + id % d && id % d <= r)
  {
    if id - base < d {
      DivModUnique(id, d, lap, id - base);
    } else {
      assert (lap + 1) * d == base + d;
      DivModUnique(id, d, lap + 1, id - base - d);
    }
  }

  /** A packet's address gives back its identifier if and only if the ring is not completely full
      or the packet lies in the lap of the first one. */
  lemma PacketIdExactly(q: Queue, id: nat, k: nat)
    requires Valid(q) && q.read <= id < q.write && k < PACKET
    ensures PacketId(q, q.address + SlotOf(q, id) * PACKET + k) == Ok(id) <==>
      q.write - q.read < q.ring || id / q.ring == q.read / q.ring
  {
    var d, lap := q.ring, q.read / q.ring;
    Decompose(q.read, d);
    Decompose(id, d);
    LapOf(q, id);
    LapOf(q, q.write);
    assert (SlotOf(q, id) * PACKET + k) / PACKET == SlotOf(q, id);
    if id / d != lap {
      assert id == lap * d + d + id % d;
    }
  }

  /** Whatever identifier is found is in the window and belongs to the slot; when the ring is
      not completely full, none is found only when no packet in use has that slot. */
  lemma PacketIdIsSound(q: Queue, slot: nat, k: nat, id: nat)
    requires Valid(q) && slot < q.ring && k < PACKET
    ensures var r := PacketId(q, q.address + slot * PACKET + k);
      && (r.Ok? ==> q.read <= r.value < q.write && SlotOf(q, r.value) == slot)
      && (r.Fatal? && q.write - q.read < q.ring && q.read <= id < q.write ==> SlotOf(q, id) != slot)
  {
    SlotIsFound(q, slot, k);
    if q.write - q.read < q.ring && q.read <= id < q.write && SlotOf(q, id) == slot {
      PacketIdExactly(q, id, k);
    }
  }

  lemma SlotIsFound(q: Queue, slot: nat, k: nat)
    requires Valid(q) && slot < q.ring && k < PACKET
    ensures var r := PacketId(q, q.address + slot * PACKET + k);
      r.Ok? ==> q.read <= r.value < q.write && SlotOf(q, r.value) == slot
  {
    assert (slot * PACKET + k) / PACKET == slot;
    SlotOfLap(q.read / q.ring, q.ring, slot);
  }

  lemma SlotOfLap(lap: nat, d: nat, slot: nat)
    requires slot < d
    ensures lap * d >= 0 && (slot + lap * d) % d == slot && (slot + lap * d + d) % d == slot
  {
    MulMonotone(0, lap, d);
    DivModUnique(slot + lap * d, d, lap, slot);
    ModPlusDivisor(slot + lap * d, d);
  }

  // ----- power-of-two masks -----

  predicate IsPowerOfTwo(x: nat) {
    x != 0 && And(x, x - 1) == 0
  }

  lemma {:induction false} PowerOfTwoExactly(x: nat) returns (k: nat)
    requires IsPowerOfTwo(x)
    ensures x == Pow2(k)
  {
    if x == 1 {
      k := 0;
    } else {
      OddLessOne(x);
      assert (x - 1) / 2 == x / 2 - 1;
      k := PowerOfTwoExactly(x / 2);
      k := k + 1;
    }
  }

  /** And the other way round. */
  lemma {:induction false} PowersPass(k: nat)
    ensures IsPowerOfTwo(Pow2(k))
  {
    if k > 0 {
      PowersPass(k - 1);
      var p := Pow2(k - 1);
      assert (2 * p - 1) / 2 == p - 1;
    }
  }

  lemma OddLessOne(x: nat)
    requires x > 1
    ensures x % 2 == 1 ==> And(x, x - 1) != 0
  {
    AndSelf(x / 2);
    if x % 2 == 1 { assert (x - 1) / 2 == x / 2; }
  }

  /** Masking with a power of two less one is the remainder. */
  lemma {:induction false} MaskIsModulo(x: nat, k: nat)
    ensures And(x, Pow2(k) - 1) == x % Pow2(k)
  {
    if k == 0 {
      ModOne(x);
    } else if x == 0 {
      ZeroMod(Pow2(k));
    } else {
      MaskIsModulo(x / 2, k - 1);
      OneMoreBit(x, Pow2(k - 1));
    }
  }

  lemma ModOne(x: nat)
    ensures And(x, 0) == 0 && x % 1 == 0
  {
  }

  lemma ZeroMod(p: nat)
    requires p > 0
    ensures 0 % p == 0
  {
  }

  lemma OneMoreBit(x: nat, m: nat)
    requires m > 0 && And(x / 2, m - 1) == x / 2 % m
    ensures And(x, 2 * m - 1) == x % (2 * m)
  {
    HalfModulo(x, m);
    AndOdd(x, m);
  }

  lemma AndOdd(x: nat, m: nat)
    requires m > 0
    ensures And(x, 2 * m - 1) == 2 * And(x / 2, m - 1) + x % 2
  {
    assert (2 * m - 1) / 2 == m - 1 && (2 * m - 1) % 2 == 1;
  }

  lemma HalfModulo(x: nat, m: nat)
    requires m > 0
    ensures x % (2 * m) == 2 * (x / 2 % m) + x % 2
  {
    var h, r := x / 2 / m, x / 2 % m;
    Decompose(x / 2, m);
    assert h * (2 * m) == 2 * (h * m);
    DivModUnique(x, 2 * m, h, 2 * r + x % 2);
  }

  // ----- copying the packets in use -----

  ghost function Packet(m: Bytes, q: Queue, id: nat): Bytes
    requires Valid(q) && |m| == ADDRESS_SPACE
  {
    SlotFits(q, id);
    m[q.address + SlotOf(q, id) * PACKET..q.address + SlotOf(q, id) * PACKET + PACKET]
  }

  lemma SlotFits(q: Queue, id: nat)
    requires Valid(q)
    ensures q.address + SlotOf(q, id) * PACKET + PACKET <= q.address + q.ring * PACKET
  {
  }

  /** The packets from, ..., from + n - 1 one after the other. */
  ghost function Packets(m: Bytes, q: Queue, from: nat, n: nat): Bytes
    requires Valid(q) && |m| == ADDRESS_SPACE
  {
    if n == 0 then [] else Packets(m, q, from, n - 1) + Packet(m, q, from + n - 1)
  }

  /** Packets that do not pass the end of the ring lie one after the other in memory. */
  lemma {:induction false} OneLap(m: Bytes, q: Queue, from: nat, n: nat)
    requires Valid(q) && |m| == ADDRESS_SPACE && SlotOf(q, from) + n <= q.ring
    ensures var start := q.address + SlotOf(q, from) * PACKET;
      start + n * PACKET <= ADDRESS_SPACE && Packets(m, q, from, n) == m[start..start + n * PACKET]
  {
    if n > 0 {
      OneLap(m, q, from, n - 1);
      PacketAfter(m, q, from, n - 1);
      var start := q.address + SlotOf(q, from) * PACKET;
      JoinSlices(m, start, start + (n - 1) * PACKET, start + n * PACKET);
    }
  }

  lemma PacketAfter(m: Bytes, q: Queue, from: nat, k: nat)
    requires Valid(q) && |m| == ADDRESS_SPACE && SlotOf(q, from) + k < q.ring
    ensures var start := q.address + SlotOf(q, from) * PACKET;
      && start + (k + 1) * PACKET <= ADDRESS_SPACE
      && Packet(m, q, from + k) == m[start + k * PACKET..start + (k + 1) * PACKET]
  {
    NextSlot(q, from, k);
  }

  lemma JoinSlices(m: Bytes, a: nat, b: nat, c: nat)
    requires a <= b <= c <= |m|
    ensures m[a..c] == m[a..b] + m[b..c]
  {
  }

  lemma NextSlot(q: Queue, from: nat, k: nat)
    requires q.ring > 0 && SlotOf(q, from) + k < q.ring
    ensures SlotOf(q, from + k) == SlotOf(q, from) + k
  {
    Decompose(from, q.ring);
    DivModUnique(from + k, q.ring, from / q.ring, from % q.ring + k);
  }

  lemma {:induction false} PacketsConcat(m: Bytes, q: Queue, from: nat, n: nat, k: nat)
    requires Valid(q) && |m| == ADDRESS_SPACE
    ensures Packets(m, q, from, n + k) == Packets(m, q, from, n) + Packets(m, q, from + n, k)
  {
    if k > 0 { PacketsConcat(m, q, from, n, k - 1); }
  }

  /** Packets that pass the end of the ring once come in two parts. */
  lemma TwoLaps(m: Bytes, q: Queue)
    requires Valid(q) && |m| == ADDRESS_SPACE && q.write - q.read < q.ring
    requires SlotOf(q, q.read) > SlotOf(q, q.write)
    ensures var start, end := q.address + SlotOf(q, q.read) * PACKET, q.address + q.ring * PACKET;
      && q.ring - SlotOf(q, q.read) + SlotOf(q, q.write) == q.write - q.read
      && Packets(m, q, q.read, q.write - q.read) == m[start..end] + m[q.address..q.address + SlotOf(q, q.write) * PACKET]
  {
    var n, rest := q.ring - SlotOf(q, q.read), SlotOf(q, q.write);
    EndOfLap(q);
    FirstLap(m, q, n);
    SecondLap(m, q, n, rest);
    PacketsConcat(m, q, q.read, n, rest);
  }

  lemma FirstLap(m: Bytes, q: Queue, n: nat)
    requires Valid(q) && |m| == ADDRESS_SPACE && n == q.ring - SlotOf(q, q.read)
    ensures Packets(m, q, q.read, n) == m[q.address + SlotOf(q, q.read) * PACKET..q.address + q.ring * PACKET]
  {
    OneLap(m, q, q.read, n);
  }

  lemma SecondLap(m: Bytes, q: Queue, n: nat, rest: nat)
    requires Valid(q) && |m| == ADDRESS_SPACE && SlotOf(q, q.read + n) == 0 && rest <= q.ring
    ensures Packets(m, q, q.read + n, rest) == m[q.address..q.address + rest * PACKET]
  {
    OneLap(m, q, q.read + n, rest);
  }

  /** Packets that wrap fill the ring to its end and go on in slot 0. */
  lemma EndOfLap(q: Queue)
    requires Valid(q) && q.write - q.read < q.ring && SlotOf(q, q.read) > SlotOf(q, q.write)
    ensures var n := q.ring - SlotOf(q, q.read);
      n + SlotOf(q, q.write) == q.write - q.read && SlotOf(q, q.read + n) == 0
  {
    LapOf(q, q.write);
    Decompose(q.read, q.ring);
    NextLap(q.read / q.ring, q.ring, q.read, q.read % q.ring);
  }

  lemma NextLap(lap: nat, d: nat, id: nat, slot: nat)
    requires slot < d && id == lap * d + slot
    ensures (id + (d - slot)) % d == 0
  {
    assert id + (d - slot) == (lap + 1) * d;
    DivModUnique(id + (d - slot), d, lap + 1, 0);
  }

  /** A buffer with `bytes` in place of what it holds at `at`. */
  function Overlaid(buffer: Bytes, at: nat, bytes: Bytes): Bytes
    requires at + |bytes| <= |buffer|
  {
    buffer[..at] + bytes + buffer[at + |bytes|..]
  }

  lemma NextOverlaid(buffer: Bytes, at: nat, m: Bytes, from: nat, i: nat)
    requires at + i < |buffer| && from + i < |m|
    ensures Overlaid(buffer, at, m[from..from + i + 1]) == Overlaid(buffer, at, m[from..from + i])[at + i := m[from + i]]
  {
    assert m[from..from + i + 1] == m[from..from + i] + [m[from + i]];
  }

  /** Copies a range of memory into a buffer. */
  method ReadGlobal(m: Bytes, from: nat, buffer: array<Byte>, at: nat, n: nat)
    requires |m| == ADDRESS_SPACE && from + n <= ADDRESS_SPACE && at + n <= buffer.Length
    modifies buffer
    ensures buffer[..] == Overlaid(old(buffer[..]), at, m[from..from + n])
  {
    ghost var was := buffer[..];
    var i := 0;
    while i < n
      invariant i <= n
      invariant buffer[..] == Overlaid(was, at, m[from..from + i])
    {
      NextOverlaid(was, at, m, from, i);
      buffer[at + i] := m[from + i];
      i := i + 1;
    }
  }

  method ReadAll(m: Bytes, from: nat, buffer: array<Byte>)
    requires |m| == ADDRESS_SPACE && from + buffer.Length <= ADDRESS_SPACE
    modifies buffer
    ensures buffer[..] == m[from..from + buffer.Length]
  {
    ReadGlobal(m, from, buffer, 0, buffer.Length);
  }

  method ReadTwice(m: Bytes, from: nat, end: nat, from': nat, end': nat, buffer: array<Byte>)
    requires |m| == ADDRESS_SPACE && from <= end <= ADDRESS_SPACE && from' <= end' <= ADDRESS_SPACE
    requires buffer.Length >= (end - from) + (end' - from')
    modifies buffer
    ensures buffer[..] == m[from..end] + m[from'..end'] + old(buffer[(end - from) + (end' - from')..])
  {
    var part := end - from;
    ReadGlobal(m, from, buffer, 0, part);
    ghost var first := buffer[..];
    ReadGlobal(m, from', buffer, part, end' - from');
    assert first[..part] == m[from..end];
    assert first[part + (end' - from')..] == old(buffer[(end - from) + (end' - from')..]);
  }

  /** What the buffer holds after the copy: the bytes from the first slot on, or those up to the
      end of the ring and those from its beginning to the last slot, or what it held before. */
  ghost function Copied(m: Bytes, address: nat, ring: nat, read: nat, write: nat, buffer: Bytes): Bytes
    requires |m| == ADDRESS_SPACE && ring > 0 && address + ring * PACKET <= ADDRESS_SPACE
    requires read <= write && |buffer| == (write - read) * PACKET
    requires read % ring < write % ring ==> address + read % ring * PACKET + |buffer| <= ADDRESS_SPACE
  {
    var first, last := address + read % ring * PACKET, address + write % ring * PACKET;
    if first < last then m[first..first + |buffer|]
    else if first > last then
      LongEnough(ring, read, write);
      m[first..address + ring * PACKET] + m[address..last] + buffer[(ring - read % ring + write % ring) * PACKET..]
    else buffer
  }

  lemma LongEnough(ring: nat, read: nat, write: nat)
    requires ring > 0 && read <= write && read % ring > write % ring
    ensures 0 <= ring - read % ring + write % ring <= write - read
  {
    Decompose(read, ring);
    Decompose(write, ring);
    if write / ring <= read / ring {
      MulMonotone(write / ring, read / ring, ring);
      assert false;
    }
    MulMonotone(read / ring + 1, write / ring, ring);
    assert (read / ring + 1) * ring == read / ring * ring + ring;
  }

  /** In a ring not completely full the copy is the packets in use, in order. */
  lemma CopiedIsPackets(m: Bytes, q: Queue, buffer: Bytes)
    requires Valid(q) && |m| == ADDRESS_SPACE && |buffer| == (q.write - q.read) * PACKET
    ensures SlotOf(q, q.read) < SlotOf(q, q.write) ==>
      q.address + SlotOf(q, q.read) * PACKET + |buffer| <= ADDRESS_SPACE
    ensures var copy := Copied(m, q.address, q.ring, q.read, q.write, buffer);
      && (q.write - q.read < q.ring ==> copy == Packets(m, q, q.read, q.write - q.read))
      && (q.write - q.read == q.ring ==> copy == buffer)
  {
    SlotsOfWindow(q);
    if SlotOf(q, q.read) < SlotOf(q, q.write) {
      OneLap(m, q, q.read, q.write - q.read);
    } else if SlotOf(q, q.read) > SlotOf(q, q.write) {
      TwoLaps(m, q);
      assert buffer[(q.ring - SlotOf(q, q.read) + SlotOf(q, q.write)) * PACKET..] == [];
    }
  }

  /** Copies the packets in use into the caller's buffer, in order. A ring that is completely
      full looks empty to the comparison of the two pointers, and nothing is copied. Identifiers
      further apart than the ring are not rejected. */
  method ActivePackets(m: Bytes, address: nat, size: nat, read: nat, write: nat, buffer: array<Byte>) returns (r: Result<()>)
    requires |m| == ADDRESS_SPACE && size >= PACKET && address + size <= ADDRESS_SPACE
    modifies buffer
    ensures r.InvalidArgument? <==> read > write || buffer.Length != (write - read) * PACKET
    ensures r.Fatal? <==> !r.InvalidArgument? && (!IsPowerOfTwo(size) || PastTheEnd(address, size / PACKET, read, write))
    ensures !r.Ok? ==> buffer[..] == old(buffer[..])
    ensures r.Ok? ==>
      && address + size / PACKET * PACKET <= ADDRESS_SPACE
      && buffer[..] == Copied(m, address, size / PACKET, read, write, old(buffer[..]))
  {
    if read > write { return InvalidArgument; }
    var bytes := (write - read) * PACKET;
    if buffer.Length != bytes { return InvalidArgument; }
    if !IsPowerOfTwo(size) { return Fatal; }
    var mask := size / PACKET - 1;
    RingMask(size, read);
    RingMask(size, write);
    r := CopyWindow(m, address, size, read, write, address + And(read, mask) * PACKET, address + And(write, mask) * PACKET, buffer);
  }

  /** Copies from the slot at `first` up to the slot at `last`. */
  method CopyWindow(m: Bytes, address: nat, size: nat, ghost read: nat, ghost write: nat, first: nat, last: nat, buffer: array<Byte>)
    returns (r: Result<()>)
    requires |m| == ADDRESS_SPACE && size >= PACKET && size == size / PACKET * PACKET && address + size <= ADDRESS_SPACE
    requires read <= write && buffer.Length == (write - read) * PACKET
    requires first == address + read % (size / PACKET) * PACKET && last == address + write % (size / PACKET) * PACKET
    modifies buffer
    ensures r.Ok? || r.Fatal?
    ensures r.Fatal? <==> PastTheEnd(address, size / PACKET, read, write)
    ensures r.Fatal? ==> buffer[..] == old(buffer[..])
    ensures r.Ok? ==> buffer[..] == Copied(m, address, size / PACKET, read, write, old(buffer[..]))
  {
    if first < last {
      if first + buffer.Length > ADDRESS_SPACE { return Fatal; }
      ReadAll(m, first, buffer);
    } else if first > last {
      LongEnough(size / PACKET, read, write);
      ReadTwice(m, first, address + size, address, last, buffer);
    }
    r := Ok(());
  }

  /** The bytes to be copied from the first slot on would pass the end of the address space. */
  predicate PastTheEnd(address: nat, ring: nat, read: nat, write: nat)
    requires ring > 0 && read <= write
  {
    read % ring < write % ring && address + read % ring * PACKET + (write - read) * PACKET > ADDRESS_SPACE
  }

  /** The mask leaves the slot of an identifier. */
  lemma RingMask(size: nat, id: nat)
    requires IsPowerOfTwo(size) && size >= PACKET
    ensures size == size / PACKET * PACKET && And(id, size / PACKET - 1) == id % (size / PACKET)
  {
    var j := SizeInPackets(size);
    WholePackets(size, Pow2(j));
    MaskIsModulo(id, j);
  }

  lemma SizeInPackets(size: nat) returns (j: nat)
    requires IsPowerOfTwo(size) && size >= PACKET
    ensures size == PACKET * Pow2(j)
  {
    var k := PowerOfTwoExactly(size);
    SmallPowers(k);
    j := k - 6;
    Pow2Sum(6, j);
  }

  lemma WholePackets(size: nat, n: nat)
    requires size == PACKET * n
    ensures size / PACKET == n
  {
  }

  lemma SmallPowers(k: nat)
    ensures Pow2(6) == PACKET && (k < 6 ==> Pow2(k) < PACKET)
  {
    Pow2Values();
    if k < 6 {
      Pow2Mono(k, 5);
      assert Pow2(6) == 2 * Pow2(5);
    }
  }

  /** The first slot comes before the last one exactly when the packets do not wrap. */
  lemma SlotsOfWindow(q: Queue)
    requires Valid(q)
    ensures SlotOf(q, q.read) < SlotOf(q, q.write) ==> SlotOf(q, q.write) == SlotOf(q, q.read) + (q.write - q.read)
    ensures SlotOf(q, q.read) == SlotOf(q, q.write) <==> q.write == q.read || q.write - q.read == q.ring
    ensures SlotOf(q, q.read) > SlotOf(q, q.write) ==> q.write - q.read < q.ring
  {
    LapOf(q, q.write);
    Decompose(q.read, q.ring);
  }
}
