/** The note that stores a process's queues and agents in a core dump: a version, a header with
    the sizes and counts of what follows, the runtime information, the agents and the queues. */
module CoreNote {
  import opened Wrappers
  import FlatMemory

  type Octet = n: nat | n < 256
  type Octets = seq<Octet>

  /** Sizes in bytes of the records a build of the library knows. */
  datatype Sizes = Sizes(runtime: nat, agent: nat, queue: nat)

  datatype Header = Header(major: nat, minor: nat, runtimeSize: nat,
    agentCount: nat, agentSize: nat, queueCount: nat, queueSize: nat)

  /** What a note describes. */
  datatype State = State(major: nat, minor: nat, runtime: Octets, agents: seq<Octets>, queues: seq<Octets>)

  const NOTE_VERSION: nat := 1
  const HEADER_BYTES: nat := 32
  const PREAMBLE: nat := 40
  const WORD: nat := 0x1_0000_0000
  const DOUBLE: nat := 0x1_0000_0000_0000_0000

  predicate ValidSizes(z: Sizes) {
    && z.runtime % 8 == 0 && z.agent % 8 == 0 && z.queue % 8 == 0
    && z.runtime < DOUBLE && z.agent < WORD && z.queue < WORD
  }

  // ----- numbers -----

  ghost function Pow256(n: nat): (p: nat)
    ensures p > 0
  {
    if n == 0 then 1 else 256 * Pow256(n - 1)
  }

  /** The low `n` bytes of a number, least significant first. */
  function Encode(x: nat, n: nat): (b: Octets)
    ensures |b| == n
  {
    if n == 0 then [] else [x % 256] + Encode(x / 256, n - 1)
  }

  function Decode(b: Octets): nat {
    if b == [] then 0 else b[0] + 256 * Decode(b[1..])
  }

  /** Byte `i` of a number has the weight 256 to the power of `i`. */
  lemma {:induction false} EncodedByte(x: nat, n: nat, i: nat)
    requires i < n
    ensures Encode(x, n)[i] == x / Pow256(i) % 256
  {
    if i > 0 {
      EncodedByte(x / 256, n - 1, i - 1);
      DivideTwice(x, 256, Pow256(i - 1));
    }
  }

  lemma DivideTwice(x: nat, d: nat, e: nat)
    requires d > 0 && e > 0
    ensures x / d / e == x / (d * e)
  {
    var q, r := x / d / e, x / d % e;
    assert x / d == q * e + r;
    assert x == (q * e + r) * d + x % d;
    assert (q * e + r) * d == q * (d * e) + r * d;
    FlatMemory.MulMonotone(r + 1, e, d);
    assert (r + 1) * d == r * d + d;
    FlatMemory.DivModUnique(x, d * e, q, r * d + x % d);
  }

  lemma {:induction false} DecodeEncode(x: nat, n: nat)
    requires x < Pow256(n)
    ensures Decode(Encode(x, n)) == x
  {
    if n > 0 {
      DecodeEncode(x / 256, n - 1);
      assert Encode(x, n)[1..] == Encode(x / 256, n - 1);
    }
  }

  lemma WordsFit()
    ensures Pow256(4) == WORD && Pow256(8) == DOUBLE
  {
    assert Pow256(8) == 0x1_0000_0000 * Pow256(4);
  }

  // ----- records of another size -----

  function Zeros(n: nat): (z: Octets)
    ensures |z| == n
  {
    seq(n, _ => 0)
  }

  /** A record read into a structure of `size` bytes: its beginning, or padded with zeros. */
  function Resized(record: Octets, size: nat): (r: Octets)
    ensures |r| == size
  {
    if |record| >= size then record[..size] else record + Zeros(size - |record|)
  }

  function Concat(records: seq<Octets>): Octets {
    if records == [] then [] else Concat(records[..|records| - 1]) + records[|records| - 1]
  }

  predicate AllOfSize(records: seq<Octets>, size: nat) {
    forall i :: 0 <= i < |records| ==> |records[i]| == size
  }

  // ----- what is written -----

  function EncodeHeader(h: Header): (b: Octets)
    ensures |b| == HEADER_BYTES
  {
    Encode(h.major, 4) + Encode(h.minor, 4) + Encode(h.runtimeSize, 8) + Encode(h.agentCount, 4)
      + Encode(h.agentSize, 4) + Encode(h.queueCount, 4) + Encode(h.queueSize, 4)
  }

  function HeaderOf(z: Sizes, s: State): Header {
    Header(s.major, s.minor, z.runtime, |s.agents|, z.agent, |s.queues|, z.queue)
  }

  /** The note for a state. */
  function NoteOf(z: Sizes, s: State): Octets {
    Encode(NOTE_VERSION, 8) + EncodeHeader(HeaderOf(z, s)) + s.runtime + Concat(s.agents) + Concat(s.queues)
  }

  ghost predicate Storable(z: Sizes, s: State) {
    && ValidSizes(z) && s.major < WORD && s.minor < WORD && |s.runtime| == z.runtime
    && |s.agents| < WORD && AllOfSize(s.agents, z.agent)
    && |s.queues| < WORD && AllOfSize(s.queues, z.queue)
  }

  // ----- what is accepted -----

  function DecodeHeader(b: Octets): Header
    requires |b| == HEADER_BYTES
  {
    Header(Decode(b[..4]), Decode(b[4..8]), Decode(b[8..16]), Decode(b[16..20]),
      Decode(b[20..24]), Decode(b[24..28]), Decode(b[28..32]))
  }

  /** The bytes a header says come after it. */
  function Declared(h: Header): nat {
    h.runtimeSize + h.agentCount * h.agentSize + h.queueCount * h.queueSize
  }

  predicate AlignedHeader(h: Header) {
    h.runtimeSize % 8 == 0 && h.agentSize % 8 == 0 && h.queueSize % 8 == 0
  }

  /** A note is accepted exactly when it is long enough for a header, its sizes are aligned, and
      its length is the one the header declares. */
  predicate Acceptable(note: Octets) {
    && |note| >= PREAMBLE
    && AlignedHeader(DecodeHeader(note[8..PREAMBLE]))
    && |note| == PREAMBLE + Declared(DecodeHeader(note[8..PREAMBLE]))
  }

  /** `count` records of `stored` bytes from `at` on, each resized. */
  function Records(note: Octets, at: nat, count: nat, stored: nat, size: nat): seq<Octets>
    requires at + count * stored <= |note|
  {
    if count == 0 then []
    else
      assert count * stored == (count - 1) * stored + stored;
      var last := at + (count - 1) * stored;
      Records(note, at, count - 1, stored, size) + [Resized(note[last..last + stored], size)]
  }

  function Described(z: Sizes, note: Octets): State
    requires Acceptable(note)
  {
    var h := DecodeHeader(note[8..PREAMBLE]);
    var agents := PREAMBLE + h.runtimeSize;
    var queues := agents + h.agentCount * h.agentSize;
    State(h.major, h.minor, Resized(note[PREAMBLE..agents], z.runtime),
      Records(note, agents, h.agentCount, h.agentSize, z.agent),
      Records(note, queues, h.queueCount, h.queueSize, z.queue))
  }

  // ----- what was written is read back -----

  function ResizedState(z: Sizes, s: State): State {
    State(s.major, s.minor, Resized(s.runtime, z.runtime),
      ResizedAll(s.agents, z.agent), ResizedAll(s.queues, z.queue))
  }

  function ResizedAll(records: seq<Octets>, size: nat): seq<Octets> {
    seq(|records|, i requires 0 <= i < |records| => Resized(records[i], size))
  }

  lemma {:induction false} ConcatLength(records: seq<Octets>, size: nat)
    requires AllOfSize(records, size)
    ensures |Concat(records)| == |records| * size
  {
    if records != [] {
      var n := |records| - 1;
      ConcatLength(records[..n], size);
      assert |records| * size == n * size + size;
    }
  }

  /** Records laid one after the other are read back in step, whatever comes after them. */
  lemma {:induction false} RecordsOfConcat(note: Octets, at: nat, records: seq<Octets>, stored: nat, size: nat)
    requires AllOfSize(records, stored) && at + |Concat(records)| <= |note|
    requires note[at..at + |Concat(records)|] == Concat(records)
    ensures at + |records| * stored <= |note|
    ensures Records(note, at, |records|, stored, size) == ResizedAll(records, size)
  {
    ConcatLength(records, stored);
    if records != [] {
      var n := |records| - 1;
      SplitSlice(note, at, Concat(records[..n]), records[n]);
      ConcatLength(records[..n], stored);
      RecordsOfConcat(note, at, records[..n], stored, size);
      LastResized(records, size);
      LastRecord(note, at, n, stored, size);
    }
  }

  lemma LastResized(records: seq<Octets>, size: nat)
    requires records != []
    ensures var n := |records| - 1; ResizedAll(records, size) == ResizedAll(records[..n], size) + [Resized(records[n], size)]
  {
  }

  lemma LastRecord(note: Octets, at: nat, n: nat, stored: nat, size: nat)
    requires at + (n + 1) * stored <= |note|
    ensures at + n * stored + stored <= |note|
    ensures Records(note, at, n + 1, stored, size)
      == Records(note, at, n, stored, size) + [Resized(note[at + n * stored..at + n * stored + stored], size)]
  {
    OneMore(n, stored);
  }

  lemma OneMore(n: nat, size: nat)
    ensures (n + 1) * size == n * size + size
  {
  }

  /** What follows the others is the last record. */
  lemma SplitSlice(note: Octets, at: nat, front: Octets, last: Octets)
    requires at + |front + last| <= |note| && note[at..at + |front + last|] == front + last
    ensures note[at..at + |front|] == front && note[at + |front|..at + |front| + |last|] == last
  {
    var all := note[at..at + |front + last|];
    assert all[..|front|] == front && all[|front|..] == last;
    assert note[at..at + |front|] == all[..|front|] && note[at + |front|..at + |front| + |last|] == all[|front|..];
  }

  lemma HeaderRoundTrip(h: Header)
    requires h.major < WORD && h.minor < WORD && h.runtimeSize < DOUBLE && h.agentCount < WORD
    requires h.agentSize < WORD && h.queueCount < WORD && h.queueSize < WORD
    ensures DecodeHeader(EncodeHeader(h)) == h
  {
    WordsFit();
    DecodeEncode(h.major, 4);
    DecodeEncode(h.minor, 4);
    DecodeEncode(h.runtimeSize, 8);
    DecodeEncode(h.agentCount, 4);
    DecodeEncode(h.agentSize, 4);
    DecodeEncode(h.queueCount, 4);
    DecodeEncode(h.queueSize, 4);
    HeaderFields(Encode(h.major, 4), Encode(h.minor, 4), Encode(h.runtimeSize, 8), Encode(h.agentCount, 4),
      Encode(h.agentSize, 4), Encode(h.queueCount, 4), Encode(h.queueSize, 4));
  }

  lemma HeaderFields(a: Octets, b: Octets, c: Octets, d: Octets, e: Octets, f: Octets, g: Octets)
    requires |a| == |b| == |d| == |e| == |f| == |g| == 4 && |c| == 8
    ensures var all := a + b + c + d + e + f + g;
      && all[..4] == a && all[4..8] == b && all[8..16] == c && all[16..20] == d
      && all[20..24] == e && all[24..28] == f && all[28..32] == g
  {
  }

  lemma NoteParts(version: Octets, header: Octets, runtime: Octets, agents: Octets, queues: Octets)
    requires |version| == 8 && |header| == HEADER_BYTES
    ensures var note := version + header + runtime + agents + queues;
      var at := PREAMBLE + |runtime|;
      && note[8..PREAMBLE] == header && note[PREAMBLE..at] == runtime
      && note[at..at + |agents|] == agents && note[at + |agents|..] == queues
      && |note| == at + |agents| + |queues|
  {
  }

  /** A note written by a build with records of sizes `z` is accepted by a build with sizes `z'`,
      which reads every record cut short or padded with zeros, and later ones in step. */
  lemma NoteIsReadBack(z: Sizes, z': Sizes, s: State)
    requires Storable(z, s)
    ensures Acceptable(NoteOf(z, s)) && Described(z', NoteOf(z, s)) == ResizedState(z', s)
  {
    NoteLayout(z, s);
    DescribedAt(z', NoteOf(z, s), HeaderOf(z, s), s);
  }

  /** A note with the header and the parts of a state describes that state, resized. */
  lemma DescribedAt(z': Sizes, note: Octets, h: Header, s: State)
    requires AlignedHeader(h) && h.major == s.major && h.minor == s.minor && h.runtimeSize == |s.runtime|
    requires h.agentCount == |s.agents| && AllOfSize(s.agents, h.agentSize)
    requires h.queueCount == |s.queues| && AllOfSize(s.queues, h.queueSize)
    requires var agents := PREAMBLE + h.runtimeSize;
      var queues := agents + |s.agents| * h.agentSize;
      && |note| == queues + |s.queues| * h.queueSize && PREAMBLE <= agents <= queues <= |note|
      && DecodeHeader(note[8..PREAMBLE]) == h && note[PREAMBLE..agents] == s.runtime
      && note[agents..queues] == Concat(s.agents) && note[queues..] == Concat(s.queues)
    ensures Acceptable(note) && Described(z', note) == ResizedState(z', s)
  {
    var agents := PREAMBLE + h.runtimeSize;
    var queues := agents + |s.agents| * h.agentSize;
    RecordsOfConcat(note, agents, s.agents, h.agentSize, z'.agent);
    RecordsOfConcat(note, queues, s.queues, h.queueSize, z'.queue);
  }

  /** Where the parts of a note lie. */
  lemma NoteLayout(z: Sizes, s: State)
    requires Storable(z, s)
    ensures var h, note := HeaderOf(z, s), NoteOf(z, s);
      var agents := PREAMBLE + z.runtime;
      var queues := agents + |s.agents| * z.agent;
      && |note| == queues + |s.queues| * z.queue && PREAMBLE <= agents <= queues <= |note|
      && DecodeHeader(note[8..PREAMBLE]) == h && note[PREAMBLE..agents] == s.runtime
      && note[agents..queues] == Concat(s.agents) && note[queues..] == Concat(s.queues)
  {
    var h := HeaderOf(z, s);
    HeaderRoundTrip(h);
    ConcatLength(s.agents, z.agent);
    ConcatLength(s.queues, z.queue);
    NoteParts(Encode(NOTE_VERSION, 8), EncodeHeader(h), s.runtime, Concat(s.agents), Concat(s.queues));
  }

  /** The format, by the place of each part: the version, the fields of the header, the runtime
      information, then the agents and the queues. */
  lemma NoteFormat(z: Sizes, s: State)
    requires Storable(z, s)
    ensures |NoteOf(z, s)| == 40 + z.runtime + |s.agents| * z.agent + |s.queues| * z.queue
    ensures HasHeader(NoteOf(z, s), z, s)
    ensures forall i :: 0 <= i < |s.agents| ==> PartIs(NoteOf(z, s), 40 + z.runtime, i, z.agent, s.agents[i])
    ensures forall i :: 0 <= i < |s.queues| ==>
      PartIs(NoteOf(z, s), 40 + z.runtime + |s.agents| * z.agent, i, z.queue, s.queues[i])
  {
    var note := NoteOf(z, s);
    NoteLayout(z, s);
    VersionBytes(z, s);
    HeaderSlices(note);
    ConcatParts(note, 40 + z.runtime, s.agents, z.agent);
    ConcatParts(note, 40 + z.runtime + |s.agents| * z.agent, s.queues, z.queue);
  }

  predicate HasHeader(note: Octets, z: Sizes, s: State) {
    && |note| >= 40 + z.runtime
    && note[..8] == [1, 0, 0, 0, 0, 0, 0, 0]
    && Decode(note[8..12]) == s.major && Decode(note[12..16]) == s.minor && Decode(note[16..24]) == z.runtime
    && Decode(note[24..28]) == |s.agents| && Decode(note[28..32]) == z.agent
    && Decode(note[32..36]) == |s.queues| && Decode(note[36..40]) == z.queue
    && note[40..40 + z.runtime] == s.runtime
  }

  /** Record `i` of `size` bytes, counted from `at` on. */
  predicate PartIs(note: Octets, at: int, i: nat, size: nat, record: Octets) {
    0 <= at + i * size && at + i * size + size <= |note| && note[at + i * size..at + i * size + size] == record
  }

  lemma VersionBytes(z: Sizes, s: State)
    ensures |NoteOf(z, s)| >= 40 && NoteOf(z, s)[..8] == [1, 0, 0, 0, 0, 0, 0, 0]
  {
    var rest := EncodeHeader(HeaderOf(z, s)) + s.runtime + Concat(s.agents) + Concat(s.queues);
    assert NoteOf(z, s) == Encode(NOTE_VERSION, 8) + rest;
    assert Encode(0, 4) == [0, 0, 0, 0];
    assert Encode(1, 8) == [1, 0, 0, 0] + Encode(0, 4);
  }

  lemma HeaderSlices(note: Octets)
    requires |note| >= 40
    ensures var h := DecodeHeader(note[8..40]);
      && h.major == Decode(note[8..12]) && h.minor == Decode(note[12..16]) && h.runtimeSize == Decode(note[16..24])
      && h.agentCount == Decode(note[24..28]) && h.agentSize == Decode(note[28..32])
      && h.queueCount == Decode(note[32..36]) && h.queueSize == Decode(note[36..40])
  {
    SliceOfSlice(note, 0, 4);
    SliceOfSlice(note, 4, 8);
    SliceOfSlice(note, 8, 16);
    SliceOfSlice(note, 16, 20);
    SliceOfSlice(note, 20, 24);
    SliceOfSlice(note, 24, 28);
    SliceOfSlice(note, 28, 32);
  }

  lemma SliceOfSlice(note: Octets, from: nat, to: nat)
    requires from <= to <= 32 && |note| >= 40
    ensures note[8..40][from..to] == note[8 + from..8 + to]
  {
    forall i | 0 <= i < to - from
      ensures note[8..40][from..to][i] == note[8 + from..8 + to][i]
    {
    }
  }

  lemma {:induction false} ConcatParts(note: Octets, at: nat, records: seq<Octets>, size: nat)
    requires AllOfSize(records, size) && at + |Concat(records)| <= |note|
    requires note[at..at + |Concat(records)|] == Concat(records)
    ensures forall i :: 0 <= i < |records| ==> PartIs(note, at, i, size, records[i])
  {
    if records != [] {
      var n := |records| - 1;
      SplitSlice(note, at, Concat(records[..n]), records[n]);
      ConcatLength(records[..n], size);
      ConcatParts(note, at, records[..n], size);
      assert forall i :: 0 <= i < n ==> records[i] == records[..n][i];
    }
  }

  /** A record of another size keeps its first bytes, and what is missing is zero. */
  lemma ResizedAt(record: Octets, size: nat, i: nat)
    requires i < size
    ensures Resized(record, size)[i] == if i < |record| then record[i] else 0
  {
  }

  /** The build that wrote a note reads the state back unchanged. */
  lemma NoteRoundTrip(z: Sizes, s: State)
    requires Storable(z, s)
    ensures Acceptable(NoteOf(z, s)) && Described(z, NoteOf(z, s)) == s
  {
    NoteIsReadBack(z, z, s);
    SameSize(s.agents, z.agent);
    SameSize(s.queues, z.queue);
    assert Resized(s.runtime, z.runtime) == s.runtime;
  }

  lemma SameSize(records: seq<Octets>, size: nat)
    requires AllOfSize(records, size)
    ensures ResizedAll(records, size) == records
  {
    forall i | 0 <= i < |records|
      ensures Resized(records[i], size) == records[i]
    {
    }
  }

  // ----- the reader -----

  class NoteReader {
    const note: Octets
    var head: nat
    var error: bool

    ghost predicate Valid()
      reads this
    {
      head <= |note|
    }

    constructor (note: Octets)
      ensures Valid() && this.note == note && head == 0 && !error
    {
      this.note := note;
      head := 0;
      error := false;
    }

    /** Reads `stored` bytes into a zeroed structure of `size` bytes. Once it has run out of bytes
        the reader stays in error. */
    method Read(stored: nat, size: nat) returns (value: Octets)
      requires Valid()
      modifies this
      ensures Valid()
      ensures error <==> old(error) || old(head) + stored > |note|
      ensures head == if error then old(head) else old(head) + stored
      ensures value == if error then Zeros(size) else Resized(note[old(head)..old(head) + stored], size)
    {
      value := Zeros(size);
      if !error && head + stored <= |note| {
        var copied := if stored < size then stored else size;
        value := note[head..head + copied] + value[copied..];
        head := head + stored;
      } else {
        error := true;
      }
    }

    method ReadAll(count: nat, stored: nat, size: nat) returns (values: seq<Octets>)
      requires Valid()
      modifies this
      ensures Valid() && |values| == count
      ensures error <==> old(error) || old(head) + count * stored > |note|
      ensures !error ==> head == old(head) + count * stored && values == Records(note, old(head), count, stored, size)
    {
      values := [];
      ghost var start := head;
      while |values| < count
        invariant Valid() && |values| <= count
        invariant !error ==> !old(error) && head == start + |values| * stored
        invariant !error ==> values == Records(note, start, |values|, stored, size)
        invariant error ==> old(error) || start + |values| * stored > |note|
        decreases count - |values|
      {
        ghost var n := |values|;
        assert (n + 1) * stored == n * stored + stored;
        var value := Read(stored, size);
        values := values + [value];
      }
      assert error && !old(error) ==> start + count * stored > |note|;
    }

    method AtEnd() returns (eof: bool)
      ensures eof <==> !error && head == |note|
    {
      eof := !error && head == |note|;
    }
  }

  /** Loads a note. `native` says that it was written with this machine's byte order. */
  method Load(note: Octets, native: bool, z: Sizes) returns (state: Option<State>)
    ensures state.Some? <==> native && Acceptable(note)
    ensures state.Some? ==> state.value == Described(z, note)
  {
    if !native { return None; }
    var reader := new NoteReader(note);
    var version := reader.Read(8, 8);
    var bytes := reader.Read(HEADER_BYTES, HEADER_BYTES);
    assert !reader.error <==> |note| >= PREAMBLE;
    assert !reader.error ==> bytes == note[8..PREAMBLE];
    var h := DecodeHeader(bytes);
    if !AlignedHeader(h) { return None; }
    state := LoadRecords(reader, h, z);
  }

  /** Reads what the header declares, and nothing more. */
  method LoadRecords(reader: NoteReader, h: Header, z: Sizes) returns (state: Option<State>)
    requires reader.Valid() && (!reader.error ==> reader.head == PREAMBLE)
    modifies reader
    ensures state.Some? <==> !old(reader.error) && |reader.note| == PREAMBLE + Declared(h)
    ensures state.Some? && Acceptable(reader.note) && h == DecodeHeader(reader.note[8..PREAMBLE]) ==>
      state.value == Described(z, reader.note)
  {
    FlatMemory.MulMonotone(0, h.agentCount, h.agentSize);
    FlatMemory.MulMonotone(0, h.queueCount, h.queueSize);
    ghost var agentBytes: nat, queueBytes: nat := h.agentCount * h.agentSize, h.queueCount * h.queueSize;
    var runtime := reader.Read(h.runtimeSize, z.runtime);
    ghost var agentsAt := reader.head;
    var agents := reader.ReadAll(h.agentCount, h.agentSize, z.agent);
    ghost var queuesAt := reader.head;
    var queues := reader.ReadAll(h.queueCount, h.queueSize, z.queue);
    var eof := reader.AtEnd();
    if !eof { return None; }
    assert agentsAt == PREAMBLE + h.runtimeSize && queuesAt == agentsAt + agentBytes;
    state := Some(State(h.major, h.minor, runtime, agents, queues));
    DescribedParts(z, reader.note, h, agentsAt, queuesAt);
  }

  /** The three parts of what a note describes, by where they begin. */
  lemma DescribedParts(z: Sizes, note: Octets, h: Header, agentsAt: nat, queuesAt: nat)
    requires agentsAt == PREAMBLE + h.runtimeSize && queuesAt == agentsAt + h.agentCount * h.agentSize
    ensures Acceptable(note) && h == DecodeHeader(note[8..PREAMBLE]) ==>
      && agentsAt <= queuesAt <= |note| && queuesAt + h.queueCount * h.queueSize <= |note|
      && Described(z, note) == State(h.major, h.minor, Resized(note[PREAMBLE..agentsAt], z.runtime),
           Records(note, agentsAt, h.agentCount, h.agentSize, z.agent),
           Records(note, queuesAt, h.queueCount, h.queueSize, z.queue))
  {
    FlatMemory.MulMonotone(0, h.agentCount, h.agentSize);
    FlatMemory.MulMonotone(0, h.queueCount, h.queueSize);
  }

  // ----- the writer -----

  class NoteBuilder {
    var stream: Octets

    constructor ()
      ensures stream == []
    {
      stream := [];
    }

    method Write(bytes: Octets)
      modifies this
      ensures stream == old(stream) + bytes
    {
      stream := stream + bytes;
    }
  }

  /** The driver's answer to a request for records: a failure, or how many there are and those
      that fitted. */
  datatype Answer = Failed(status: int) | Listed(total: nat, records: seq<Octets>)

  datatype Created = Note(bytes: Octets) | Refused(status: int)

  const ERROR: int := -1

  /** The driver is asked twice, first for how many records there are and then for all; the
      process is suspended in between. */
  predicate Steady(asked: (Answer, Answer)) {
    asked.0.Listed? && asked.1.Listed? ==> asked.0.total == asked.1.total == |asked.1.records|
  }

  /** The first failure among the answers. */
  function Failure(asked: (Answer, Answer)): Option<int> {
    if asked.0.Failed? then Some(asked.0.status) else if asked.1.Failed? then Some(asked.1.status) else None
  }

  method Fetch(asked: (Answer, Answer)) returns (failure: Option<int>, records: seq<Octets>)
    requires Steady(asked)
    ensures failure == Failure(asked)
    ensures failure.None? ==> asked.1.Listed? && records == asked.1.records
  {
    records := [];
    match asked.0 {
      case Failed(status) => return Some(status), [];
      case Listed(total, _) => records := seq(total, _ => []);
    }
    match asked.1 {
      case Failed(status) => failure := Some(status);
      case Listed(_, all) =>
        failure := None;
        records := all[..|records|];
    }
  }

  /** Writes the note for a process whose driver reports version `major`.`minor`, by a build made
      for version `ownMajor`.`ownMinor`. A failure of the driver is passed on, the first one
      met. */
  method Create(z: Sizes, major: nat, minor: nat, ownMajor: nat, ownMinor: nat,
    runtime: Octets, agents: (Answer, Answer), queues: (Answer, Answer)) returns (note: Created)
    requires Steady(agents) && Steady(queues)
    ensures note.Note? <==> major == ownMajor && agents.0.Listed? && agents.1.Listed? && queues.0.Listed? && queues.1.Listed?
    ensures note.Note? ==>
      note.bytes == NoteOf(z, State(major, if minor <= ownMinor then minor else ownMinor, runtime, agents.1.records, queues.1.records))
    ensures note.Refused? && major != ownMajor ==> note.status == ERROR
    ensures note.Refused? && major == ownMajor ==>
      Some(note.status) == (if Failure(agents).Some? then Failure(agents) else Failure(queues))
  {
    if major != ownMajor { return Refused(ERROR); }
    var least := if minor <= ownMinor then minor else ownMinor;
    var failure, agentRecords := Fetch(agents);
    if failure.Some? { return Refused(failure.value); }
    var queueRecords;
    failure, queueRecords := Fetch(queues);
    if failure.Some? { return Refused(failure.value); }
    var bytes := Build(z, State(major, least, runtime, agentRecords, queueRecords));
    note := Note(bytes);
  }

  method Build(z: Sizes, s: State) returns (note: Octets)
    ensures note == NoteOf(z, s)
  {
    var builder := new NoteBuilder();
    builder.Write(Encode(NOTE_VERSION, 8));
    builder.Write(EncodeHeader(Header(s.major, s.minor, z.runtime, |s.agents|, z.agent, |s.queues|, z.queue)));
    builder.Write(s.runtime);
    builder.Write(Concat(s.agents));
    builder.Write(Concat(s.queues));
    note := builder.stream;
  }

  /** A process's note, loaded on a machine of the same byte order, gives back the process: the
      driver version no newer than the writer's, and every record. */
  method SaveAndLoad(z: Sizes, z': Sizes, major: nat, minor: nat, ownMinor: nat,
    runtime: Octets, agents: seq<Octets>, queues: seq<Octets>) returns (state: Option<State>)
    requires Storable(z, State(major, if minor <= ownMinor then minor else ownMinor, runtime, agents, queues))
    ensures state == Some(ResizedState(z', State(major, if minor <= ownMinor then minor else ownMinor, runtime, agents, queues)))
  {
    var agentAnswers := (Listed(|agents|, agents[..if agents == [] then 0 else 1]), Listed(|agents|, agents));
    var queueAnswers := (Listed(|queues|, queues[..if queues == [] then 0 else 1]), Listed(|queues|, queues));
    var note := Create(z, major, minor, major, ownMinor, runtime, agentAnswers, queueAnswers);
    NoteIsReadBack(z, z', State(major, if minor <= ownMinor then minor else ownMinor, runtime, agents, queues));
    state := Load(note.bytes, true, z');
  }
}
