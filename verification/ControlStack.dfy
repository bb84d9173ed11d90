/** Decoding a queue's control stack: which waves were saved, and where the record of each one
    lies in the wave area. */
module ControlStack {
  import opened Wrappers
  import opened RegisterLayout

  predicate IsEvent(word: nat) { word / 0x4000_0000 % 2 == 1 }
  predicate IsState(word: nat) { word / 0x8000_0000 % 2 == 1 }

  /** The state words in force; gfx10 has two. */
  datatype State = State(first: nat, second: nat)

  /** A wave word, the state it was found under and the size of the record that follows from them. */
  datatype Saved = Saved(wave: nat, state: State, bytes: nat)

  /** The bytes [begin, end) of the wave area that hold one wave. */
  datatype Record = Record(saved: Saved, begin: int, end: int)

  const START: State := State(0, 0)

  /** The two packets at the top of the stack are not part of it. */
  const HEADER: nat := 2

  /** The words the stack takes for a state. */
  function StateWords(f: Family): nat { if f.Gfx10? then 2 else 1 }

  /** Below the end of a record gfx9 leaves 64 bytes unused. */
  function Gap(f: Family): nat { if f.Gfx10? then 0 else 64 }

  /** Every wave comes under a state with a layout, and no state is cut off. */
  ghost predicate Decodable(f: Family, words: seq<nat>, i: nat, state: State)
    decreases |words| - i
  {
    if i >= |words| then true
    else if IsEvent(words[i]) then Decodable(f, words, i + 1, state)
    else if IsState(words[i]) then
      i + StateWords(f) <= |words| && Decodable(f, words, i + StateWords(f), NextState(f, words, i, state))
    else StateOk(f, state.first) && Decodable(f, words, i + 1, state)
  }

  function NextState(f: Family, words: seq<nat>, i: nat, state: State): State
    requires i + StateWords(f) <= |words|
  {
    if f.Gfx10? then State(words[i], words[i + 1]) else State(words[i], state.second)
  }

  ghost predicate AllOk(f: Family, waves: seq<Saved>) {
    forall k :: 0 <= k < |waves| ==> IsSaved(f, waves[k])
  }

  predicate IsSaved(f: Family, w: Saved) {
    StateOk(f, w.state.first) && w.bytes == BytesOf(f, w.wave, w.state)
  }

  function BytesOf(f: Family, wave: nat, state: State): nat
    requires StateOk(f, state.first)
  {
    RecordBytes(ShapeOf(f, wave, state.first))
  }

  /** The waves from word `i` on. */
  ghost function Waves(f: Family, words: seq<nat>, i: nat, state: State): (waves: seq<Saved>)
    requires Decodable(f, words, i, state)
    decreases |words| - i
  {
    if i >= |words| then []
    else if IsEvent(words[i]) then Waves(f, words, i + 1, state)
    else if IsState(words[i]) then Waves(f, words, i + StateWords(f), NextState(f, words, i, state))
    else [Saved(words[i], state, BytesOf(f, words[i], state))] + Waves(f, words, i + 1, state)
  }

  /** The waves from word `i` on, if they can be decoded. */
  ghost function Remaining(f: Family, words: seq<nat>, i: nat, state: State): Option<seq<Saved>> {
    if Decodable(f, words, i, state) then Some(Waves(f, words, i, state)) else None
  }

  lemma {:induction false} WavesAreSaved(f: Family, words: seq<nat>, i: nat, state: State)
    requires Decodable(f, words, i, state)
    ensures AllOk(f, Waves(f, words, i, state))
    decreases |words| - i
  {
    if i < |words| {
      if IsEvent(words[i]) {
        WavesAreSaved(f, words, i + 1, state);
      } else if IsState(words[i]) {
        WavesAreSaved(f, words, i + StateWords(f), NextState(f, words, i, state));
      } else {
        WavesAreSaved(f, words, i + 1, state);
      }
    }
  }

  // ----- the stack, word by word -----

  /** Word `j` belongs to the state before it: on gfx10 a state takes two words, whatever the
      second one is. */
  predicate IsSecond(f: Family, words: seq<nat>, j: nat)
    requires j <= |words|
    decreases j, 0
  {
    f.Gfx10? && j > HEADER && StartsState(f, words, j - 1)
  }

  predicate StartsState(f: Family, words: seq<nat>, j: nat)
    requires j < |words|
    decreases j, 1
  {
    j >= HEADER && !IsSecond(f, words, j) && !IsEvent(words[j]) && IsState(words[j])
  }

  predicate NamesWave(f: Family, words: seq<nat>, j: nat)
    requires j < |words|
  {
    j >= HEADER && !IsSecond(f, words, j) && !IsEvent(words[j]) && !IsState(words[j])
  }

  function StateStarts(f: Family, words: seq<nat>): set<nat> {
    set j | HEADER <= j < |words| && StartsState(f, words, j)
  }

  /** Of the positions in `starts`, `s` is the last one before `j`. */
  ghost predicate LastBefore(starts: set<nat>, s: nat, j: nat) {
    s in starts && s < j && forall k :: k in starts && k < j ==> k <= s
  }

  /** The state that is in force at word `j`: that of the last state that starts before it, or zeros. */
  ghost predicate InForce(f: Family, words: seq<nat>, starts: set<nat>, j: nat, state: State) {
    && (!f.Gfx10? ==> state.second == 0)
    && ((forall s :: s in starts ==> s >= j) ==> state == START)
    && forall s :: LastBefore(starts, s, j) ==> IsStateAt(f, words, s, state)
  }

  predicate IsStateAt(f: Family, words: seq<nat>, s: nat, state: State) {
    s + StateWords(f) <= |words| && state.first == words[s] && (f.Gfx10? ==> state.second == words[s + 1])
  }

  lemma {:induction false} LastExists(starts: set<nat>, j: nat) returns (s: nat)
    ensures (forall k :: k in starts ==> k >= j) || LastBefore(starts, s, j)
  {
    if j == 0 {
      s := 0;
    } else if j - 1 in starts {
      s := j - 1;
    } else {
      s := LastExists(starts, j - 1);
    }
  }

  lemma InForceIsUnique(f: Family, words: seq<nat>, starts: set<nat>, j: nat, state: State, state': State)
    requires InForce(f, words, starts, j, state) && InForce(f, words, starts, j, state')
    ensures state == state'
  {
    var s := LastExists(starts, j);
    if LastBefore(starts, s, j) {
      assert IsStateAt(f, words, s, state) && IsStateAt(f, words, s, state');
    }
  }

  /** Nothing changes at a word that starts no state. */
  lemma InForceStays(f: Family, words: seq<nat>, starts: set<nat>, j: nat, state: State)
    requires InForce(f, words, starts, j, state) && j !in starts
    ensures InForce(f, words, starts, j + 1, state)
  {
    forall s | LastBefore(starts, s, j + 1)
      ensures IsStateAt(f, words, s, state)
    {
      assert LastBefore(starts, s, j);
    }
  }

  lemma InForceChanges(f: Family, words: seq<nat>, starts: set<nat>, j: nat, state: State)
    requires j in starts && IsStateAt(f, words, j, state) && (!f.Gfx10? ==> state.second == 0)
    ensures InForce(f, words, starts, j + 1, state)
  {
  }

  /** `w` is the wave that word `j` names, under the state in force there. */
  ghost predicate WaveAt(f: Family, words: seq<nat>, j: nat, w: Saved) {
    j < |words| && NamesWave(f, words, j) && w.wave == words[j] && IsSaved(f, w)
      && InForce(f, words, StateStarts(f, words), j, w.state)
  }

  ghost predicate Named(f: Family, words: seq<nat>, positions: seq<nat>, waves: seq<Saved>) {
    |positions| == |waves| && forall k :: 0 <= k < |positions| ==> WaveAt(f, words, positions[k], waves[k])
  }

  /** Every wave comes under a state with a layout, and no state is cut off: said by position. */
  ghost predicate DecodableAt(f: Family, words: seq<nat>, j: nat)
    requires j < |words|
  {
    && (NamesWave(f, words, j) ==>
          forall state :: InForce(f, words, StateStarts(f, words), j, state) ==> StateOk(f, state.first))
    && (StartsState(f, words, j) ==> j + StateWords(f) <= |words|)
  }

  /** The walk is at the start of a packet, under the state in force there. */
  ghost predicate AtPacket(f: Family, words: seq<nat>, i: nat, state: State) {
    HEADER <= i <= |words| && !IsSecond(f, words, i) && InForce(f, words, StateStarts(f, words), i, state)
  }

  lemma SkippedWord(f: Family, words: seq<nat>, i: nat, state: State)
    requires AtPacket(f, words, i, state) && i < |words| && (IsEvent(words[i]) || !IsState(words[i]))
    ensures AtPacket(f, words, i + 1, state)
    ensures !StartsState(f, words, i) && (NamesWave(f, words, i) <==> !IsEvent(words[i]))
  {
    InForceStays(f, words, StateStarts(f, words), i, state);
  }

  lemma StatePacket(f: Family, words: seq<nat>, i: nat, state: State)
    requires AtPacket(f, words, i, state) && i < |words| && !IsEvent(words[i]) && IsState(words[i])
    ensures StartsState(f, words, i) && !NamesWave(f, words, i)
    ensures i + StateWords(f) <= |words| ==> AtPacket(f, words, i + StateWords(f), NextState(f, words, i, state))
    ensures f.Gfx10? && i + 1 < |words| ==> !NamesWave(f, words, i + 1) && !StartsState(f, words, i + 1)
  {
    var starts := StateStarts(f, words);
    if i + StateWords(f) <= |words| {
      InForceChanges(f, words, starts, i, NextState(f, words, i, state));
      if f.Gfx10? {
        assert IsSecond(f, words, i + 1) && i + 1 !in starts;
        InForceStays(f, words, starts, i + 1, NextState(f, words, i, state));
      }
    }
  }

  /** The positions of the words from `i` on that name waves, in order. */
  function WavePositions(f: Family, words: seq<nat>, i: nat): (positions: seq<nat>)
    ensures forall k :: 0 <= k < |positions| ==> i <= positions[k] < |words| && NamesWave(f, words, positions[k])
    ensures forall k, k' :: 0 <= k < k' < |positions| ==> positions[k] < positions[k']
    ensures forall j :: i <= j < |words| && NamesWave(f, words, j) ==> j in positions
    decreases |words| - i
  {
    if i >= |words| then []
    else
      var rest := WavePositions(f, words, i + 1);
      if NamesWave(f, words, i) then [i] + rest else rest
  }

  lemma PositionsSkip(f: Family, words: seq<nat>, i: nat)
    requires i + StateWords(f) <= |words| && StartsState(f, words, i) && !NamesWave(f, words, i)
    requires f.Gfx10? ==> !NamesWave(f, words, i + 1)
    ensures WavePositions(f, words, i) == WavePositions(f, words, i + StateWords(f))
  {
  }

  lemma FirstNamed(f: Family, words: seq<nat>, i: nat, w: Saved, waves: seq<Saved>)
    requires WaveAt(f, words, i, w) && Named(f, words, WavePositions(f, words, i + 1), waves)
    ensures Named(f, words, WavePositions(f, words, i), [w] + waves)
  {
    assert WavePositions(f, words, i) == [i] + WavePositions(f, words, i + 1);
    NamedCons(f, words, i, w, WavePositions(f, words, i + 1), waves);
  }

  lemma NamedCons(f: Family, words: seq<nat>, j: nat, w: Saved, positions: seq<nat>, waves: seq<Saved>)
    requires WaveAt(f, words, j, w) && Named(f, words, positions, waves)
    ensures Named(f, words, [j] + positions, [w] + waves)
  {
    forall k | 0 <= k < |positions| + 1
      ensures WaveAt(f, words, ([j] + positions)[k], ([w] + waves)[k])
    {
      if k > 0 { assert WaveAt(f, words, positions[k - 1], waves[k - 1]); }
    }
  }

  lemma {:induction false} WavesFrom(f: Family, words: seq<nat>, i: nat, state: State)
    requires Decodable(f, words, i, state) && AtPacket(f, words, i, state)
    ensures Named(f, words, WavePositions(f, words, i), Waves(f, words, i, state))
    decreases |words| - i
  {
    if i < |words| {
      if IsEvent(words[i]) {
        SkippedWord(f, words, i, state);
        WavesFrom(f, words, i + 1, state);
      } else if IsState(words[i]) {
        StatePacket(f, words, i, state);
        PositionsSkip(f, words, i);
        WavesFrom(f, words, i + StateWords(f), NextState(f, words, i, state));
      } else {
        SkippedWord(f, words, i, state);
        WavesFrom(f, words, i + 1, state);
        FirstNamed(f, words, i, Saved(words[i], state, BytesOf(f, words[i], state)), Waves(f, words, i + 1, state));
      }
    }
  }

  /** The decoder meets no packet it cannot decode if and only if, position by position, there is none. */
  lemma {:induction false} DecodableFrom(f: Family, words: seq<nat>, i: nat, state: State)
    requires AtPacket(f, words, i, state)
    ensures Decodable(f, words, i, state) <==> forall j :: i <= j < |words| ==> DecodableAt(f, words, j)
    decreases |words| - i
  {
    if i < |words| {
      if IsEvent(words[i]) {
        SkippedWord(f, words, i, state);
        DecodableFrom(f, words, i + 1, state);
      } else if IsState(words[i]) {
        StatePacket(f, words, i, state);
        if i + StateWords(f) <= |words| { DecodableFrom(f, words, i + StateWords(f), NextState(f, words, i, state)); }
        assert DecodableAt(f, words, i) <==> i + StateWords(f) <= |words|;
      } else {
        SkippedWord(f, words, i, state);
        DecodableFrom(f, words, i + 1, state);
        WaveDecodable(f, words, i, state);
      }
    }
  }

  lemma WaveDecodable(f: Family, words: seq<nat>, i: nat, state: State)
    requires AtPacket(f, words, i, state) && i < |words| && NamesWave(f, words, i)
    ensures DecodableAt(f, words, i) <==> StateOk(f, state.first)
  {
    forall state' | InForce(f, words, StateStarts(f, words), i, state')
      ensures state' == state
    {
      InForceIsUnique(f, words, StateStarts(f, words), i, state, state');
    }
  }

  /** What the decoder finds, by position and without walking the stack: the waves are those that the
      words naming waves name, in order, each under the state of the last state packet before it. */
  lemma WavesByPosition(f: Family, words: seq<nat>)
    ensures Decodable(f, words, HEADER, START) <==> forall j :: HEADER <= j < |words| ==> DecodableAt(f, words, j)
    ensures Decodable(f, words, HEADER, START) ==>
      Named(f, words, WavePositions(f, words, HEADER), Waves(f, words, HEADER, START))
  {
    if |words| >= HEADER {
      assert AtPacket(f, words, HEADER, START);
      DecodableFrom(f, words, HEADER, START);
      if Decodable(f, words, HEADER, START) { WavesFrom(f, words, HEADER, START); }
    }
  }

  /** What the waves take of the wave area. */
  ghost function TotalBytes(f: Family, waves: seq<Saved>): nat {
    if waves == [] then 0 else waves[0].bytes + Gap(f) + TotalBytes(f, waves[1..])
  }

  function RecordBelow(f: Family, w: Saved, top: int): Record {
    Record(w, top - Gap(f) - w.bytes, top - Gap(f))
  }

  /** The records of the waves, from `top` downward. */
  ghost function Carve(f: Family, waves: seq<Saved>, top: int): (records: seq<Record>)
    ensures |records| == |waves|
  {
    if waves == [] then []
    else
      var r := RecordBelow(f, waves[0], top);
      [r] + Carve(f, waves[1..], r.begin)
  }

  /** Bit 30 of a word marks an event and bit 31 a state. */
  lemma PacketBits(word: nat, low: nat, event: nat, state: nat, high: nat)
    requires low < 0x4000_0000 && event < 2 && state < 2
    requires word == low + 0x4000_0000 * (event + 2 * state + 4 * high)
    ensures IsEvent(word) <==> event == 1
    ensures IsState(word) <==> state == 1
  {
    assert word / 0x4000_0000 == event + 2 * state + 4 * high;
    assert word / 0x8000_0000 == state + 2 * high;
  }

  /** One wave with 8 vector and 16 scalar registers on gfx9: 64 bytes lie unused above its record. */
  lemma Gfx9Example(top: int)
    ensures var words, state := [0, 0, 0x8000_0041, 0], State(0x8000_0041, 0);
      && Decodable(Gfx9, words, HEADER, START) && Waves(Gfx9, words, HEADER, START) == [Saved(0, state, 2240)]
      && Carve(Gfx9, Waves(Gfx9, words, HEADER, START), top) == [Record(Saved(0, state, 2240), top - 2304, top - 64)]
  {
    var words, state := [0, 0, 0x8000_0041, 0], State(0x8000_0041, 0);
    PacketBits(0x8000_0041, 0x41, 0, 1, 0);
    PacketBits(0, 0, 0, 0, 0);
    assert BytesOf(Gfx9, 0, state) == 2240;
    assert Waves(Gfx9, words, 4, state) == [];
    assert Waves(Gfx9, words, 3, state) == [Saved(0, state, 2240)];
    CarveOne(Gfx9, Saved(0, state, 2240), top);
  }

  /** On gfx10 the second word of a state is no wave and no event, whatever its bits, and nothing lies
      unused above a record. */
  lemma Gfx10Example(top: int)
    ensures var words, state := [0, 0, 0x8000_0001, 0x4000_0000, 0], State(0x8000_0001, 0x4000_0000);
      && Decodable(Gfx10, words, HEADER, START) && Waves(Gfx10, words, HEADER, START) == [Saved(0, state, 2688)]
      && Carve(Gfx10, Waves(Gfx10, words, HEADER, START), top) == [Record(Saved(0, state, 2688), top - 2688, top)]
  {
    var words, state := [0, 0, 0x8000_0001, 0x4000_0000, 0], State(0x8000_0001, 0x4000_0000);
    PacketBits(0x8000_0001, 1, 0, 1, 0);
    PacketBits(0, 0, 0, 0, 0);
    assert BytesOf(Gfx10, 0, state) == 2688;
    assert Waves(Gfx10, words, 5, state) == [];
    assert Waves(Gfx10, words, 4, state) == [Saved(0, state, 2688)];
    CarveOne(Gfx10, Saved(0, state, 2688), top);
  }

  lemma CarveOne(f: Family, w: Saved, top: int)
    ensures Carve(f, [w], top) == [RecordBelow(f, w, top)]
  {
    assert [w][1..] == [];
    assert Carve(f, [], RecordBelow(f, w, top).begin) == [];
  }

  // ----- what the records are -----

  /** Records lie below one another, each as long as its registers need, with only the gap
      between; the last one ends the wave area. */
  ghost predicate Descending(f: Family, waves: seq<Saved>, records: seq<Record>, top: int, bottom: int) {
    && |records| == |waves|
    && (forall k :: 0 <= k < |records| ==> IsRecordOf(f, records[k], waves[k], Above(records, k, top)))
    && bottom == Above(records, |records|, top)
  }

  predicate IsRecordOf(f: Family, r: Record, w: Saved, above: int) {
    r.saved == w && r.end == above - Gap(f) && r.begin == r.end - w.bytes
  }

  /** The address that record `k` lies below. */
  function Above(records: seq<Record>, k: nat, top: int): int
    requires k <= |records|
  {
    if k == 0 then top else records[k - 1].begin
  }

  lemma {:induction false} CarveDescends(f: Family, waves: seq<Saved>, top: int)
    ensures Descending(f, waves, Carve(f, waves, top), top, top - TotalBytes(f, waves))
  {
    if waves != [] {
      var records := Carve(f, waves, top);
      var rest := records[1..];
      CarveDescends(f, waves[1..], records[0].begin);
      forall k | 0 <= k < |records|
        ensures IsRecordOf(f, records[k], waves[k], Above(records, k, top))
      {
        if k > 0 {
          assert records[k] == rest[k - 1] && Above(records, k, top) == Above(rest, k - 1, records[0].begin);
          assert IsRecordOf(f, rest[k - 1], waves[1..][k - 1], Above(rest, k - 1, records[0].begin));
        }
      }
      assert Above(records, |records|, top) == Above(rest, |rest|, records[0].begin);
    }
  }

  lemma RecordIsNotEmpty(f: Family, w: Saved)
    requires IsSaved(f, w)
    ensures w.bytes > 0
  {
    WordsGiveValidShape(f, w.wave, w.state.first);
  }

  /** The records as byte ranges: none is empty, and each ends one gap below the one before. */
  ghost predicate Stacked(records: seq<Record>, top: int, gap: nat) {
    forall k :: 0 <= k < |records| ==> Hangs(records[k], Above(records, k, top), gap)
  }

  predicate Hangs(r: Record, above: int, gap: nat) {
    r.begin < r.end == above - gap
  }

  lemma DescendingIsStacked(f: Family, waves: seq<Saved>, records: seq<Record>, top: int, bottom: int)
    requires AllOk(f, waves) && Descending(f, waves, records, top, bottom)
    ensures Stacked(records, top, Gap(f))
  {
    forall k | 0 <= k < |records|
      ensures Hangs(records[k], Above(records, k, top), Gap(f))
    {
      assert IsRecordOf(f, records[k], waves[k], Above(records, k, top)) && IsSaved(f, waves[k]);
      RecordIsNotEmpty(f, waves[k]);
    }
  }

  lemma {:induction false} AboveFalls(records: seq<Record>, top: int, gap: nat, i: nat, j: nat)
    requires Stacked(records, top, gap) && i <= j <= |records|
    ensures Above(records, j, top) <= Above(records, i, top)
    decreases j
  {
    if i < j {
      AboveFalls(records, top, gap, i, j - 1);
      assert Hangs(records[j - 1], Above(records, j - 1, top), gap);
    }
  }

  lemma InArea(records: seq<Record>, top: int, gap: nat, i: nat)
    requires Stacked(records, top, gap) && i < |records|
    ensures Above(records, |records|, top) <= records[i].begin < records[i].end == Above(records, i, top) - gap <= top - gap
  {
    AboveFalls(records, top, gap, 0, i);
    AboveFalls(records, top, gap, i + 1, |records|);
    assert Hangs(records[i], Above(records, i, top), gap);
  }

  /** Records lie in the wave area, and later ones strictly below earlier ones. */
  lemma RecordsAreDisjoint(records: seq<Record>, top: int, gap: nat, i: nat, j: nat)
    requires Stacked(records, top, gap) && i < j < |records|
    ensures records[j].begin < records[j].end <= records[i].begin - gap
    ensures records[i].end <= top - gap && Above(records, |records|, top) <= records[j].begin
  {
    InArea(records, top, gap, i);
    InArea(records, top, gap, j);
    AboveFalls(records, top, gap, i + 1, j);
  }

  /** Every byte of the wave area belongs to a record or to the gap above one. */
  lemma {:induction false} RecordsTile(records: seq<Record>, top: int, gap: nat, x: int, n: nat) returns (k: nat)
    requires Stacked(records, top, gap) && n <= |records| && Above(records, n, top) <= x < top
    ensures k < n && records[k].begin <= x < records[k].end + gap
  {
    if Above(records, n - 1, top) <= x {
      k := RecordsTile(records, top, gap, x, n - 1);
    } else {
      k := n - 1;
      assert Hangs(records[k], Above(records, k, top), gap);
    }
  }

  /** Registers of different waves never overlap. */
  lemma WavesDoNotOverlap(f: Family, waves: seq<Saved>, records: seq<Record>, top: int, bottom: int,
    i: nat, j: nat, r: Register, r': Register)
    requires AllOk(f, waves) && Descending(f, waves, records, top, bottom)
    requires i < |records| && j < |records| && i != j && IsNumber(r) && IsNumber(r')
    ensures IsSaved(f, waves[i]) && IsSaved(f, waves[j])
    ensures
      var sh, sh' := ShapeOf(f, waves[i].wave, waves[i].state.first), ShapeOf(f, waves[j].wave, waves[j].state.first);
      && ValidShape(f, sh) && ValidShape(f, sh')
      && var a, a' := Address(f, sh, records[i].end, r), Address(f, sh', records[j].end, r');
         a.Some? && a'.Some? ==> !RangesMeet(a.value, RegisterBytes(sh, r), a'.value, RegisterBytes(sh', r'))
  {
    WordsGiveValidShape(f, waves[i].wave, waves[i].state.first);
    WordsGiveValidShape(f, waves[j].wave, waves[j].state.first);
    var sh, sh' := ShapeOf(f, waves[i].wave, waves[i].state.first), ShapeOf(f, waves[j].wave, waves[j].state.first);
    if Address(f, sh, records[i].end, r).Some? && Address(f, sh', records[j].end, r').Some? {
      RegistersInside(f, sh, records[i].end, r);
      RegistersInside(f, sh', records[j].end, r');
      assert IsRecordOf(f, records[i], waves[i], Above(records, i, top));
      assert IsRecordOf(f, records[j], waves[j], Above(records, j, top));
      DescendingIsStacked(f, waves, records, top, bottom);
      RecordsAreDisjoint(records, top, Gap(f), if i < j then i else j, if i < j then j else i);
    }
  }

  // ----- the decoder -----

  /** Decodes the control stack, handing over a record for each wave. Succeeds exactly when
      the waves take all of the wave area and no more; then the records tile it. */
  method Iterate(f: Family, words: seq<nat>, top: int, size: nat) returns (corrupted: bool, count: nat, records: seq<Record>)
    requires Decodable(f, words, HEADER, START)
    ensures records == Carve(f, Waves(f, words, HEADER, START), top)
    ensures count == |Waves(f, words, HEADER, START)|
    ensures corrupted <==> TotalBytes(f, Waves(f, words, HEADER, START)) != size
    ensures !corrupted ==> Descending(f, Waves(f, words, HEADER, START), records, top, top - size)
    ensures var positions := WavePositions(f, words, HEADER);
      count == |positions| == |records| && forall k :: 0 <= k < count ==> WaveAt(f, words, positions[k], records[k].saved)
  {
    var last;
    last, count, records := Walk(f, words, top, Waves(f, words, HEADER, START));
    corrupted := last != top - size;
    CarveDescends(f, Waves(f, words, HEADER, START), top);
    WavesByPosition(f, words);
    ghost var positions := WavePositions(f, words, HEADER);
    forall k | 0 <= k < count
      ensures WaveAt(f, words, positions[k], records[k].saved)
    {
      assert IsRecordOf(f, records[k], Waves(f, words, HEADER, START)[k], Above(records, k, top));
    }
  }

  /** Of the waves, `count` have their records; `rest` lie below `last`. */
  ghost predicate Walked(f: Family, waves: seq<Saved>, top: int, records: seq<Record>, last: int, count: nat, rest: seq<Saved>) {
    && Carve(f, waves, top) == records + Carve(f, rest, last)
    && TotalBytes(f, waves) == top - last + TotalBytes(f, rest)
    && |waves| == count + |rest|
  }

  lemma WalkedOne(f: Family, waves: seq<Saved>, top: int, records: seq<Record>, last: int, count: nat, rest: seq<Saved>,
    record: Record, rest': seq<Saved>)
    requires Walked(f, waves, top, records, last, count, rest)
    requires Carve(f, rest, last) == [record] + Carve(f, rest', record.begin) && |rest| == 1 + |rest'|
    requires TotalBytes(f, rest) == last - record.begin + TotalBytes(f, rest')
    ensures Walked(f, waves, top, records + [record], record.begin, count + 1, rest')
  {
    var more := Carve(f, rest', record.begin);
    assert records + ([record] + more) == (records + [record]) + more;
  }

  /** The loop over the words of the stack; `last` is where the last record begins. */
  method Walk(f: Family, words: seq<nat>, top: int, ghost waves: seq<Saved>) returns (last: int, count: nat, records: seq<Record>)
    requires Remaining(f, words, HEADER, START) == Some(waves)
    ensures records == Carve(f, waves, top) && count == |waves| && last == top - TotalBytes(f, waves)
  {
    var i, state := HEADER, START;
    last, count, records := top, 0, [];
    ghost var rest := waves;
    while i < |words|
      invariant Remaining(f, words, i, state) == Some(rest)
      invariant Walked(f, waves, top, records, last, count, rest)
      decreases |words| - i
    {
      if IsEvent(words[i]) || IsState(words[i]) {
        i, state := SkipWord(f, words, i, state);
      } else {
        var record, rest' := Emit(f, words, i, state, last, rest);
        WalkedOne(f, waves, top, records, last, count, rest, record, rest');
        records, last, count, i, rest := records + [record], record.begin, count + 1, i + 1, rest';
      }
    }
    assert rest == [];
  }

  /** Skips an event, or reads a state, which takes two words on gfx10. */
  method SkipWord(f: Family, words: seq<nat>, i: nat, state: State) returns (i': nat, state': State)
    requires i < |words| && (IsEvent(words[i]) || IsState(words[i])) && Remaining(f, words, i, state).Some?
    ensures i < i' <= |words| && Remaining(f, words, i', state') == Remaining(f, words, i, state)
  {
    i', state' := i, state;
    if IsEvent(words[i]) {
      EventWord(f, words, i, state);
    } else {
      StateWord(f, words, i, state);
      if f.Gfx10? {
        i' := i' + 1;
        state' := State(words[i], words[i']);
      } else {
        state' := state'.(first := words[i]);
      }
    }
    i' := i' + 1;
  }

  lemma EventWord(f: Family, words: seq<nat>, i: nat, state: State)
    requires i < |words| && IsEvent(words[i])
    ensures Remaining(f, words, i, state) == Remaining(f, words, i + 1, state)
  {
  }

  /** A word, or on gfx10 a pair of words, that sets the state. */
  lemma StateWord(f: Family, words: seq<nat>, i: nat, state: State)
    requires i < |words| && !IsEvent(words[i]) && IsState(words[i]) && Remaining(f, words, i, state).Some?
    ensures i + StateWords(f) <= |words|
    ensures Remaining(f, words, i, state) == Remaining(f, words, i + StateWords(f), NextState(f, words, i, state))
  {
  }

  /** A word that names a wave. */
  lemma WaveWord(f: Family, words: seq<nat>, i: nat, state: State) returns (w: Saved)
    requires i < |words| && Decodable(f, words, i, state) && !IsEvent(words[i]) && !IsState(words[i])
    ensures Decodable(f, words, i + 1, state) && IsSaved(f, w) && w.wave == words[i] && w.state == state
    ensures Waves(f, words, i, state) == [w] + Waves(f, words, i + 1, state)
  {
    w := Waves(f, words, i, state)[0];
  }

  /** Makes the record of the wave word at `i`. */
  method Emit(f: Family, words: seq<nat>, i: nat, state: State, last: int, ghost rest: seq<Saved>)
    returns (record: Record, ghost rest': seq<Saved>)
    requires i < |words| && !IsEvent(words[i]) && !IsState(words[i]) && Remaining(f, words, i, state) == Some(rest)
    ensures Remaining(f, words, i + 1, state) == Some(rest')
    ensures Carve(f, rest, last) == [record] + Carve(f, rest', record.begin) && |rest| == 1 + |rest'|
    ensures TotalBytes(f, rest) == last - record.begin + TotalBytes(f, rest')
  {
    ghost var w := WaveWord(f, words, i, state);
    record := RecordOf(f, words[i], state, last, w);
    rest' := Waves(f, words, i + 1, state);
    CarveFirst(f, w, rest', last);
  }

  lemma CarveFirst(f: Family, w: Saved, rest: seq<Saved>, top: int)
    ensures Carve(f, [w] + rest, top) == [RecordBelow(f, w, top)] + Carve(f, rest, RecordBelow(f, w, top).begin)
    ensures TotalBytes(f, [w] + rest) == top - RecordBelow(f, w, top).begin + TotalBytes(f, rest)
  {
    assert ([w] + rest)[1..] == rest;
  }

  /** The record of a wave; its first byte is the address of the first vector register. */
  method RecordOf(f: Family, wave: nat, state: State, last: int, ghost w: Saved) returns (r: Record)
    requires IsSaved(f, w) && wave == w.wave && state == w.state
    ensures r == RecordBelow(f, w, last)
  {
    WordsGiveValidShape(f, wave, state.first);
    var sh := ShapeOf(f, wave, state.first);
    var end := last - Gap(f);
    AddressIsPlace(f, sh, end, if sh.wave32 then V32(0) else V64(0));
    var begin := Begin(f, sh, end).value;
    r := Record(Saved(wave, state, end - begin), begin, end);
  }
}
