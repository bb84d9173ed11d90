/** The waves of a queue and the count of those that run. The count is recomputed from the save
    area when the queue is suspended, kept up to date wave by wave, and unknown in between. */
module WaveCounts {
  import opened Wrappers
  import opened QueueSpec

  datatype WaveState = Stop | Run | SingleStep

  datatype Visibility = Visible | HaltedAtLaunch | Terminating

  /** A wave; `mark` tells in which update it was last seen, 0 if in none. */
  datatype Wave = Wave(state: WaveState, visibility: Visibility, mark: nat)

  const NEW: Wave := Wave(Run, Visible, 0)

  datatype Table = Table(waves: map<nat, Wave>, running: Option<nat>, nextId: nat, nextMark: nat)

  /** A record in the save area: the identifier its wave was given, if any, whether its registers
      show it stopped, and whether it is halted at the first instruction of its kernel. */
  datatype Record = Record(id: Option<nat>, stopped: bool, haltedAtEntry: bool)

  /** What happens to a wave that is to execute one instruction: it executes it on the hardware,
      it is ended instead, or the library executes the instruction itself. */
  datatype SingleStepping = OnHardware | Ends | Simulated

  // ----- one wave -----

  /** The wave after its registers are examined; a stopped one stays stopped. */
  function Examined(w: Wave, stopped: bool): Wave {
    if stopped then w.(state := Stop) else w
  }

  function Changed(running: nat, state: WaveState): nat
    requires state.Stop? ==> running > 0
  {
    if state.Stop? then running - 1 else running + 1
  }

  /** The wave has a new state, and the count is told. */
  function Put(t: Table, id: nat, w: Wave): Table
    requires t.running.Some? && (w.state.Stop? ==> t.running.value > 0)
  {
    t.(waves := t.waves[id := w], running := Some(Changed(t.running.value, w.state)))
  }

  /** The wave is asked to change its state. Ending it makes it run, if it does not already. */
  function StateSet(t: Table, id: nat, state: WaveState, how: SingleStepping): Table
    requires id in t.waves && t.running.Some? && (!t.waves[id].state.Stop? ==> t.running.value > 0)
  {
    var w := t.waves[id];
    if state == w.state then t
    else if state.SingleStep? && how.Ends? then
      if w.state.Run? then Kept(t, id, w.(visibility := Terminating))
      else Put(t, id, w.(state := Run, visibility := Terminating))
    else
      var t1 := Put(t, id, w.(state := state));
      if state.SingleStep? && how.Simulated? then Put(t1, id, w.(state := Stop)) else t1
  }

  /** The count is not told of a change that is not one of state. */
  function Kept(t: Table, id: nat, w: Wave): Table {
    t.(waves := t.waves[id := w])
  }

  /** A wave that is not stopped is resumed, which an assertion excludes but detaching does with a
      single-stepping one. */
  predicate RunsAgain(t: Table, id: nat, state: WaveState, how: SingleStepping)
    requires id in t.waves
  {
    && state != t.waves[id].state && !state.Stop? && !t.waves[id].state.Stop?
    && !(state.SingleStep? && how.Ends?)
  }

  // ----- one update -----

  /** Records name waves of the queue, each at most once. */
  ghost predicate RecordsOk(t: Table, records: seq<Record>, attaching: bool) {
    !attaching ==>
      && (forall i :: 0 <= i < |records| && records[i].id.Some? ==> records[i].id.value in t.waves)
      && (forall i, j :: 0 <= i < j < |records| && records[i].id.Some? ==> records[i].id != records[j].id)
  }

  /** While attaching every wave gets a new identifier. */
  predicate IsKnown(r: Record, attaching: bool) {
    !attaching && r.id.Some?
  }

  function IdOf(t: Table, r: Record, attaching: bool): nat {
    if IsKnown(r, attaching) then r.id.value else t.nextId
  }

  function WaveOf(t: Table, r: Record, attaching: bool): Wave
    requires IsKnown(r, attaching) ==> r.id.value in t.waves
  {
    if IsKnown(r, attaching) then t.waves[r.id.value] else NEW
  }

  /** The wave of a record: a new one that runs but is halted where it begins is hidden and
      stopped. */
  function Updated(w: Wave, r: Record, mark: nat): Wave {
    var x := Examined(w, r.stopped);
    if w.mark == 0 && x.state.Run? && r.haltedAtEntry then Wave(Stop, HaltedAtLaunch, mark) else x.(mark := mark)
  }

  function AfterRecord(t: Table, r: Record, mark: nat, attaching: bool): Table
    requires t.running.Some? && (IsKnown(r, attaching) ==> r.id.value in t.waves)
  {
    var w := Updated(WaveOf(t, r, attaching), r, mark);
    t.(waves := t.waves[IdOf(t, r, attaching) := w],
       running := if w.state.Stop? then t.running else Some(t.running.value + 1),
       nextId := if IsKnown(r, attaching) then t.nextId else t.nextId + 1)
  }

  ghost function AfterRecords(t: Table, records: seq<Record>, mark: nat, attaching: bool): (t': Table)
    requires t.running.Some? && RecordsOk(t, records, attaching)
    ensures t'.running.Some?
    decreases |records|
  {
    if records == [] then t
    else
      assert records[0] in records;
      var next := AfterRecord(t, records[0], mark, attaching);
      RestOk(t, records, mark, attaching);
      AfterRecords(next, records[1..], mark, attaching)
  }

  lemma RestOk(t: Table, records: seq<Record>, mark: nat, attaching: bool)
    requires t.running.Some? && RecordsOk(t, records, attaching) && records != []
    ensures RecordsOk(AfterRecord(t, records[0], mark, attaching), records[1..], attaching)
  {
    forall i | 0 <= i < |records| - 1
      ensures records[1..][i] == records[i + 1]
    {
    }
  }

  function Swept(t: Table, mark: nat): Table {
    t.(waves := map id | id in t.waves && t.waves[id].mark >= mark :: t.waves[id])
  }

  /** The queue has been suspended: the count starts again, every record is accounted for, and
      waves that are gone are removed. */
  ghost function WavesUpdated(t: Table, records: seq<Record>, attaching: bool): Table
    requires RecordsOk(t, records, attaching)
  {
    var started := t.(running := Some(0), nextMark := t.nextMark + 1);
    Swept(AfterRecords(started, records, t.nextMark, attaching), t.nextMark)
  }

  // ----- the count -----

  function Moving(waves: map<nat, Wave>): set<nat> {
    set id | id in waves && !waves[id].state.Stop?
  }

  /** Those already seen in the update `mark`. */
  function MovingSeen(waves: map<nat, Wave>, mark: nat): set<nat> {
    set id | id in waves && !waves[id].state.Stop? && waves[id].mark == mark
  }

  /** The count, when known, is the number of waves not stopped and `again` more. */
  ghost predicate Counted(t: Table, again: nat) {
    t.running.Some? ==> t.running.value == |Moving(t.waves)| + again
  }

  ghost predicate Inv(t: Table, again: nat) {
    Counted(t, again) && t.nextMark > 0 && forall id :: id in t.waves ==> id < t.nextId && t.waves[id].mark < t.nextMark
  }

  lemma MovingIsCounted(t: Table, again: nat, id: nat)
    requires Counted(t, again) && t.running.Some? && id in t.waves && !t.waves[id].state.Stop?
    ensures t.running.value > 0
  {
    assert id in Moving(t.waves);
  }

  /** Telling the count of a new state keeps it right if and only if the wave went from
      running to stopped or from stopped to running. */
  lemma PutCountsExactly(t: Table, again: nat, id: nat, w: Wave)
    requires Counted(t, again) && t.running.Some? && id in t.waves && (w.state.Stop? ==> t.running.value > 0)
    ensures Counted(Put(t, id, w), again) <==> t.waves[id].state.Stop? != w.state.Stop?
    ensures !t.waves[id].state.Stop? && !w.state.Stop? ==> Counted(Put(t, id, w), again + 1)
  {
    var t' := Put(t, id, w);
    if w.state.Stop? {
      assert Moving(t'.waves) == Moving(t.waves) - {id};
    } else {
      assert Moving(t'.waves) == Moving(t.waves) + {id};
      assert id in Moving(t.waves) ==> Moving(t.waves) + {id} == Moving(t.waves);
    }
  }

  /** A change of state keeps the count right if and only if it does not resume a wave that is
      not stopped; if it does the count is one more than it was. */
  lemma StateSetCountsExactly(t: Table, again: nat, id: nat, state: WaveState, how: SingleStepping)
    requires Counted(t, again) && id in t.waves && t.running.Some?
    ensures !t.waves[id].state.Stop? ==> t.running.value > 0
    ensures Counted(StateSet(t, id, state, how), again) <==> !RunsAgain(t, id, state, how)
    ensures RunsAgain(t, id, state, how) ==> Counted(StateSet(t, id, state, how), again + 1)
  {
    var w := t.waves[id];
    if !w.state.Stop? { MovingIsCounted(t, again, id); }
    if state != w.state {
      if state.SingleStep? && how.Ends? {
        EndingCounts(t, again, id, w);
      } else {
        var t1 := Put(t, id, w.(state := state));
        PutCountsExactly(t, again, id, w.(state := state));
        if state.SingleStep? && how.Simulated? {
          SimulatedCounts(t, again, t1, id, w);
        }
      }
    }
  }

  lemma EndingCounts(t: Table, again: nat, id: nat, w: Wave)
    requires Counted(t, again) && t.running.Some? && id in t.waves && t.waves[id] == w
    requires !w.state.SingleStep? && (!w.state.Stop? ==> t.running.value > 0)
    ensures Counted(StateSet(t, id, SingleStep, Ends), again)
  {
    if w.state.Run? {
      assert Moving(Kept(t, id, w.(visibility := Terminating)).waves) == Moving(t.waves);
    } else {
      PutCountsExactly(t, again, id, w.(state := Run, visibility := Terminating));
    }
  }

  /** A simulated instruction gives back what resuming the wave took. */
  lemma SimulatedCounts(t: Table, again: nat, t1: Table, id: nat, w: Wave)
    requires Counted(t, again) && t.running.Some? && id in t.waves && t.waves[id] == w
    requires t1 == Put(t, id, w.(state := SingleStep))
    ensures Counted(Put(t1, id, w.(state := Stop)), again) <==> w.state.Stop?
    ensures !w.state.Stop? ==> Counted(Put(t1, id, w.(state := Stop)), again + 1)
  {
    assert Moving(Put(t1, id, w.(state := Stop)).waves) == Moving(t.waves) - {id};
  }

  /** The wave after it is asked for a state: it has that state, unless it is ended, and then runs out
      of the client's sight, or its instruction is simulated, and then it is stopped. */
  lemma StateSetOutcome(t: Table, id: nat, state: WaveState, how: SingleStepping)
    requires id in t.waves && t.running.Some? && (!t.waves[id].state.Stop? ==> t.running.value > 0)
    ensures var w, t' := t.waves[id], StateSet(t, id, state, how);
      && t' == t.(waves := t'.waves, running := t'.running) && t'.waves.Keys == t.waves.Keys
      && (forall other :: other in t.waves && other != id ==> t'.waves[other] == t.waves[other])
      && var x := t'.waves[id];
         var stepped := state.SingleStep? && state != w.state;
         && x.mark == w.mark
         && (x.state.Stop? <==> state.Stop? || (stepped && how.Simulated?))
         && (x.state.SingleStep? <==> state.SingleStep? && (stepped ==> how.OnHardware?))
         && (x.visibility == if stepped && how.Ends? then Terminating else w.visibility)
  {
  }

  /** A queue whose one wave is single-stepping when the library detaches. */
  lemma DetachedWaveCountsTwice()
    ensures var t := Table(map[1 := Wave(SingleStep, Visible, 1)], Some(1), 2, 2);
      && Inv(t, 0) && Allowed(t, Asked(1, Run, OnHardware))
      && var r := StateSet(t, 1, Run, OnHardware);
         r.running == Some(2) && Moving(r.waves) == {1} && !Counted(r, 0)
  {
    var t := Table(map[1 := Wave(SingleStep, Visible, 1)], Some(1), 2, 2);
    assert Moving(t.waves) == {1};
    StateSetCountsExactly(t, 0, 1, Run, OnHardware);
  }

  /** Where an update stands: the count is the number of waves seen and not stopped. */
  ghost predicate Seen(t: Table, mark: nat) {
    && t.running.Some? && t.running.value == |MovingSeen(t.waves, mark)| && mark > 0 && t.nextMark == mark + 1
    && forall id :: id in t.waves ==> id < t.nextId && t.waves[id].mark <= mark
  }

  /** The waves of the records have not been seen yet. */
  ghost predicate Unseen(t: Table, records: seq<Record>, mark: nat, attaching: bool) {
    forall i :: 0 <= i < |records| && IsKnown(records[i], attaching) ==>
      records[i].id.value in t.waves && t.waves[records[i].id.value].mark < mark
  }

  lemma RecordCounts(t: Table, r: Record, mark: nat, attaching: bool)
    requires Seen(t, mark)
    requires IsKnown(r, attaching) ==> r.id.value in t.waves && t.waves[r.id.value].mark < mark
    ensures Seen(AfterRecord(t, r, mark, attaching), mark)
  {
    var id, w := IdOf(t, r, attaching), Updated(WaveOf(t, r, attaching), r, mark);
    var t' := AfterRecord(t, r, mark, attaching);
    assert id !in MovingSeen(t.waves, mark);
    assert MovingSeen(t'.waves, mark) == MovingSeen(t.waves, mark) + (if w.state.Stop? then {} else {id});
  }

  lemma {:induction false} RecordsCount(t: Table, records: seq<Record>, mark: nat, attaching: bool)
    requires Seen(t, mark) && RecordsOk(t, records, attaching) && Unseen(t, records, mark, attaching)
    ensures Seen(AfterRecords(t, records, mark, attaching), mark)
    decreases |records|
  {
    if records != [] {
      RecordCounts(t, records[0], mark, attaching);
      RestOk(t, records, mark, attaching);
      var next, rest := AfterRecord(t, records[0], mark, attaching), records[1..];
      forall i | 0 <= i < |rest| && IsKnown(rest[i], attaching)
        ensures rest[i].id.value in next.waves && next.waves[rest[i].id.value].mark < mark
      {
        assert rest[i] == records[i + 1];
      }
      RecordsCount(next, rest, mark, attaching);
    }
  }

  /** After an update the count is the number of the queue's waves that are not stopped, whatever
      the records are and however many waves come and go. */
  lemma UpdateCounts(t: Table, records: seq<Record>, attaching: bool)
    requires RecordsOk(t, records, attaching) && t.nextMark > 0
    requires forall id :: id in t.waves ==> id < t.nextId && t.waves[id].mark < t.nextMark
    ensures var t' := WavesUpdated(t, records, attaching);
      Inv(t', 0) && t'.running == Some(|Moving(t'.waves)|)
  {
    var mark, started := t.nextMark, t.(running := Some(0), nextMark := t.nextMark + 1);
    assert MovingSeen(started.waves, mark) == {};
    RecordsCount(started, records, mark, attaching);
    var done := AfterRecords(started, records, mark, attaching);
    assert Moving(Swept(done, mark).waves) == MovingSeen(done.waves, mark);
  }

  // ----- which waves there are after an update, record by record -----

  /** How many of the first `n` records are of new waves. */
  function NewAmong(records: seq<Record>, attaching: bool, n: nat): nat
    requires n <= |records|
  {
    if n == 0 then 0
    else NewAmong(records[1..], attaching, n - 1) + if !attaching && records[0].id.Some? then 0 else 1
  }

  /** The wave of record `i`: the one it names, or the next new one. */
  function IdAt(t: Table, records: seq<Record>, attaching: bool, i: nat): nat
    requires i < |records|
  {
    if !attaching && records[i].id.Some? then records[i].id.value else t.nextId + NewAmong(records, attaching, i)
  }

  /** The wave was halted where it begins when the library first saw it. */
  predicate FoundHalted(w: Wave, r: Record) {
    w.mark == 0 && w.state.Run? && !r.stopped && r.haltedAtEntry
  }

  /** `x` is the wave `w` as record `r` shows it. */
  predicate ShownBy(w: Wave, r: Record, mark: nat, x: Wave) {
    && x.mark == mark
    && (x.state.Stop? <==> w.state.Stop? || r.stopped || FoundHalted(w, r))
    && (!x.state.Stop? ==> x.state == w.state)
    && (FoundHalted(w, r) ==> x.visibility == HaltedAtLaunch)
    && (!FoundHalted(w, r) ==> x.visibility == w.visibility)
  }

  lemma {:induction false} NewAmongGrows(records: seq<Record>, attaching: bool, i: nat, j: nat)
    requires i < j <= |records|
    ensures NewAmong(records, attaching, i) + (if IsKnown(records[i], attaching) then 0 else 1) <= NewAmong(records, attaching, j)
  {
    if i > 0 { NewAmongGrows(records[1..], attaching, i - 1, j - 1); }
  }

  ghost predicate IdsBelow(t: Table) {
    forall id :: id in t.waves ==> id < t.nextId
  }

  lemma IdsDiffer(t: Table, records: seq<Record>, attaching: bool, i: nat, j: nat)
    requires IdsBelow(t) && RecordsOk(t, records, attaching) && i < j < |records|
    ensures IdAt(t, records, attaching, i) != IdAt(t, records, attaching, j)
  {
    NewAmongGrows(records, attaching, i, j);
  }

  /** The records after the first one name the same waves as before. */
  lemma IdAtNext(t: Table, records: seq<Record>, mark: nat, attaching: bool, i: nat)
    requires t.running.Some? && RecordsOk(t, records, attaching) && 0 < i < |records|
    ensures IsKnown(records[0], attaching) ==> records[0].id.value in t.waves
    ensures IdAt(AfterRecord(t, records[0], mark, attaching), records[1..], attaching, i - 1) == IdAt(t, records, attaching, i)
  {
  }

  /** Where the records of an update have got: each has its wave, and other waves are as before. */
  ghost predicate Shown(t: Table, records: seq<Record>, mark: nat, attaching: bool, t': Table)
    requires RecordsOk(t, records, attaching)
  {
    && t'.nextId == t.nextId + NewAmong(records, attaching, |records|) && t'.nextMark == t.nextMark
    && (forall i :: 0 <= i < |records| ==> ShownAt(t, records, mark, attaching, t', i))
    && (forall id :: id in t'.waves ==> id in t.waves || IsNamed(t, records, attaching, id))
    && forall id :: id in t.waves && !IsNamed(t, records, attaching, id) ==> id in t'.waves && t'.waves[id] == t.waves[id]
  }

  predicate ShownAt(t: Table, records: seq<Record>, mark: nat, attaching: bool, t': Table, i: nat)
    requires i < |records| && (!attaching && records[i].id.Some? ==> records[i].id.value in t.waves)
  {
    var id := IdAt(t, records, attaching, i);
    var was := if !attaching && records[i].id.Some? then t.waves[id] else Wave(Run, Visible, 0);
    id in t'.waves && ShownBy(was, records[i], mark, t'.waves[id])
  }

  ghost predicate IsNamed(t: Table, records: seq<Record>, attaching: bool, id: nat) {
    exists i :: 0 <= i < |records| && IdAt(t, records, attaching, i) == id
  }

  lemma RecordShows(t: Table, r: Record, mark: nat, attaching: bool)
    requires t.running.Some? && (IsKnown(r, attaching) ==> r.id.value in t.waves)
    ensures var t', id := AfterRecord(t, r, mark, attaching), IdOf(t, r, attaching);
      && t'.waves.Keys == t.waves.Keys + {id} && ShownBy(WaveOf(t, r, attaching), r, mark, t'.waves[id])
      && forall other :: other in t.waves && other != id ==> t'.waves[other] == t.waves[other]
  {
  }

  lemma NamedNext(t: Table, records: seq<Record>, mark: nat, attaching: bool, id: nat)
    requires t.running.Some? && IdsBelow(t) && RecordsOk(t, records, attaching) && records != []
    ensures IsKnown(records[0], attaching) ==> records[0].id.value in t.waves
    ensures var next := AfterRecord(t, records[0], mark, attaching);
      IsNamed(t, records, attaching, id) <==> id == IdAt(t, records, attaching, 0) || IsNamed(next, records[1..], attaching, id)
    ensures var next := AfterRecord(t, records[0], mark, attaching);
      id == IdAt(t, records, attaching, 0) ==> !IsNamed(next, records[1..], attaching, id)
  {
    assert records[0] in records;
    var next, rest := AfterRecord(t, records[0], mark, attaching), records[1..];
    forall i | 0 < i < |records|
      ensures IdAt(next, rest, attaching, i - 1) == IdAt(t, records, attaching, i) != IdAt(t, records, attaching, 0)
    {
      IdAtNext(t, records, mark, attaching, i);
      IdsDiffer(t, records, attaching, 0, i);
    }
    if IsNamed(next, rest, attaching, id) {
      var i :| 0 <= i < |rest| && IdAt(next, rest, attaching, i) == id;
      assert IdAt(t, records, attaching, i + 1) == id;
    }
    if IsNamed(t, records, attaching, id) {
      var i :| 0 <= i < |records| && IdAt(t, records, attaching, i) == id;
      if i > 0 { assert IdAt(next, rest, attaching, i - 1) == id; }
    }
  }

  lemma {:induction false} RecordsShow(t: Table, records: seq<Record>, mark: nat, attaching: bool)
    requires t.running.Some? && IdsBelow(t) && RecordsOk(t, records, attaching)
    ensures Shown(t, records, mark, attaching, AfterRecords(t, records, mark, attaching))
    decreases |records|
  {
    if records != [] {
      assert records[0] in records;
      RestOk(t, records, mark, attaching);
      var next, rest := AfterRecord(t, records[0], mark, attaching), records[1..];
      RecordShows(t, records[0], mark, attaching);
      RecordsShow(next, rest, mark, attaching);
      FirstThenRest(t, records, mark, attaching, AfterRecords(next, rest, mark, attaching));
    }
  }

  lemma FirstThenRest(t: Table, records: seq<Record>, mark: nat, attaching: bool, t': Table)
    requires t.running.Some? && IdsBelow(t) && RecordsOk(t, records, attaching) && records != []
    requires IsKnown(records[0], attaching) ==> records[0].id.value in t.waves
    requires RecordsOk(AfterRecord(t, records[0], mark, attaching), records[1..], attaching)
    requires Shown(AfterRecord(t, records[0], mark, attaching), records[1..], mark, attaching, t')
    ensures Shown(t, records, mark, attaching, t')
  {
    var next, rest := AfterRecord(t, records[0], mark, attaching), records[1..];
    RecordShows(t, records[0], mark, attaching);
    assert IdAt(t, records, attaching, 0) == IdOf(t, records[0], attaching);
    forall id
      ensures IsNamed(t, records, attaching, id) <==> id == IdAt(t, records, attaching, 0) || IsNamed(next, rest, attaching, id)
      ensures id == IdAt(t, records, attaching, 0) ==> !IsNamed(next, rest, attaching, id)
    {
      NamedNext(t, records, mark, attaching, id);
    }
    forall i | 0 <= i < |records|
      ensures ShownAt(t, records, mark, attaching, t', i)
    {
      if i > 0 {
        IdAtNext(t, records, mark, attaching, i);
        IdsDiffer(t, records, attaching, 0, i);
        assert ShownAt(next, rest, mark, attaching, t', i - 1);
        assert WaveOf(next, rest[i - 1], attaching) == WaveOf(t, records[i], attaching);
      }
    }
  }

  /** After an update the queue has exactly the waves of the records. The wave of a record is the one
      it names or a new one under an identifier not used before; it is stopped if and only if it
      was, or the record shows it stopped, or it is new and halted where it begins, and then it is
      hidden from the client. Waves without a record are gone. */
  lemma UpdateShows(t: Table, records: seq<Record>, attaching: bool)
    requires RecordsOk(t, records, attaching) && IdsBelow(t)
    requires forall id :: id in t.waves ==> t.waves[id].mark < t.nextMark
    ensures var t' := WavesUpdated(t, records, attaching);
      && (forall i :: 0 <= i < |records| ==> ShownAt(t, records, t.nextMark, attaching, t', i))
      && (forall id :: id in t'.waves <==> IsNamed(t, records, attaching, id))
      && |t'.waves| == |records| && t'.nextMark == t.nextMark + 1
      && t'.nextId == t.nextId + NewAmong(records, attaching, |records|)
    ensures forall i :: 0 <= i < |records| && !IsKnown(records[i], attaching) ==> IdAt(t, records, attaching, i) !in t.waves
  {
    var mark, started := t.nextMark, t.(running := Some(0), nextMark := t.nextMark + 1);
    RecordsShow(started, records, mark, attaching);
    SweepShows(t, started, records, mark, attaching, AfterRecords(started, records, mark, attaching));
    WavesAreCounted(t, WavesUpdated(t, records, attaching).waves, records, attaching);
  }

  lemma WavesAreCounted(t: Table, waves: map<nat, Wave>, records: seq<Record>, attaching: bool)
    requires RecordsOk(t, records, attaching) && IdsBelow(t)
    requires forall id :: id in waves <==> IsNamed(t, records, attaching, id)
    ensures |waves| == |records|
  {
    WaveEach(t, records, attaching, |records|);
    forall id
      ensures id in waves <==> id in NamedUpto(t, records, attaching, |records|)
    {
      InNamed(t, records, attaching, |records|, id);
      assert id in waves <==> IsNamed(t, records, attaching, id);
    }
    assert waves.Keys == NamedUpto(t, records, attaching, |records|);
  }

  /** The sweep leaves the waves of the records. */
  lemma SweepShows(t: Table, started: Table, records: seq<Record>, mark: nat, attaching: bool, done: Table)
    requires RecordsOk(t, records, attaching) && forall id :: id in t.waves ==> t.waves[id].mark < mark
    requires started.waves == t.waves && started.nextId == t.nextId && Shown(started, records, mark, attaching, done)
    ensures var t' := Swept(done, mark);
      && (forall i :: 0 <= i < |records| ==> ShownAt(t, records, mark, attaching, t', i))
      && forall id :: id in t'.waves <==> IsNamed(t, records, attaching, id)
  {
    var t' := Swept(done, mark);
    forall i | 0 <= i < |records|
      ensures IdAt(t, records, attaching, i) == IdAt(started, records, attaching, i)
      ensures ShownAt(t, records, mark, attaching, t', i)
    {
      assert ShownAt(started, records, mark, attaching, done, i);
    }
    forall id
      ensures id in t'.waves <==> IsNamed(t, records, attaching, id)
    {
      assert IsNamed(started, records, attaching, id) <==> IsNamed(t, records, attaching, id);
      if IsNamed(t, records, attaching, id) {
        var i :| 0 <= i < |records| && IdAt(t, records, attaching, i) == id;
        assert ShownAt(t, records, mark, attaching, t', i);
      }
    }
  }

  ghost function NamedUpto(t: Table, records: seq<Record>, attaching: bool, n: nat): set<nat>
    requires n <= |records|
  {
    if n == 0 then {} else NamedUpto(t, records, attaching, n - 1) + {IdAt(t, records, attaching, n - 1)}
  }

  lemma {:induction false} InNamed(t: Table, records: seq<Record>, attaching: bool, n: nat, id: nat)
    requires n <= |records|
    ensures id in NamedUpto(t, records, attaching, n) <==> exists i :: 0 <= i < n && IdAt(t, records, attaching, i) == id
  {
    if n > 0 { InNamed(t, records, attaching, n - 1, id); }
  }

  /** Every record has its own wave. */
  lemma {:induction false} WaveEach(t: Table, records: seq<Record>, attaching: bool, n: nat)
    requires RecordsOk(t, records, attaching) && IdsBelow(t) && n <= |records|
    ensures |NamedUpto(t, records, attaching, n)| == n
  {
    if n > 0 {
      WaveEach(t, records, attaching, n - 1);
      InNamed(t, records, attaching, n - 1, IdAt(t, records, attaching, n - 1));
      if i :| 0 <= i < n - 1 && IdAt(t, records, attaching, i) == IdAt(t, records, attaching, n - 1) {
        IdsDiffer(t, records, attaching, i, n - 1);
        assert false;
      }
    }
  }

  // ----- whole runs -----

  datatype Step =
    | Resumed
    | Suspended(records: seq<Record>, attaching: bool)
    | Asked(id: nat, state: WaveState, how: SingleStepping)
    | Shown(id: nat)

  /** States change only while the count is known. */
  ghost predicate Allowed(t: Table, step: Step) {
    match step
    case Resumed => true
    case Suspended(records, attaching) => RecordsOk(t, records, attaching)
    case Asked(id, _, _) => t.running.Some? && id in t.waves && (!t.waves[id].state.Stop? ==> t.running.value > 0)
    case Shown(id) => id in t.waves
  }

  ghost function Next(t: Table, step: Step): Table
    requires Allowed(t, step)
  {
    match step
    case Resumed => t.(running := None)
    case Suspended(records, attaching) => WavesUpdated(t, records, attaching)
    case Asked(id, state, how) => StateSet(t, id, state, how)
    case Shown(id) => t.(waves := t.waves[id := t.waves[id].(visibility := Visible)])
  }

  /** How much the count is too high after a step: an update sets it right. */
  ghost function AgainAfter(t: Table, again: nat, step: Step): nat
    requires Allowed(t, step)
  {
    match step
    case Resumed => 0
    case Suspended(_, _) => 0
    case Asked(id, state, how) => if RunsAgain(t, id, state, how) then again + 1 else again
    case Shown(_) => again
  }

  lemma StepCounts(t: Table, again: nat, step: Step)
    requires Inv(t, again) && Allowed(t, step)
    ensures Inv(Next(t, step), AgainAfter(t, again, step))
  {
    match step
    case Resumed =>
    case Suspended(records, attaching) => UpdateCounts(t, records, attaching);
    case Asked(id, state, how) => StateSetCountsExactly(t, again, id, state, how);
    case Shown(id) => assert Moving(Next(t, step).waves) == Moving(t.waves);
  }

  ghost predicate LegalRun(t: Table, steps: seq<Step>)
    decreases |steps|
  {
    steps == [] || (Allowed(t, steps[0]) && LegalRun(Next(t, steps[0]), steps[1..]))
  }

  ghost function RunOf(t: Table, steps: seq<Step>): Table
    requires LegalRun(t, steps)
    decreases |steps|
  {
    if steps == [] then t else RunOf(Next(t, steps[0]), steps[1..])
  }

  /** How often, since the last update, a wave was resumed that was not stopped. */
  ghost function Again(t: Table, again: nat, steps: seq<Step>): nat
    requires LegalRun(t, steps)
    decreases |steps|
  {
    if steps == [] then again else Again(Next(t, steps[0]), AgainAfter(t, again, steps[0]), steps[1..])
  }

  /** In every run the count, when it is known, is the number of waves not stopped, plus one for every
      time since the last update that a wave was resumed that was not stopped. Without such a time a
      queue counts as all-stopped if and only if new waves are halted, the count is known and every
      wave of the queue is stopped; with one it never does. */
  lemma {:induction false} EveryRunCounts(t: Table, again: nat, steps: seq<Step>, mode: LaunchMode, q: QueueView)
    requires Inv(t, again) && LegalRun(t, steps) && q.wavesRunning == RunOf(t, steps).running
    ensures var r, more := RunOf(t, steps), Again(t, again, steps);
      && (r.running.Some? ==> r.running.value == |Moving(r.waves)| + more)
      && (IsAllStopped(mode, q) <==>
            mode.LaunchHalt? && r.running.Some? && more == 0 && forall id :: id in r.waves ==> r.waves[id].state.Stop?)
    decreases |steps|
  {
    if steps == [] {
      if id :| id in t.waves && !t.waves[id].state.Stop? {
        assert id in Moving(t.waves);
      } else {
        assert Moving(t.waves) == {};
      }
    } else {
      StepCounts(t, again, steps[0]);
      EveryRunCounts(Next(t, steps[0]), AgainAfter(t, again, steps[0]), steps[1..], mode, q);
    }
  }

  // ----- the queue's waves, updated in place -----

  class WaveTable {
    var waves: map<nat, Wave>
    var running: Option<nat>
    var nextId: nat
    var nextMark: nat
    ghost var again: nat

    ghost function Abs(): Table
      reads this
    {
      Table(waves, running, nextId, nextMark)
    }

    constructor ()
      ensures Abs() == Table(map[], None, 1, 1) && Inv(Abs(), again)
    {
      again := 0;
      waves := map[];
      running := None;
      nextId := 1;
      nextMark := 1;
    }

    /** Tells the count of a wave's new state. */
    method WaveStateChanged(state: WaveState)
      requires running.Some? && (state.Stop? ==> running.value > 0)
      modifies this`running
      ensures running == Some(Changed(old(running).value, state))
    {
      running := Some(if state.Stop? then running.value - 1 else running.value + 1);
    }

    method ChangeState(id: nat, w: Wave)
      requires running.Some? && (w.state.Stop? ==> running.value > 0)
      modifies this`waves, this`running
      ensures Abs() == Put(old(Abs()), id, w)
    {
      waves := waves[id := w];
      WaveStateChanged(w.state);
    }

    /** Stops or resumes a wave; a terminating instruction ends it, and an instruction the library
        can execute stops it again at once. */
    method SetState(id: nat, state: WaveState, how: SingleStepping)
      requires Inv(Abs(), again) && Allowed(Abs(), Asked(id, state, how))
      modifies this
      ensures Abs() == Next(old(Abs()), Asked(id, state, how))
      ensures again == AgainAfter(old(Abs()), old(again), Asked(id, state, how)) && Inv(Abs(), again)
    {
      StepCounts(Abs(), again, Asked(id, state, how));
      again := AgainAfter(Abs(), again, Asked(id, state, how));
      var w := waves[id];
      if state == w.state { return; }
      if state.SingleStep? && how.Ends? {
        Terminate(id);
        return;
      }
      ChangeState(id, w.(state := state));
      if state.SingleStep? && how.Simulated? {
        ChangeState(id, w.(state := Stop));
      }
    }

    /** Makes the wave run, out of the client's sight, to its end. */
    method Terminate(id: nat)
      requires id in waves && running.Some? && !waves[id].state.SingleStep?
      requires !waves[id].state.Stop? ==> running.value > 0
      modifies this`waves, this`running
      ensures Abs() == StateSet(old(Abs()), id, SingleStep, Ends)
    {
      var w := waves[id].(visibility := Terminating);
      waves := waves[id := w];
      if w.state.Run? { return; }
      ChangeState(id, w.(state := Run));
    }

    /** Accounts for one record. A wave halted at launch is counted first and stopped then. */
    method ProcessRecord(r: Record, mark: nat, attaching: bool)
      requires running.Some? && (IsKnown(r, attaching) ==> r.id.value in waves)
      modifies this`waves, this`running, this`nextId
      ensures Abs() == AfterRecord(old(Abs()), r, mark, attaching)
    {
      var id, w;
      if !attaching && r.id.Some? {
        id := r.id.value;
        w := waves[id];
      } else {
        id, w := nextId, NEW;
        nextId := nextId + 1;
      }
      var isNew := w.mark == 0;
      if r.stopped { w := w.(state := Stop); }
      if !w.state.Stop? { running := Some(running.value + 1); }
      if isNew && w.state.Run? && r.haltedAtEntry {
        w := w.(visibility := HaltedAtLaunch, state := Stop);
        WaveStateChanged(Stop);
      }
      waves := waves[id := w.(mark := mark)];
    }

    /** Refreshes the waves from the save area of the queue, which has just been suspended. */
    method UpdateWaves(records: seq<Record>, attaching: bool)
      requires Inv(Abs(), again) && RecordsOk(Abs(), records, attaching)
      modifies this
      ensures old(RecordsOk(Abs(), records, attaching)) && Abs() == WavesUpdated(old(Abs()), records, attaching)
      ensures again == 0 && Inv(Abs(), again)
    {
      again := 0;
      UpdateCounts(Abs(), records, attaching);
      var mark := nextMark;
      nextMark := nextMark + 1;
      running := Some(0);
      ghost var started := Abs();
      var i := 0;
      while i < |records|
        invariant i <= |records| && running.Some? && again == 0 && RecordsOk(Abs(), records[i..], attaching)
        invariant AfterRecords(started, records, mark, attaching) == AfterRecords(Abs(), records[i..], mark, attaching)
      {
        assert records[i..][0] == records[i] && records[i..][1..] == records[i + 1..];
        RestOk(Abs(), records[i..], mark, attaching);
        ProcessRecord(records[i], mark, attaching);
        i := i + 1;
      }
      Sweep(mark);
    }

    /** Removes the waves not seen in the update `mark`. */
    method Sweep(mark: nat)
      modifies this`waves
      ensures Abs() == Swept(old(Abs()), mark)
    {
      ghost var before := waves;
      var rest := waves.Keys;
      while rest != {}
        invariant rest <= waves.Keys <= before.Keys
        invariant running == old(running) && nextId == old(nextId) && nextMark == old(nextMark)
        invariant forall id :: id in waves ==> waves[id] == before[id]
        invariant forall id :: id in before && id !in rest ==> (id in waves <==> before[id].mark >= mark)
        decreases |rest|
      {
        var id :| id in rest;
        if waves[id].mark < mark { waves := waves - {id}; }
        rest := rest - {id};
      }
      assert waves == Swept(old(Abs()), mark).waves;
    }
  }
}
