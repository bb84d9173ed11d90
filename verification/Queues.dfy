/** Queues and the process that suspends and resumes them, as objects updated in place. Every
    method is tied to the step of the same name in the protocol. */
module Queues {
  import opened Wrappers
  import opened FlatMemory
  import opened QueueSpec
  import opened QueueNumbers
  import opened QueueProtocol
  import opened QueueRuns
  import CacheSpec
  import opened MemoryCaches

  class Queue {
    const id: QueueId
    const area: Area
    var state: QueueState
    var wavesRunning: Option<nat>
    ghost var hwSuspended: bool

    ghost function View(): QueueView
      reads this
    {
      QueueView(state, wavesRunning, hwSuspended, area)
    }

    constructor (id: QueueId, area: Area)
      ensures this.id == id && View() == QueueView(Running, None, false, area)
    {
      this.id := id;
      this.area := area;
      state := Running;
      wavesRunning := None;
      hwSuspended := false;
    }

    method IsAllStopped(mode: LaunchMode) returns (stopped: bool)
      ensures stopped <==> QueueSpec.IsAllStopped(mode, View())
    {
      stopped := mode.LaunchHalt? && wavesRunning == Some(0);
    }

    /** One of the queue's waves has entered or left the stop state. */
    method WaveStateChanged(stopped: bool)
      requires wavesRunning.Some? && (stopped ==> wavesRunning.value > 0)
      modifies this`wavesRunning
      ensures wavesRunning == Some(if stopped then old(wavesRunning).value - 1 else old(wavesRunning).value + 1)
    {
      if stopped {
        wavesRunning := Some(wavesRunning.value - 1);
      } else {
        wavesRunning := Some(wavesRunning.value + 1);
      }
    }
  }

  class Process {
    var mode: LaunchMode
    var progressNeeded: bool
    var queues: map<QueueId, Queue>
    const cache: MemoryCache

    /** Every queue is filed under its own id, no save area reaches the very end of the
        address space, and memory transfers are complete. */
    ghost predicate Shape()
      reads this, queues.Values, cache, cache.backing
    {
      && cache.Valid() && cache.backing.reliable
      && (forall id :: id in queues ==> queues[id].id == id)
      && (forall id :: id in queues ==> queues[id].area.base + queues[id].area.size < ADDRESS_SPACE)
    }

    ghost predicate Valid()
      reads this, queues.Values, cache, cache.backing
    {
      Shape() && ProcessOk(Abs())
    }

    ghost function Abs(): ProcessView
      reads this, queues.Values, cache, cache.backing
    {
      ProcessView(mode, progressNeeded, map id | id in queues :: queues[id].View(), cache.Abs())
    }

    constructor (cache: MemoryCache, mode: LaunchMode, progressNeeded: bool)
      requires cache.Valid() && cache.backing.reliable
      ensures Valid() && this.cache == cache && queues == map[]
      ensures Inv(Abs())
    {
      this.cache := cache;
      this.mode := mode;
      this.progressNeeded := progressNeeded;
      queues := map[];
    }

    // ----- one queue -----

    /** Prefetches and register writes made while a saved area is decoded. */
    method AccessArea(area: Area, accesses: seq<AreaAccess>)
      requires cache.Valid() && cache.backing.reliable
      requires AreaOk(area) && area.base + area.size < ADDRESS_SPACE && AccessesOk(area, accesses)
      modifies cache, cache.backing
      ensures cache.Valid() && cache.Abs() == ApplyAccesses(old(cache.Abs()), area, accesses)
    {
      var i := 0;
      while i < |accesses|
        invariant 0 <= i <= |accesses| && cache.Valid()
        invariant ApplyAccesses(cache.Abs(), area, accesses[i..]) == ApplyAccesses(old(cache.Abs()), area, accesses)
      {
        assert AccessOk(area, accesses[i]);
        assert accesses[i..][0] == accesses[i] && accesses[i..][1..] == accesses[i + 1..];
        DoAccess(area, accesses[i]);
        i := i + 1;
      }
    }

    method DoAccess(area: Area, access: AreaAccess)
      requires cache.Valid() && cache.backing.reliable
      requires AreaOk(area) && area.base + area.size < ADDRESS_SPACE && AccessOk(area, access)
      modifies cache, cache.backing
      ensures cache.Valid() && cache.Abs() == ApplyAccess(old(cache.Abs()), area, access)
    {
      ghost var before := cache.Abs();
      match access {
        case Poke(address, data) =>
          WriteMemory(address, data);
          assert ApplyAccess(before, area, access) == CacheSpec.Write(before, address, data);
        case Touch(address, size) =>
          if size > 0 {
            TouchIsPrefetch(before, area, address, size);
            PrefetchMemory(address, size);
          }
      }
    }

    lemma TouchIsPrefetch(c: CacheSpec.CacheState, area: Area, address: nat, size: nat)
      requires CacheSpec.WellFormed(c) && AreaOk(area) && AccessOk(area, Touch(address, size)) && size > 0
      ensures CacheSpec.LineEnd(address + size) <= ADDRESS_SPACE
      ensures ApplyAccess(c, area, Touch(address, size)) == Touched(c, address, size)
    {
      TouchedIsLocal(c, area, address, size);
    }

    method WriteMemory(address: nat, data: Bytes)
      requires cache.Valid() && cache.backing.reliable && address + |data| < ADDRESS_SPACE
      modifies cache, cache.backing
      ensures cache.Valid() && cache.Abs() == CacheSpec.Write(old(cache.Abs()), address, data)
    {
      var _, _, _ := cache.Transfer(address, Write(data));
      assert data[..|data|] == data;
    }

    method PrefetchMemory(address: nat, size: nat)
      requires cache.Valid() && cache.backing.reliable
      requires size > 0 && CacheSpec.LineEnd(address + size) <= ADDRESS_SPACE
      modifies cache, cache.backing
      ensures cache.Valid()
      ensures cache.Abs() == Touched(old(cache.Abs()), address, size)
    {
      var _, _, _ := cache.Prefetch(address, size);
    }

    lemma AreaLineBounds(area: Area)
      requires AreaOk(area)
      ensures CacheSpec.LineOf(area.base) == FirstLine(area)
      ensures CacheSpec.LineOf(area.base + area.size - 1) == LastLine(area)
    {
      CacheSpec.LinesAlign(area.base, area.base);
    }

    method FlushArea(area: Area)
      requires cache.Valid() && cache.backing.reliable && AreaOk(area)
      modifies cache, cache.backing
      ensures cache.Valid()
      ensures cache.Abs() == CacheSpec.WriteBack(old(cache.Abs()), FirstLine(area), LastLine(area))
    {
      AreaLineBounds(area);
      var _, _ := cache.WriteBack(area.base, area.size);
    }

    method DropArea(area: Area)
      requires cache.Valid() && AreaOk(area) && AreaClean(cache.Abs(), area)
      modifies cache
      ensures cache.Valid()
      ensures cache.Abs() == CacheSpec.Discard(old(cache.Abs()), FirstLine(area), LastLine(area))
    {
      AreaLineBounds(area);
      AreaLinesAreClean(cache.Abs(), area);
      cache.Discard(area.base, area.size, false);
    }

    lemma AreaLinesAreClean(c: CacheSpec.CacheState, area: Area)
      requires CacheSpec.WellFormed(c) && AreaOk(area) && AreaClean(c, area)
      ensures CacheSpec.AllClean(c, FirstLine(area), LastLine(area))
    {
      forall l | l in c.lines && FirstLine(area) <= l <= LastLine(area)
        ensures InArea(area, l)
      {
        AreaLines(area, l);
      }
    }

    /** Acts on a queue's new state: a queue about to run has its dirty register lines written
        back, a suspended one has its stale lines dropped and its saved area decoded. */
    method QueueStateChanged(q: Queue, update: WaveUpdate)
      requires cache.Valid() && cache.backing.reliable
      requires AreaOk(q.area) && q.area.base + q.area.size < ADDRESS_SPACE && AccessesOk(q.area, update.accesses)
      requires q.state.Suspended? ==> AreaClean(cache.Abs(), q.area)
      modifies q`wavesRunning, q`state, cache, cache.backing
      ensures cache.Valid() && cache.Abs() == CacheAfterChange(old(cache.Abs()), q.area, old(q.state), update)
      ensures q.wavesRunning == match old(q.state) {
        case Running => None
        case Suspended => Some(update.waves)
        case Invalid => old(q.wavesRunning) }
      ensures q.state == if old(q.state).Suspended? && update.exited then Invalid else old(q.state)
    {
      match q.state {
        case Running =>
          q.wavesRunning := None;
          FlushArea(q.area);
        case Suspended =>
          DropArea(q.area);
          AccessArea(q.area, update.accesses);
          q.wavesRunning := Some(update.waves);
          if update.exited {
            q.state := Invalid;
          }
        case Invalid =>
      }
    }

    /** Gives `q` a new state and acts on it, unless the queue is all-stopped. */
    method ChangeState(q: Queue, state: QueueState, update: WaveUpdate)
      requires cache.Valid() && cache.backing.reliable
      requires AreaOk(q.area) && q.area.base + q.area.size < ADDRESS_SPACE && AccessesOk(q.area, update.accesses)
      requires state.Suspended? && !QueueSpec.IsAllStopped(mode, q.View()) ==> AreaClean(cache.Abs(), q.area)
      modifies q, cache, cache.backing
      ensures cache.Valid()
      ensures q.View() == QueueAfterChange(mode, old(q.View()), state, update)
      ensures cache.Abs() == if QueueSpec.IsAllStopped(mode, old(q.View())) then old(cache.Abs())
        else CacheAfterChange(old(cache.Abs()), q.area, state, update)
    {
      q.state := state;
      var stopped := q.IsAllStopped(mode);
      if !stopped {
        QueueStateChanged(q, update);
      }
    }

    method SetState(id: QueueId, state: QueueState, update: WaveUpdate)
      requires Valid() && id in queues && AccessesOk(queues[id].area, update.accesses)
      requires queues[id].state.Invalid? ==> state.Invalid?
      requires state.Suspended? && !queues[id].state.Suspended? && !QueueSpec.IsAllStopped(mode, queues[id].View()) ==>
        AreaClean(cache.Abs(), queues[id].area)
      modifies queues[id], cache, cache.backing
      ensures Abs() == QueueSpec.SetState(old(Abs()), id, state, update)
      ensures Valid()
    {
      ghost var before := Abs();
      AreaOfQueue(id);
      if queues[id].state != state {
        ChangeState(queues[id], state, update);
        OneQueueChanged(before.queues, id);
        SetStateIsLocal(before, id, state, update);
      }
    }

    lemma AreaOfQueue(id: QueueId)
      requires Valid() && id in queues
      ensures AreaOk(queues[id].area) && queues[id].area.base + queues[id].area.size < ADDRESS_SPACE
    {
      assert Abs().queues[id] == queues[id].View();
    }

    /** Only queue `id` has changed. */
    lemma OneQueueChanged(before: map<QueueId, QueueView>, id: QueueId)
      requires id in queues && before.Keys == queues.Keys
      requires forall i :: i in queues && i != id ==> queues[i].View() == before[i]
      ensures Abs().queues == before[id := queues[id].View()]
    {
    }

    // ----- suspending and resuming a list of queues -----

    /** The driver suspends or resumes queues on the hardware. */
    ghost method SetHardware(ids: set<QueueId>, suspended: bool)
      requires Shape()
      modifies queues.Values
      ensures Abs() == WithHardware(old(Abs()), ids, suspended)
      ensures Shape()
    {
      var held := set id | id in queues && id in ids :: queues[id];
      forall q | q in held {
        q.hwSuspended := suspended;
      }
      assert Abs().queues == WithHardware(old(Abs()), ids, suspended).queues;
    }

    lemma SetInvalidIs(p: ProcessView, id: QueueId)
      requires ProcessOk(p) && id in p.queues
      ensures QueueSpec.SetState(p, id, Invalid, WaveUpdate(0, [], false))
        == p.(queues := p.queues[id := p.queues[id].(state := Invalid)])
    {
      if p.queues[id].state.Invalid? {
        assert p.queues == p.queues[id := p.queues[id].(state := Invalid)];
      }
    }

    method SetInvalid(id: QueueId)
      requires Valid() && id in queues
      modifies queues[id], cache, cache.backing
      ensures Abs() == OneInvalid(old(Abs()), id)
      ensures Valid()
    {
      SetInvalidIs(Abs(), id);
      SetState(id, Invalid, WaveUpdate(0, [], false));
    }

    /** Marks the queues of `ids` invalid whose numbers carry the mark where the loop looks. */
    method InvalidateMarked(ids: seq<QueueId>, numbers: seq<nat>, unmasked: bool) returns (count: nat)
      requires Valid() && forall id :: id in ids ==> id in queues
      modifies queues.Values, cache, cache.backing
      ensures count == MarkCount(ids, numbers, unmasked)
      ensures Abs() == Invalidated(old(Abs()), ToSet(ids) * Marks(numbers, unmasked))
      ensures Valid()
    {
      count := 0;
      var i := 0;
      while i < |numbers|
        invariant 0 <= i <= |numbers| && Valid()
        invariant count == MarkCount(ids, numbers[..i], unmasked)
        invariant Abs() == MarkedList(old(Abs()), ids, numbers[..i], unmasked)
      {
        MarkedNext(old(Abs()), ids, numbers, i, unmasked);
        var hit := MarkOne(ids, numbers[i], unmasked);
        if hit { count := count + 1; }
        i := i + 1;
      }
      assert numbers[..i] == numbers;
      MarkedListFacts(old(Abs()), ids, numbers, unmasked);
    }

    /** Looks for the mark in one number. */
    method MarkOne(ids: seq<QueueId>, number: nat, unmasked: bool) returns (hit: bool)
      requires Valid() && forall id :: id in ids ==> id in queues
      modifies queues.Values, cache, cache.backing
      ensures hit <==> IsHit(ids, number, unmasked)
      ensures Abs() == if hit then OneInvalid(old(Abs()), Unmasked(number)) else old(Abs())
      ensures Valid()
    {
      var tested, id := Tested(number, unmasked), Unmasked(number);
      hit := HasInvalid(tested) && id in ids;
      if hit { SetInvalid(id); }
    }

    /** Publishes the valid queues of `ids` as suspended. */
    method PublishSuspended(ids: seq<QueueId>, updates: WaveUpdates)
      requires Valid() && UpdatesOk(Abs(), updates) && DiscardsAreSafe(Abs(), ids, updates)
      requires forall id :: id in ids ==> id in queues
      modifies queues.Values, cache, cache.backing
      ensures Abs() == Publish(old(Abs()), ids, Suspended, updates)
      ensures Valid()
    {
      var i := 0;
      while i < |ids|
        invariant 0 <= i <= |ids| && Valid()
        invariant UpdatesOk(Abs(), updates) && DiscardsAreSafe(Abs(), ids[i..], updates)
        invariant Publish(Abs(), ids[i..], Suspended, updates) == Publish(old(Abs()), ids, Suspended, updates)
      {
        assert ids[i..][0] == ids[i] && ids[i..][1..] == ids[i + 1..];
        PublishQueue(ids[i], Suspended, updates);
        i := i + 1;
      }
    }

    method PublishQueue(id: QueueId, state: QueueState, updates: WaveUpdates)
      requires Valid() && id in queues && UpdatesOk(Abs(), updates)
      requires (state.Suspended? && IsValid(Abs(), id) && !queues[id].state.Suspended?
        && !QueueSpec.IsAllStopped(mode, queues[id].View())) ==> AreaClean(cache.Abs(), queues[id].area)
      modifies queues[id], cache, cache.backing
      ensures Abs() == PublishOne(old(Abs()), id, state, updates)
      ensures Valid()
    {
      assert Abs().queues[id] == queues[id].View();
      if !queues[id].state.Invalid? {
        SetState(id, state, UpdateFor(updates, id));
      }
    }

    /** Suspends `ids`: all-stopped queues are already suspended and need no driver call. The
        count is that of the queues now held, not counting the ones found invalid. */
    method SuspendQueues(ids: seq<QueueId>, reply: SuspendReply) returns (count: nat)
      requires Valid() && Inv(Abs()) && SuspendAllowed(Abs(), ids, reply)
      modifies queues.Values, cache, cache.backing
      ensures Abs() == QueueProtocol.SuspendQueues(old(Abs()), ids, reply)
      ensures Valid()
      ensures count == |Held(old(Abs()), ids, reply)|
    {
      count := 0;
      if ids == [] {
        HeldCount(Abs(), ids, reply);
        return;
      }
      SuspendKeepsInv(Abs(), ids, reply);
      if reply.SuspendExited? {
        InvalidateAll(ids);
      } else {
        count := SuspendLive(ids, reply);
      }
    }

    lemma SuspendCounts(p: ProcessView, ids: seq<QueueId>, reply: SuspendReply)
      requires Distinct(ids) && reply.SuspendServed?
      ensures Distinct(Asked(p, ids)) && ToSet(Asked(p, ids)) == NeedDriver(p, ids)
      ensures |Asked(p, ids)| - |NeedDriver(p, ids) * SuspendMarks(reply.numbers)| + StoppedCount(p, ids) == |Held(p, ids, reply)|
    {
      AskedFacts(p, ids);
      HeldCount(p, ids, reply);
    }

    /** The suspend of a process that has not exited. */
    method SuspendLive(ids: seq<QueueId>, reply: SuspendReply) returns (count: nat)
      requires Valid() && SuspendAllowed(Abs(), ids, reply) && reply.SuspendServed?
      requires var d := DriverSuspended(Abs(), ids, reply);
        ProcessOk(d) && UpdatesOk(d, reply.updates) && DiscardsAreSafe(d, ids, reply.updates)
      modifies queues.Values, cache, cache.backing
      ensures ProcessOk(DriverSuspended(old(Abs()), ids, reply))
      ensures UpdatesOk(DriverSuspended(old(Abs()), ids, reply), reply.updates)
      ensures Abs() == Publish(DriverSuspended(old(Abs()), ids, reply), ids, Suspended, reply.updates)
      ensures Valid()
      ensures count == |Held(old(Abs()), ids, reply)|
    {
      count := DriverSuspends(ids, reply);
      PublishSuspended(ids, reply.updates);
    }

    method InvalidateAll(ids: seq<QueueId>)
      requires Valid() && forall id :: id in ids ==> id in queues
      modifies queues.Values, cache, cache.backing
      ensures Abs() == Invalidated(old(Abs()), ToSet(ids))
      ensures Valid()
    {
      var i := 0;
      while i < |ids|
        invariant 0 <= i <= |ids| && Valid()
        invariant Abs() == InvalidatedList(old(Abs()), ids[..i])
      {
        assert ids[..i + 1][..i] == ids[..i];
        SetInvalid(ids[i]);
        i := i + 1;
      }
      assert ids[..i] == ids;
      InvalidatedListFacts(old(Abs()), ids);
    }

    /** The driver call of a suspend, and the queues it reports as invalid; counts the others. */
    method DriverSuspends(ids: seq<QueueId>, reply: SuspendReply) returns (count: nat)
      requires Valid() && SuspendAllowed(Abs(), ids, reply) && reply.SuspendServed?
      modifies queues.Values, cache, cache.backing
      ensures count == |Held(old(Abs()), ids, reply)|
      ensures Abs() == DriverSuspended(old(Abs()), ids, reply)
      ensures Valid()
    {
      ghost var before := Abs();
      var asked: seq<QueueId>, allStopped := Classify(ids);
      assert Abs() == before;
      SuspendCounts(before, ids, reply);
      MarksCounted(asked, reply.numbers);
      HardwareSaved(before, NeedDriver(before, ids) - SuspendMarks(reply.numbers), reply.memory);
      HardwareSaves(NeedDriver(before, ids) - SuspendMarks(reply.numbers), reply.memory);
      forall id | id in asked
        ensures id in queues
      {
        assert id in ToSet(asked);
      }
      var invalid := InvalidateMarked(asked, reply.numbers, false);
      count := |asked| - invalid + allStopped;
    }

    lemma MarksCounted(asked: seq<QueueId>, numbers: seq<nat>)
      requires AnswerTo(asked, numbers) && Distinct(asked)
      ensures MarkCount(asked, numbers, false) == |ToSet(asked) * SuspendMarks(numbers)| <= |asked|
    {
      MarkCountFacts(asked, asked, numbers, false);
    }

    lemma HardwareSaved(p: ProcessView, served: set<QueueId>, memory: Bytes)
      requires ProcessOk(p) && |memory| == ADDRESS_SPACE
      ensures ProcessOk(WithHardware(p.(cache := p.cache.(memory := memory)), served, true))
    {
    }

    method HardwareSaves(ghost served: set<QueueId>, memory: Bytes)
      requires Shape() && |memory| == ADDRESS_SPACE
      modifies queues.Values, cache.backing
      ensures Abs() == WithHardware(old(Abs()).(cache := old(Abs()).cache.(memory := memory)), served, true)
      ensures Shape()
    {
      cache.backing.bytes := memory;
      assert Abs().queues == old(Abs()).queues;
      assert Abs() == old(Abs()).(cache := old(Abs()).cache.(memory := memory));
      SetHardware(served, true);
    }

    method Kind(id: QueueId) returns (valid: bool, stopped: bool)
      requires id in queues
      ensures valid <==> IsValid(Abs(), id)
      ensures stopped <==> QueueSpec.IsAllStopped(mode, Abs().queues[id])
    {
      valid := !queues[id].state.Invalid?;
      stopped := queues[id].IsAllStopped(mode);
    }

    /** Splits the valid queues of `ids` into those the driver must be asked about and the
        all-stopped ones, which are only counted. */
    method Classify(ids: seq<QueueId>) returns (asked: seq<QueueId>, allStopped: nat)
      requires Shape() && forall id :: id in ids ==> id in queues
      ensures asked == Asked(Abs(), ids) && allStopped == StoppedCount(Abs(), ids)
    {
      asked, allStopped := [], 0;
      ghost var p := Abs();
      var i := 0;
      while i < |ids|
        invariant 0 <= i <= |ids|
        invariant asked == Asked(p, ids[..i]) && allStopped == StoppedCount(p, ids[..i])
      {
        assert ids[..i + 1][..i] == ids[..i];
        var valid, stopped := Kind(ids[i]);
        if valid {
          if stopped {
            allStopped := allStopped + 1;
          } else {
            asked := asked + [ids[i]];
          }
        }
        i := i + 1;
      }
      assert ids[..i] == ids;
    }

    /** Resumes `ids`. Each queue is published first, so that its registers are written back
        while the hardware still holds it; all-stopped queues stay held. */
    method ResumeQueues(ids: seq<QueueId>, reply: ResumeReply) returns (count: nat)
      requires Valid() && Inv(Abs()) && ResumeAllowed(Abs(), ids)
      modifies queues.Values, cache, cache.backing
      ensures Abs() == QueueProtocol.ResumeQueues(old(Abs()), ids, reply)
      ensures Valid()
      ensures reply.ResumeExited? ==> count == 0
      ensures reply.ResumeServed? && ids != [] ==> count == reply.resumed + StoppedCount(old(Abs()), ids)
      ensures ids == [] ==> count == 0
    {
      ghost var before := Abs();
      AskedFacts(before, ids);
      count := 0;
      if ids == [] { return; }
      var asked: seq<QueueId>, allStopped := PublishRunning(ids);
      forall id | id in asked ensures id in queues { assert id in ToSet(Asked(before, ids)); }
      count := HandleReply(ids, reply, asked, allStopped);
    }

    /** Acts on the driver's answer to a request to resume the queues `asked`. */
    method HandleReply(ids: seq<QueueId>, reply: ResumeReply, asked: seq<QueueId>, allStopped: nat) returns (count: nat)
      requires Valid() && (forall id :: id in ids ==> id in queues) && forall id :: id in asked ==> id in queues
      modifies queues.Values, cache, cache.backing
      ensures Valid()
      ensures Abs() == if reply.ResumeExited? then Invalidated(old(Abs()), ToSet(ids))
        else Invalidated(WithHardware(old(Abs()), ToSet(asked), false), ToSet(asked) * ResumeMarks(reply.numbers))
      ensures count == if reply.ResumeExited? then 0 else reply.resumed + allStopped
    {
      match reply {
        case ResumeExited =>
          InvalidateAll(ids);
          count := 0;
        case ResumeServed(numbers, resumed) =>
          HardwareResumes(ToSet(asked));
          var _ := InvalidateMarked(asked, numbers, true);
          count := resumed + allStopped;
      }
    }

    /** The first `i` queues of `ids` have been published as running, and of those the driver
        must be asked about `asked`. */
    ghost predicate Resuming(before: ProcessView, p: ProcessView, ids: seq<QueueId>, i: nat,
      asked: seq<QueueId>, allStopped: nat)
      requires ProcessOk(before)
    {
      && i <= |ids| && ProcessOk(p) && UpdatesOk(p, map[])
      && p.queues.Keys == before.queues.Keys && p.mode == before.mode
      && (forall j :: i <= j < |ids| && ids[j] in p.queues ==> p.queues[ids[j]] == before.queues[ids[j]])
      && asked == Asked(before, ids[..i]) && allStopped == StoppedCount(before, ids[..i])
      && Publish(p, ids[i..], Running, map[]) == Publish(before, ids, Running, map[])
    }

    lemma ResumingNext(before: ProcessView, p: ProcessView, ids: seq<QueueId>, i: nat,
      asked: seq<QueueId>, allStopped: nat, valid: bool, stopped: bool)
      requires ProcessOk(before) && Distinct(ids) && i < |ids| && ids[i] in p.queues
      requires Resuming(before, p, ids, i, asked, allStopped)
      requires valid <==> IsValid(p, ids[i])
      requires stopped <==> QueueSpec.IsAllStopped(p.mode, p.queues[ids[i]])
      ensures Resuming(before, PublishOne(p, ids[i], Running, map[]), ids, i + 1,
        if valid && !stopped then asked + [ids[i]] else asked,
        if valid && stopped then allStopped + 1 else allStopped)
    {
      var id, r := ids[i], PublishOne(p, ids[i], Running, map[]);
      AskedNext(before, ids, i);
      assert ids[i..][0] == id && ids[i..][1..] == ids[i + 1..];
      PublishOneIsLocal(p, id);
      forall j | i + 1 <= j < |ids| && ids[j] in r.queues
        ensures r.queues[ids[j]] == before.queues[ids[j]]
      {
        assert ids[j] != id;
      }
    }

    lemma AskedNext(p: ProcessView, ids: seq<QueueId>, i: nat)
      requires i < |ids| && ids[i] in p.queues
      ensures var needed, stopped := IsValid(p, ids[i]), QueueSpec.IsAllStopped(p.mode, p.queues[ids[i]]);
        && Asked(p, ids[..i + 1]) == (if needed && !stopped then Asked(p, ids[..i]) + [ids[i]] else Asked(p, ids[..i]))
        && StoppedCount(p, ids[..i + 1]) == StoppedCount(p, ids[..i]) + if needed && stopped then 1 else 0
    {
      assert ids[..i + 1][..i] == ids[..i];
    }

    lemma PublishOneIsLocal(p: ProcessView, id: QueueId)
      requires ProcessOk(p) && UpdatesOk(p, map[]) && id in p.queues
      ensures var r := PublishOne(p, id, Running, map[]);
        && ProcessOk(r) && UpdatesOk(r, map[]) && r.queues.Keys == p.queues.Keys && r.mode == p.mode
        && forall k :: k in p.queues && k != id ==> r.queues[k] == p.queues[k]
    {
    }

    /** Publishes the valid queues of `ids` as running and lists those the driver must resume. */
    method PublishRunning(ids: seq<QueueId>) returns (asked: seq<QueueId>, allStopped: nat)
      requires Valid() && ResumeAllowed(Abs(), ids)
      modifies queues.Values, cache, cache.backing
      ensures asked == Asked(old(Abs()), ids) && allStopped == StoppedCount(old(Abs()), ids)
      ensures Abs() == ResumePublished(old(Abs()), ids)
      ensures Valid()
    {
      ghost var before := Abs();
      asked, allStopped := [], 0;
      ResumingStart(before, ids);
      var i := 0;
      while i < |ids|
        invariant 0 <= i <= |ids| && Valid()
        invariant Resuming(before, Abs(), ids, i, asked, allStopped)
      {
        asked, allStopped := PublishNext(before, ids, i, asked, allStopped);
        i := i + 1;
      }
      ResumingDone(before, Abs(), ids, asked, allStopped);
    }

    lemma ResumingStart(p: ProcessView, ids: seq<QueueId>)
      requires ResumeAllowed(p, ids)
      ensures Resuming(p, p, ids, 0, [], 0)
    {
      assert ids[0..] == ids;
    }

    lemma ResumingDone(before: ProcessView, p: ProcessView, ids: seq<QueueId>, asked: seq<QueueId>, allStopped: nat)
      requires ResumeAllowed(before, ids) && Resuming(before, p, ids, |ids|, asked, allStopped)
      ensures asked == Asked(before, ids) && allStopped == StoppedCount(before, ids) && p == ResumePublished(before, ids)
    {
      assert ids[..|ids|] == ids && ids[|ids|..] == [];
    }

    method PublishNext(ghost before: ProcessView, ids: seq<QueueId>, i: nat, asked: seq<QueueId>, allStopped: nat)
      returns (asked': seq<QueueId>, allStopped': nat)
      requires Valid() && ProcessOk(before) && Distinct(ids) && i < |ids| && ids[i] in queues
      requires Resuming(before, Abs(), ids, i, asked, allStopped)
      modifies queues.Values, cache, cache.backing
      ensures Valid()
      ensures Resuming(before, Abs(), ids, i + 1, asked', allStopped')
    {
      ghost var p := Abs();
      var valid, stopped := PublishOneRunning(ids[i]);
      ResumingNext(before, p, ids, i, asked, allStopped, valid, stopped);
      asked' := if valid && !stopped then asked + [ids[i]] else asked;
      allStopped' := if valid && stopped then allStopped + 1 else allStopped;
    }

    method PublishOneRunning(id: QueueId) returns (valid: bool, stopped: bool)
      requires Valid() && id in queues && UpdatesOk(Abs(), map[])
      modifies queues[id], cache, cache.backing
      ensures valid <==> IsValid(old(Abs()), id)
      ensures stopped <==> QueueSpec.IsAllStopped(mode, old(Abs()).queues[id])
      ensures Abs() == PublishOne(old(Abs()), id, Running, map[])
      ensures Valid()
    {
      valid, stopped := Kind(id);
      assert Abs() == old(Abs());
      PublishQueue(id, Running, map[]);
    }

    method HardwareResumes(ghost ids: set<QueueId>)
      requires Valid()
      modifies queues.Values
      ensures Abs() == WithHardware(old(Abs()), ids, false)
      ensures Valid()
    {
      SetHardware(ids, false);
    }

    // ----- the operations a client can reach -----

    /** The queues of the process that are, or are not, suspended. */
    method Collect(range: seq<QueueId>, suspended: bool) returns (ids: seq<QueueId>)
      requires Shape() && forall id :: id in range ==> id in queues
      ensures ids == Select(Abs().queues, range, suspended)
    {
      ids := [];
      ghost var p := Abs();
      var i := 0;
      while i < |range|
        invariant 0 <= i <= |range| && ids == Select(p.queues, range[..i], suspended)
      {
        assert range[..i + 1][..i] == range[..i];
        assert p.queues[range[i]] == queues[range[i]].View();
        if queues[range[i]].state.Suspended? == suspended {
          ids := ids + [range[i]];
        }
        i := i + 1;
      }
      assert range[..i] == range;
    }

    /** `range` lists the queues in the order the unordered map happens to deliver them. */
    method SetForwardProgressNeeded(needed: bool, range: seq<QueueId>, reply: ResumeReply)
      requires Valid() && Inv(Abs()) && Distinct(range) && ToSet(range) == queues.Keys
      modifies this`progressNeeded, queues.Values, cache, cache.backing
      ensures ProgressAllowed(old(Abs()), needed, Select(old(Abs()).queues, range, true))
      ensures Abs() == SetProgressNeeded(old(Abs()), needed, Select(old(Abs()).queues, range, true), reply)
      ensures Valid()
    {
      Listed(range);
      if progressNeeded != needed {
        ghost var before := Abs();
        StoreProgressNeeded(needed);
        assert Abs() == before.(progressNeeded := needed);
        if needed {
          ResumeSuspended(range, reply);
          assert Abs() == SetProgressNeeded(before, needed, Select(before.queues, range, true), reply);
        }
      }
    }

    method StoreProgressNeeded(needed: bool)
      requires Valid() && Inv(Abs())
      modifies this`progressNeeded
      ensures Abs() == old(Abs()).(progressNeeded := needed)
      ensures Valid() && Inv(Abs())
    {
      progressNeeded := needed;
      assert Abs().queues == old(Abs()).queues;
    }

    method ResumeSuspended(range: seq<QueueId>, reply: ResumeReply)
      requires Valid() && Inv(Abs()) && Distinct(range) && ToSet(range) == queues.Keys
      modifies queues.Values, cache, cache.backing
      ensures ResumeAllowed(old(Abs()), Select(old(Abs()).queues, range, true))
      ensures Abs() == QueueProtocol.ResumeQueues(old(Abs()), Select(old(Abs()).queues, range, true), reply)
      ensures Valid()
    {
      Listed(range);
      var ids := Collect(range, true);
      assert Abs() == old(Abs());
      var _ := ResumeQueues(ids, reply);
    }

    lemma Listed(range: seq<QueueId>)
      requires Valid() && Distinct(range) && ToSet(range) == queues.Keys
      ensures forall id :: id in range ==> id in queues
      ensures ListsTheSuspended(Abs(), Select(Abs().queues, range, true))
      ensures ListsTheNotSuspended(Abs(), Select(Abs().queues, range, false))
    {
      assert forall id :: id in range <==> id in ToSet(range);
    }

    /** Stops or resumes one wave of a suspended queue; its registers are written on the way. */
    method ChangeWave(id: QueueId, accesses: seq<AreaAccess>, stopped: bool, ghost waves: nat)
      requires Valid() && WaveAllowed(Abs(), id, accesses)
      requires stopped ==> Abs().queues[id].wavesRunning.value > 0
      requires waves == Abs().queues[id].wavesRunning.value + if stopped then -1 else 1
      modifies queues.Values, cache, cache.backing
      ensures Abs() == WavesChanged(old(Abs()), id, waves, accesses)
      ensures Valid()
    {
      ghost var before := Abs();
      assert before.queues[id] == queues[id].View();
      AreaOfQueue(id);
      WavesChangedOk(before, id, waves, accesses);
      AccessArea(queues[id].area, accesses);
      queues[id].WaveStateChanged(stopped);
      assert queues[id].View() == before.queues[id].(wavesRunning := Some(waves));
      OneQueueChanged(before.queues, id);
      assert Abs() == before.(queues := before.queues[id := queues[id].View()], cache := cache.Abs());
    }

    method StopWave(id: QueueId, accesses: seq<AreaAccess>)
      requires Valid() && WaveAllowed(Abs(), id, accesses) && Abs().queues[id].wavesRunning.value > 0
      modifies queues.Values, cache, cache.backing
      ensures Abs() == WaveStopped(old(Abs()), id, accesses)
      ensures Valid()
    {
      ChangeWave(id, accesses, true, Abs().queues[id].wavesRunning.value - 1);
    }

    method ResumeWave(id: QueueId, accesses: seq<AreaAccess>)
      requires Valid() && WaveAllowed(Abs(), id, accesses)
      modifies queues.Values, cache, cache.backing
      ensures Abs() == WaveResumed(old(Abs()), id, accesses)
      ensures Valid()
    {
      ChangeWave(id, accesses, false, Abs().queues[id].wavesRunning.value + 1);
    }

    lemma WavesChangedOk(p: ProcessView, id: QueueId, waves: nat, accesses: seq<AreaAccess>)
      requires WaveAllowed(p, id, accesses)
      ensures ProcessOk(WavesChanged(p, id, waves, accesses))
    {
      SameAreasOk(p, WavesChanged(p, id, waves, accesses));
    }

    /** Sets the waves halted at launch running. */
    method ResumeHidden(hidden: HiddenWaves)
      requires Valid() && HiddenAllowed(Abs(), hidden)
      modifies queues.Values, cache, cache.backing
      ensures Abs() == HiddenResumed(old(Abs()), hidden)
      ensures Valid()
    {
      var i := 0;
      assert hidden[0..] == hidden;
      while i < |hidden|
        invariant 0 <= i <= |hidden| && Valid() && HiddenAllowed(Abs(), hidden[i..])
        invariant HiddenResumed(Abs(), hidden[i..]) == HiddenResumed(old(Abs()), hidden)
      {
        assert hidden[i..][0] == hidden[i] && hidden[i..][1..] == hidden[i + 1..];
        ResumeWave(hidden[i].0, hidden[i].1);
        i := i + 1;
      }
    }

    method StoreMode(newMode: LaunchMode)
      requires Valid()
      modifies this`mode
      ensures Abs() == old(Abs()).(mode := newMode)
      ensures Valid()
    {
      mode := newMode;
      assert Abs().queues == old(Abs()).queues;
    }

    /** Changes the launch mode. Leaving halt mode suspends every queue, releases the waves
        halted at launch and only then stores the new mode, so that no queue is all-stopped
        when they are resumed. */
    method SetWaveLaunchMode(newMode: LaunchMode, loaded: bool, range: seq<QueueId>, ghost change: ModeChange,
      suspend: SuspendReply, hidden: HiddenWaves, resume: ResumeReply)
      requires Valid() && Inv(Abs()) && Distinct(range) && ToSet(range) == queues.Keys
      requires change == ModeChange(Select(Abs().queues, range, false), suspend, hidden, resume)
      requires ModeChangeAllowed(Abs(), newMode, loaded, change)
      modifies this`mode, queues.Values, cache, cache.backing
      ensures Abs() == SetLaunchMode(old(Abs()), newMode, loaded, change)
      ensures Valid()
    {
      if mode == newMode {
        return;
      }
      Listed(range);
      if loaded && mode.LaunchHalt? {
        var ids := LeaveHaltMode(newMode, range, change, suspend, hidden);
        if progressNeeded {
          ModeLeftKeepsInv(old(Abs()), newMode, change);
          var _ := ResumeQueues(ids, resume);
        }
      } else {
        StoreMode(newMode);
      }
    }

    method LeaveHaltMode(newMode: LaunchMode, range: seq<QueueId>, ghost change: ModeChange,
      suspend: SuspendReply, hidden: HiddenWaves) returns (ids: seq<QueueId>)
      requires Valid() && Inv(Abs()) && forall id :: id in range ==> id in queues
      requires change.order == Select(Abs().queues, range, false)
      requires change.suspend == suspend && change.hidden == hidden
      requires ModeChangeAllowed(Abs(), newMode, true, change) && mode.LaunchHalt? && newMode != mode
      modifies this`mode, queues.Values, cache, cache.backing
      ensures ids == change.order
      ensures Abs() == ModeLeft(old(Abs()), newMode, change)
      ensures Valid()
    {
      ids := SuspendRest(range, suspend);
      ResumeHidden(hidden);
      StoreMode(newMode);
    }

    /** Suspends every queue that is not suspended yet. */
    method SuspendRest(range: seq<QueueId>, suspend: SuspendReply) returns (ids: seq<QueueId>)
      requires Valid() && Inv(Abs()) && forall id :: id in range ==> id in queues
      requires SuspendAllowed(Abs(), Select(Abs().queues, range, false), suspend)
      modifies queues.Values, cache, cache.backing
      ensures ids == Select(old(Abs()).queues, range, false)
      ensures Abs() == QueueProtocol.SuspendQueues(old(Abs()), ids, suspend)
      ensures Valid()
    {
      ids := Collect(range, false);
      assert Abs() == old(Abs());
      var _ := SuspendQueues(ids, suspend);
    }
  }
}
