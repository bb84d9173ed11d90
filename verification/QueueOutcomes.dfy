/** What the operations on queues leave behind, queue by queue: which are suspended, running or
    invalid, which the hardware holds, how many waves are known to run and which mode is in force. */
module QueueOutcomes {
  import opened Wrappers
  import opened FlatMemory
  import opened CacheSpec
  import opened QueueSpec
  import opened QueueNumbers
  import opened QueueProtocol
  import opened QueueRuns

  // ----- suspending -----

  ghost predicate SameSettings(p: ProcessView, r: ProcessView) {
    r.queues.Keys == p.queues.Keys && r.mode == p.mode && r.progressNeeded == p.progressNeeded
  }

  lemma SuspendKeepsSettings(p: ProcessView, ids: seq<QueueId>, reply: SuspendReply)
    requires Inv(p) && SuspendAllowed(p, ids, reply)
    ensures SameSettings(p, SuspendQueues(p, ids, reply))
  {
    if ids != [] && reply.SuspendServed? { DriverSuspends(p, ids, reply); }
  }

  lemma ResumeKeepsSettings(p: ProcessView, ids: seq<QueueId>, reply: ResumeReply)
    requires ResumeAllowed(p, ids)
    ensures SameSettings(p, ResumeQueues(p, ids, reply))
  {
  }

  /** A queue published as suspended: its waves are counted, unless it is all-stopped. */
  predicate IsSuspended(mode: LaunchMode, q: QueueView, update: WaveUpdate, r: QueueView) {
    && r.area == q.area && r.hwSuspended == q.hwSuspended
    && if IsAllStopped(mode, q) then r.state.Suspended? && r.wavesRunning == Some(0)
       else r.state == (if update.exited then Invalid else Suspended) && r.wavesRunning == Some(update.waves)
  }

  predicate SuspendedOnce(mode: LaunchMode, q: QueueView, listed: bool, update: WaveUpdate, r: QueueView) {
    if listed && !q.state.Invalid? then IsSuspended(mode, q, update, r) else r == q
  }

  lemma SuspendedFirst(p: ProcessView, first: QueueId, updates: WaveUpdates, id: QueueId)
    requires ProcessOk(p) && UpdatesOk(p, updates) && id in p.queues
    requires id == first ==> !p.queues[id].state.Suspended?
    ensures SuspendedOnce(p.mode, p.queues[id], id == first, UpdateFor(updates, id),
              PublishOne(p, first, Suspended, updates).queues[id])
  {
  }

  lemma {:induction false} SuspendedEach(p: ProcessView, ids: seq<QueueId>, updates: WaveUpdates, id: QueueId)
    requires ProcessOk(p) && UpdatesOk(p, updates) && Distinct(ids) && id in p.queues
    requires id in ids ==> !p.queues[id].state.Suspended?
    ensures SuspendedOnce(p.mode, p.queues[id], id in ids, UpdateFor(updates, id),
              Publish(p, ids, Suspended, updates).queues[id])
    decreases |ids|
  {
    if ids != [] {
      SuspendedFirst(p, ids[0], updates, id);
      assert id in ids <==> id == ids[0] || id in ids[1..];
      assert id == ids[0] ==> id !in ids[1..];
      SuspendedEach(PublishOne(p, ids[0], Suspended, updates), ids[1..], updates, id);
    }
  }

  /** The queue after a suspend the driver served: a valid queue that was asked for is held with its
      waves counted, or invalid if the driver marked it or the process was found dead. */
  predicate SuspendedFrom(mode: LaunchMode, q: QueueView, marked: bool, update: WaveUpdate, r: QueueView) {
    && r.area == q.area
    && if q.state.Invalid? then r == q
       else if IsAllStopped(mode, q) then r.state.Suspended? && r.hwSuspended && r.wavesRunning == Some(0)
       else if marked then r == q.(state := Invalid)
       else r.hwSuspended && r.state == (if update.exited then Invalid else Suspended) && r.wavesRunning == Some(update.waves)
  }

  /** The queue after a suspend, which asked for it or not. */
  predicate SuspendedIf(mode: LaunchMode, q: QueueView, listed: bool, reply: SuspendReply, id: QueueId, r: QueueView) {
    if !listed then r == q
    else
      match reply
      case SuspendExited => r == q.(state := Invalid)
      case SuspendServed(numbers, _, updates) =>
        SuspendedFrom(mode, q, id in SuspendMarks(numbers), if id in updates then updates[id] else WaveUpdate(0, [], false), r)
  }

  /** The queue once the driver has answered, before it is published. */
  predicate AnsweredFrom(mode: LaunchMode, q: QueueView, marked: bool, r: QueueView) {
    if q.state.Invalid? then r == q
    else if IsAllStopped(mode, q) then r == q && q.hwSuspended
    else if marked then r == q.(state := Invalid)
    else r == q.(hwSuspended := true)
  }

  lemma DriverOutcome(p: ProcessView, ids: seq<QueueId>, reply: SuspendReply, id: QueueId)
    requires Inv(p) && SuspendAllowed(p, ids, reply) && reply.SuspendServed? && id in p.queues
    ensures var r := DriverSuspended(p, ids, reply);
      && SameSettings(p, r)
      && if id in ids then AnsweredFrom(p.mode, p.queues[id], id in SuspendMarks(reply.numbers), r.queues[id])
         else r.queues[id] == p.queues[id]
  {
    assert Settled(p.mode, p.cache, p.queues[id]);
  }

  lemma PublishedFrom(mode: LaunchMode, q: QueueView, d: QueueView, reply: SuspendReply, id: QueueId, r: QueueView)
    requires reply.SuspendServed? && AnsweredFrom(mode, q, id in SuspendMarks(reply.numbers), d)
    requires if d.state.Invalid? then r == d else IsSuspended(mode, d, UpdateFor(reply.updates, id), r)
    ensures SuspendedIf(mode, q, true, reply, id, r)
  {
  }

  lemma SuspendOutcome(p: ProcessView, ids: seq<QueueId>, reply: SuspendReply, id: QueueId)
    requires Inv(p) && SuspendAllowed(p, ids, reply) && id in p.queues
    ensures var r := SuspendQueues(p, ids, reply);
      SameSettings(p, r) && SuspendedIf(p.mode, p.queues[id], id in ids, reply, id, r.queues[id])
  {
    if ids != [] && reply.SuspendServed? {
      DriverSuspends(p, ids, reply);
      var d := DriverSuspended(p, ids, reply);
      DriverOutcome(p, ids, reply, id);
      SuspendedEach(d, ids, reply.updates, id);
      if id in ids { PublishedFrom(p.mode, p.queues[id], d.queues[id], reply, id, Publish(d, ids, Suspended, reply.updates).queues[id]); }
    }
  }

  // ----- one wave of a suspended queue -----

  /** Stopping a wave takes one from the count of its queue and resuming one adds one; an access to
      registers changes neither. Other queues, and what else is known of this one, stay. */
  lemma WaveOutcome(p: ProcessView, id: QueueId, accesses: seq<AreaAccess>, i: QueueId)
    requires WaveAllowed(p, id, accesses) && i in p.queues
    ensures var q := p.queues[i];
      && (i != id ==> WaveResumed(p, id, accesses).queues[i] == q)
      && (i == id ==> WaveResumed(p, id, accesses).queues[i] == q.(wavesRunning := Some(q.wavesRunning.value + 1)))
      && (p.queues[id].wavesRunning.value > 0 ==>
            WaveStopped(p, id, accesses).queues[i] ==
              if i == id then q.(wavesRunning := Some(q.wavesRunning.value - 1)) else q)
  {
  }

  // ----- what the library sees of a queue just suspended -----

  /** Every byte that is touched is cached afterwards. */
  lemma TouchCovers(c: CacheState, q: Area, address: nat, size: nat, a: nat)
    requires WellFormed(c) && AreaOk(q) && AccessOk(q, Touch(address, size)) && address <= a < address + size
    ensures LineOf(a) in ApplyAccess(c, q, Touch(address, size)).lines
  {
    TouchedIsLocal(c, q, address, size);
    PrefetchCovers(c, LineOf(address), LineEnd(address + size), LineEnd(address + size) - LineOf(address), a);
  }

  /** The accesses made on flat memory. */
  ghost function Flat(m: Bytes, q: Area, accesses: seq<AreaAccess>): (r: Bytes)
    requires |m| == ADDRESS_SPACE && AreaOk(q) && AccessesOk(q, accesses)
    ensures |r| == ADDRESS_SPACE
    decreases |accesses|
  {
    if accesses == [] then m
    else
      assert AccessOk(q, accesses[0]);
      Flat(if accesses[0].Poke? then Patch(m, accesses[0].address, accesses[0].data) else m, q, accesses[1..])
  }

  /** The values two memories show at the addresses of an area. */
  ghost predicate SameIn(q: Area, m: Bytes, n: Bytes)
    requires AreaOk(q) && |m| == |n| == ADDRESS_SPACE
  {
    forall a: nat :: InArea(q, a) ==> m[a] == n[a]
  }

  lemma AccessShows(c: CacheState, q: Area, access: AreaAccess)
    requires WellFormed(c) && AreaOk(q) && AccessOk(q, access)
    ensures View(ApplyAccess(c, q, access)) == if access.Poke? then Patch(View(c), access.address, access.data) else View(c)
  {
    match access
    case Poke(address, data) => WriteIsPatch(c, address, data);
    case Touch(address, size) => if size > 0 { TouchShows(c, q, address, size); }
  }

  lemma TouchShows(c: CacheState, q: Area, address: nat, size: nat)
    requires WellFormed(c) && AreaOk(q) && AccessOk(q, Touch(address, size)) && size > 0
    ensures View(ApplyAccess(c, q, Touch(address, size))) == View(c)
  {
    TouchedIsLocal(c, q, address, size);
    PrefetchKeepsView(c, LineOf(address), LineEnd(address + size));
  }

  lemma {:induction false} AccessesShow(c: CacheState, m: Bytes, q: Area, accesses: seq<AreaAccess>)
    requires WellFormed(c) && |m| == ADDRESS_SPACE && AreaOk(q) && AccessesOk(q, accesses) && SameIn(q, View(c), m)
    ensures SameIn(q, View(ApplyAccesses(c, q, accesses)), Flat(m, q, accesses))
    decreases |accesses|
  {
    if accesses != [] {
      var access := accesses[0];
      assert AccessOk(q, access);
      AccessShows(c, q, access);
      AccessesShow(ApplyAccess(c, q, access), if access.Poke? then Patch(m, access.address, access.data) else m, q, accesses[1..]);
    }
  }

  lemma DiscardShows(c: CacheState, q: Area)
    requires WellFormed(c) && AreaOk(q)
    ensures WellFormed(Discard(c, FirstLine(q), LastLine(q)))
    ensures SameIn(q, View(Discard(c, FirstLine(q), LastLine(q))), c.memory)
  {
    DiscardIsLocal(c, q);
    forall a: nat | InArea(q, a)
      ensures ByteAt(Discard(c, FirstLine(q), LastLine(q)), a) == c.memory[a]
    {
      AreaLines(q, a);
    }
  }

  /** While the queues are published one by one, what is seen of each depends on its own part only. */
  lemma {:induction false} PublishShows(p: ProcessView, ids: seq<QueueId>, updates: WaveUpdates, id: QueueId)
    requires ProcessOk(p) && UpdatesOk(p, updates) && Distinct(ids)
    requires id in ids && id in p.queues && p.queues[id].state.Running? && !IsAllStopped(p.mode, p.queues[id])
    ensures AccessesOk(p.queues[id].area, UpdateFor(updates, id).accesses)
    ensures var q := p.queues[id].area;
      SameIn(q, View(Publish(p, ids, Suspended, updates).cache), Flat(p.cache.memory, q, UpdateFor(updates, id).accesses))
    decreases |ids|
  {
    var q, accesses, next := p.queues[id].area, UpdateFor(updates, id).accesses, PublishOne(p, ids[0], Suspended, updates);
    if id == ids[0] {
      DiscardShows(p.cache, q);
      AccessesShow(Discard(p.cache, FirstLine(q), LastLine(q)), p.cache.memory, q, accesses);
      OthersShow(next, ids[1..], updates, id);
    } else {
      PublishShows(next, ids[1..], updates, id);
      FlatLocal(p.cache.memory, next.cache.memory, q, accesses);
    }
  }

  lemma {:induction false} OthersShow(p: ProcessView, ids: seq<QueueId>, updates: WaveUpdates, id: QueueId)
    requires ProcessOk(p) && UpdatesOk(p, updates) && id !in ids && id in p.queues
    ensures SameIn(p.queues[id].area, View(Publish(p, ids, Suspended, updates).cache), View(p.cache))
    decreases |ids|
  {
    if ids != [] {
      var next := PublishOne(p, ids[0], Suspended, updates);
      SameAreaShows(p.cache, next.cache, p.queues[id].area);
      OthersShow(next, ids[1..], updates, id);
    }
  }

  lemma SameAreaShows(c: CacheState, d: CacheState, q: Area)
    requires WellFormed(c) && WellFormed(d) && AreaOk(q) && AreaSame(c, d, q)
    ensures SameIn(q, View(c), View(d)) && SameIn(q, c.memory, d.memory)
  {
    forall a: nat | InArea(q, a)
      ensures ByteAt(c, a) == ByteAt(d, a)
    {
      AreaLines(q, a);
    }
  }

  lemma {:induction false} FlatLocal(m: Bytes, n: Bytes, q: Area, accesses: seq<AreaAccess>)
    requires |m| == |n| == ADDRESS_SPACE && AreaOk(q) && AccessesOk(q, accesses) && SameIn(q, m, n)
    ensures SameIn(q, Flat(m, q, accesses), Flat(n, q, accesses))
    decreases |accesses|
  {
    if accesses != [] {
      var access := accesses[0];
      assert AccessOk(q, access);
      FlatLocal(if access.Poke? then Patch(m, access.address, access.data) else m,
                if access.Poke? then Patch(n, access.address, access.data) else n, q, accesses[1..]);
    }
  }

  /** After a suspend the library sees in the save area of a queue it has just suspended what the
      hardware has saved there, with the register writes made while decoding it, in order. */
  lemma SuspendShows(p: ProcessView, ids: seq<QueueId>, reply: SuspendReply, id: QueueId)
    requires Inv(p) && SuspendAllowed(p, ids, reply) && reply.SuspendServed?
    requires id in NeedDriver(p, ids) - SuspendMarks(reply.numbers)
    ensures AreaOk(p.queues[id].area) && AccessesOk(p.queues[id].area, UpdateFor(reply.updates, id).accesses)
    ensures WellFormed(SuspendQueues(p, ids, reply).cache)
    ensures var q := p.queues[id].area;
      SameIn(q, View(SuspendQueues(p, ids, reply).cache), Flat(reply.memory, q, UpdateFor(reply.updates, id).accesses))
  {
    DriverSuspends(p, ids, reply);
    PublishShows(DriverSuspended(p, ids, reply), ids, reply.updates, id);
  }

  /** Publishing an all-stopped queue, which is saved already, touches neither its cached lines nor
      its save area. */
  lemma {:induction false} StoppedIsLeftAlone(p: ProcessView, ids: seq<QueueId>, state: QueueState, updates: WaveUpdates, id: QueueId)
    requires ProcessOk(p) && UpdatesOk(p, updates) && id in p.queues && IsAllStopped(p.mode, p.queues[id])
    ensures AreaSame(p.cache, Publish(p, ids, state, updates).cache, p.queues[id].area)
    decreases |ids|
  {
    if ids != [] {
      var next := PublishOne(p, ids[0], state, updates);
      StoppedFirst(p, ids[0], state, updates, id);
      StoppedIsLeftAlone(next, ids[1..], state, updates, id);
    }
  }

  lemma StoppedFirst(p: ProcessView, first: QueueId, state: QueueState, updates: WaveUpdates, id: QueueId)
    requires ProcessOk(p) && UpdatesOk(p, updates) && id in p.queues && IsAllStopped(p.mode, p.queues[id])
    ensures var next := PublishOne(p, first, state, updates);
      && AreaSame(p.cache, next.cache, p.queues[id].area)
      && IsAllStopped(next.mode, next.queues[id]) && next.queues[id].area == p.queues[id].area
  {
  }

  // ----- resuming -----

  /** A queue published as running: the count of its waves means nothing any more, unless it is
      all-stopped. */
  predicate IsRunning(mode: LaunchMode, q: QueueView, r: QueueView) {
    && r.area == q.area && r.hwSuspended == q.hwSuspended && r.state.Running?
    && r.wavesRunning == if IsAllStopped(mode, q) then Some(0) else None
  }

  predicate RunningOnce(mode: LaunchMode, q: QueueView, listed: bool, r: QueueView) {
    if listed && !q.state.Invalid? then IsRunning(mode, q, r) else r == q
  }

  lemma RunningFirst(p: ProcessView, first: QueueId, id: QueueId)
    requires ProcessOk(p) && id in p.queues
    requires id == first ==> !p.queues[id].state.Running?
    ensures RunningOnce(p.mode, p.queues[id], id == first, PublishOne(p, first, Running, map[]).queues[id])
  {
  }

  lemma {:induction false} RunningEach(p: ProcessView, ids: seq<QueueId>, id: QueueId)
    requires ProcessOk(p) && Distinct(ids) && id in p.queues
    requires id in ids ==> !p.queues[id].state.Running?
    ensures RunningOnce(p.mode, p.queues[id], id in ids, Publish(p, ids, Running, map[]).queues[id])
    decreases |ids|
  {
    if ids != [] {
      RunningFirst(p, ids[0], id);
      assert id in ids <==> id == ids[0] || id in ids[1..];
      assert id == ids[0] ==> id !in ids[1..];
      RunningEach(PublishOne(p, ids[0], Running, map[]), ids[1..], id);
    }
  }

  /** The queue after a resume the driver served: a valid one runs, and on the hardware too unless it
      is all-stopped. */
  predicate ResumedFrom(mode: LaunchMode, q: QueueView, r: QueueView) {
    && r.area == q.area
    && (q.state.Invalid? ==> r == q)
    && (!q.state.Invalid? ==>
          && r.state.Running? && (r.hwSuspended <==> IsAllStopped(mode, q))
          && r.wavesRunning == if IsAllStopped(mode, q) then Some(0) else None)
  }

  lemma ResumeOutcome(p: ProcessView, ids: seq<QueueId>, reply: ResumeReply, id: QueueId)
    requires Inv(p) && ResumeAllowed(p, ids) && id in p.queues
    ensures var r, q := ResumeQueues(p, ids, reply), p.queues[id];
      && SameSettings(p, r)
      && if id !in ids then r.queues[id] == q
         else if reply.ResumeExited? then r.queues[id].state.Invalid?
         else ResumedFrom(p.mode, q, r.queues[id])
  {
    RunningEach(p, ids, id);
    assert Settled(p.mode, p.cache, p.queues[id]);
    if reply.ResumeServed? {
      NothingMarked(WithHardware(ResumePublished(p, ids), NeedDriver(p, ids), false), NeedDriver(p, ids), reply.numbers);
    }
  }

  // ----- the waves halted at launch -----

  /** How many of the waves belong to the queue. */
  function HiddenOf(hidden: HiddenWaves, id: QueueId): nat {
    if hidden == [] then 0 else HiddenOf(hidden[1..], id) + if hidden[0].0 == id then 1 else 0
  }

  lemma {:induction false} HiddenKeepsSettings(p: ProcessView, hidden: HiddenWaves)
    requires HiddenAllowed(p, hidden)
    ensures SameSettings(p, HiddenResumed(p, hidden))
    decreases |hidden|
  {
    if hidden != [] { HiddenKeepsSettings(WaveResumed(p, hidden[0].0, hidden[0].1), hidden[1..]); }
  }

  /** The queue after `n` of its waves have been released, for which it must be suspended. */
  predicate ReleasedFrom(q: QueueView, n: nat, r: QueueView) {
    if n == 0 then r == q
    else q.state.Suspended? && q.wavesRunning.Some? && r == q.(wavesRunning := Some(q.wavesRunning.value + n))
  }

  lemma OneReleased(p: ProcessView, id: QueueId, accesses: seq<AreaAccess>, i: QueueId)
    requires WaveAllowed(p, id, accesses) && i in p.queues
    ensures var r := WaveResumed(p, id, accesses);
      i in r.queues && ReleasedFrom(p.queues[i], if i == id then 1 else 0, r.queues[i])
  {
  }

  lemma HiddenNext(p: ProcessView, hidden: HiddenWaves)
    requires HiddenAllowed(p, hidden) && hidden != []
    ensures WaveAllowed(p, hidden[0].0, hidden[0].1)
    ensures var next := WaveResumed(p, hidden[0].0, hidden[0].1);
      HiddenAllowed(next, hidden[1..]) && HiddenResumed(p, hidden) == HiddenResumed(next, hidden[1..])
  {
  }

  lemma ReleasedTwice(q: QueueView, m: nat, s: QueueView, n: nat, r: QueueView, total: nat)
    requires ReleasedFrom(q, m, s) && ReleasedFrom(s, n, r) && total == n + m
    ensures ReleasedFrom(q, total, r)
  {
  }

  /** Releasing the waves halted at launch adds them to those that run in their queues. */
  lemma {:induction false} HiddenOutcome(p: ProcessView, hidden: HiddenWaves, id: QueueId)
    requires HiddenAllowed(p, hidden) && id in p.queues
    ensures id in HiddenResumed(p, hidden).queues
    ensures ReleasedFrom(p.queues[id], HiddenOf(hidden, id), HiddenResumed(p, hidden).queues[id])
    decreases |hidden|
  {
    if hidden != [] {
      HiddenNext(p, hidden);
      var next := WaveResumed(p, hidden[0].0, hidden[0].1);
      OneReleased(p, hidden[0].0, hidden[0].1, id);
      HiddenOutcome(next, hidden[1..], id);
      ReleasedTwice(p.queues[id], if id == hidden[0].0 then 1 else 0, next.queues[id], HiddenOf(hidden[1..], id),
        HiddenResumed(p, hidden).queues[id], HiddenOf(hidden, id));
    }
  }

  // ----- changing the launch mode and the progress setting -----

  /** The new mode is in force after every change, and the other settings stay. The queues are
      left alone unless halt mode is left with the runtime loaded. */
  lemma ModeIsInForce(p: ProcessView, mode: LaunchMode, loaded: bool, change: ModeChange)
    requires Inv(p) && ModeChangeAllowed(p, mode, loaded, change)
    ensures var r := SetLaunchMode(p, mode, loaded, change);
      && r.mode == mode && r.progressNeeded == p.progressNeeded && r.queues.Keys == p.queues.Keys
      && (mode == p.mode || !loaded || !p.mode.LaunchHalt? ==> r.queues == p.queues && r.cache == p.cache)
  {
    if loaded && p.mode.LaunchHalt? && mode != p.mode {
      ModeLeftKeepsInv(p, mode, change);
      var s := SuspendQueues(p, change.order, change.suspend);
      SuspendKeepsSettings(p, change.order, change.suspend);
      HiddenKeepsSettings(s, change.hidden);
      ResumeKeepsSettings(ModeLeft(p, mode, change), change.order, change.resume);
    }
  }

  /** Just before the queues are resumed. */
  predicate LeftFrom(q: QueueView, change: ModeChange, id: QueueId, r: QueueView) {
    var n := HiddenOf(change.hidden, id);
    if q.state.Suspended? then ReleasedFrom(q, n, r)
    else if GoneAtSuspend(q, change.suspend, id) then r.state.Invalid?
    else r.state.Suspended? && r.hwSuspended && r.wavesRunning == Some(SavedWaves(q, change.suspend, id) + n)
  }

  /** The queue, which was under launch mode halt, is invalid after the suspend: it was before, or it
      is not all-stopped and has been found gone. */
  predicate GoneAtSuspend(q: QueueView, reply: SuspendReply, id: QueueId) {
    || q.state.Invalid? || reply.SuspendExited?
    || (!IsAllStopped(LaunchHalt, q) && (id in SuspendMarks(reply.numbers) || UpdateFor(reply.updates, id).exited))
  }

  function SavedWaves(q: QueueView, reply: SuspendReply, id: QueueId): nat
    requires reply.SuspendServed?
  {
    if IsAllStopped(LaunchHalt, q) then 0 else UpdateFor(reply.updates, id).waves
  }

  lemma LeftOutcome(p: ProcessView, mode: LaunchMode, change: ModeChange, id: QueueId)
    requires Inv(p) && ModeChangeAllowed(p, mode, true, change) && p.mode.LaunchHalt? && mode != p.mode && id in p.queues
    ensures var r := ModeLeft(p, mode, change);
      r.mode == mode && r.queues.Keys == p.queues.Keys && LeftFrom(p.queues[id], change, id, r.queues[id])
  {
    var s := SuspendQueues(p, change.order, change.suspend);
    SuspendOutcome(p, change.order, change.suspend, id);
    HiddenKeepsSettings(s, change.hidden);
    HiddenOutcome(s, change.hidden, id);
    assert id in change.order <==> !p.queues[id].state.Suspended?;
    LeftIsBoth(p.queues[id], change, id, s.queues[id], HiddenResumed(s, change.hidden).queues[id]);
  }

  /** Suspended first, then its waves released. */
  lemma LeftIsBoth(q: QueueView, change: ModeChange, id: QueueId, s: QueueView, r: QueueView)
    requires ReleasedFrom(s, HiddenOf(change.hidden, id), r)
    requires SuspendedIf(LaunchHalt, q, !q.state.Suspended?, change.suspend, id, s)
    ensures LeftFrom(q, change, id, r)
  {
  }

  predicate ChangedFrom(progressNeeded: bool, q: QueueView, change: ModeChange, id: QueueId, r: QueueView) {
    if q.state.Suspended? || !progressNeeded then LeftFrom(q, change, id, r)
    else if GoneAtSuspend(q, change.suspend, id) || change.resume.ResumeExited? then r.state.Invalid?
    else r.state.Running? && !r.hwSuspended && r.wavesRunning.None?
  }

  /** A queue after launch mode halt has been left with the runtime loaded. One that was suspended
      stays so; any other that has not been found gone runs, in the library's books and on the
      hardware, if progress is needed, and otherwise is suspended with its released waves counted. */
  lemma ModeChangeOutcome(p: ProcessView, mode: LaunchMode, change: ModeChange, id: QueueId)
    requires Inv(p) && ModeChangeAllowed(p, mode, true, change) && p.mode.LaunchHalt? && mode != p.mode && id in p.queues
    ensures id in SetLaunchMode(p, mode, true, change).queues
    ensures ChangedFrom(p.progressNeeded, p.queues[id], change, id, SetLaunchMode(p, mode, true, change).queues[id])
  {
    LeftOutcome(p, mode, change, id);
    if p.progressNeeded {
      ModeLeftKeepsInv(p, mode, change);
      assert id in change.order <==> !p.queues[id].state.Suspended?;
      ResumeOutcome(ModeLeft(p, mode, change), change.order, change.resume, id);
    }
  }

  /** When progress becomes needed every suspended queue is published running, and the hardware runs
      it unless it is all-stopped; when it is not needed any more nothing but the setting changes. */
  lemma ProgressOutcome(p: ProcessView, needed: bool, order: seq<QueueId>, reply: ResumeReply, id: QueueId)
    requires Inv(p) && ProgressAllowed(p, needed, order) && id in p.queues
    ensures var q, r := p.queues[id], SetProgressNeeded(p, needed, order, reply);
      && r.progressNeeded == needed && r.mode == p.mode && r.queues.Keys == p.queues.Keys
      && if !q.state.Suspended? || !needed || p.progressNeeded then r.queues[id] == q
         else if reply.ResumeExited? then r.queues[id].state.Invalid?
         else ResumedFrom(p.mode, q, r.queues[id])
  {
    if needed && !p.progressNeeded {
      ResumeOutcome(p.(progressNeeded := true), order, reply, id);
    }
  }
}
