/** The steps of the protocol, and what every run of them keeps. */
module QueueProtocol {
  import opened Wrappers
  import opened FlatMemory
  import opened CacheSpec
  import opened QueueSpec
  import opened QueueNumbers

  // ----- the invariant, queue by queue -----

  /** A queue between steps. Reported suspended means suspended on the hardware. Reported
      running means running on the hardware, except for an all-stopped queue; when it really
      runs, no line of its save area is dirty. While the hardware holds a saved area, the
      library's clean lines agree with it. */
  ghost predicate Settled(mode: LaunchMode, c: CacheState, q: QueueView)
    requires WellFormed(c)
  {
    && (q.state.Suspended? ==> q.hwSuspended && q.wavesRunning.Some?)
    && (q.state.Running? && q.hwSuspended ==> IsAllStopped(mode, q))
    && (q.state.Running? && !q.hwSuspended ==> q.wavesRunning.None? && AreaClean(c, q.area))
    && (!q.state.Invalid? && q.hwSuspended ==> AreaCoherent(c, q.area))
  }

  /** The driver has suspended the queue, the library has not published it yet. */
  ghost predicate AboutToSuspend(c: CacheState, q: QueueView) {
    q.state.Running? && q.hwSuspended && q.wavesRunning.None? && AreaClean(c, q.area)
  }

  /** The library has published the queue as running, the driver has not resumed it yet. */
  ghost predicate AboutToResume(c: CacheState, q: QueueView)
    requires WellFormed(c) && AreaOk(q.area)
  {
    q.state.Running? && q.hwSuspended && q.wavesRunning.None? && AreaClean(c, q.area) && AreaCommitted(c, q.area)
  }

  ghost predicate Inv(p: ProcessView) {
    ProcessOk(p) && forall id :: id in p.queues ==> Settled(p.mode, p.cache, p.queues[id])
  }

  lemma SameLine(c: CacheState, d: CacheState, q: Area, l: nat)
    requires WellFormed(c) && WellFormed(d) && AreaOk(q) && AreaSame(c, d, q) && l in d.lines && InArea(q, l)
    requires l in c.lines && LineCoherent(c, l)
    ensures LineCoherent(d, l)
  {
    AlignedGap(l, q.base + q.size);
    assert c.lines[l] == d.lines[l];
    forall a: nat | l <= a < l + LINE_SIZE
      ensures c.memory[a] == d.memory[a]
    {
      assert InArea(q, a);
    }
    assert c.memory[l..l + LINE_SIZE] == d.memory[l..l + LINE_SIZE];
  }

  lemma SameAreaFacts(c: CacheState, d: CacheState, q: Area)
    requires WellFormed(c) && WellFormed(d) && AreaOk(q) && AreaSame(c, d, q)
    ensures AreaClean(c, q) <==> AreaClean(d, q)
    ensures AreaCoherent(c, q) ==> AreaCoherent(d, q)
    ensures AreaCommitted(c, q) ==> AreaCommitted(d, q)
  {
    if AreaCoherent(c, q) {
      forall l | l in d.lines && InArea(q, l)
        ensures LineCoherent(d, l)
      {
        SameLine(c, d, q, l);
      }
    }
    if AreaCommitted(c, q) {
      forall a: nat | InArea(q, a)
        ensures d.memory[a] == ByteAt(d, a)
      {
        AreaLines(q, a);
      }
    }
  }

  // ----- publishing a list of queues -----

  ghost predicate IsValid(p: ProcessView, id: QueueId) {
    id in p.queues && !p.queues[id].state.Invalid?
  }

  lemma PublishedIsOk(p: ProcessView, id: QueueId, state: QueueState, updates: WaveUpdates)
    requires ProcessOk(p) && UpdatesOk(p, updates) && IsValid(p, id)
    ensures AccessesOk(p.queues[id].area, UpdateFor(updates, id).accesses)
    ensures var r := SetState(p, id, state, UpdateFor(updates, id));
      && ProcessOk(r) && UpdatesOk(r, updates)
      && r.mode == p.mode && r.progressNeeded == p.progressNeeded && r.queues.Keys == p.queues.Keys
      && (forall i :: i in p.queues && i != id ==>
            r.queues[i] == p.queues[i] && AreaSame(p.cache, r.cache, p.queues[i].area))
      && forall i :: i in p.queues ==>
           r.queues[i].area == p.queues[i].area && r.queues[i].hwSuspended == p.queues[i].hwSuspended
  {
    SetStateIsLocal(p, id, state, UpdateFor(updates, id));
    SetStateKeepsArea(p, id, state, UpdateFor(updates, id));
  }

  lemma SetStateKeepsArea(p: ProcessView, id: QueueId, state: QueueState, update: WaveUpdate)
    requires ProcessOk(p) && id in p.queues && AccessesOk(p.queues[id].area, update.accesses)
    ensures var r := SetState(p, id, state, update);
      && r.mode == p.mode && r.progressNeeded == p.progressNeeded && id in r.queues
      && r.queues[id].area == p.queues[id].area && r.queues[id].hwSuspended == p.queues[id].hwSuspended
  {
  }

  ghost function PublishOne(p: ProcessView, id: QueueId, state: QueueState, updates: WaveUpdates): (r: ProcessView)
    requires ProcessOk(p) && UpdatesOk(p, updates)
    ensures ProcessOk(r) && UpdatesOk(r, updates)
    ensures r.mode == p.mode && r.progressNeeded == p.progressNeeded && r.queues.Keys == p.queues.Keys
    ensures forall i :: i in p.queues && i != id ==>
      r.queues[i] == p.queues[i] && AreaSame(p.cache, r.cache, p.queues[i].area)
    ensures forall i :: i in p.queues ==>
      r.queues[i].area == p.queues[i].area && r.queues[i].hwSuspended == p.queues[i].hwSuspended
  {
    if IsValid(p, id) then
      PublishedIsOk(p, id, state, updates);
      SetState(p, id, state, UpdateFor(updates, id))
    else p
  }

  /** Publishes `state` for the valid queues of `ids`, in order. */
  ghost function Publish(p: ProcessView, ids: seq<QueueId>, state: QueueState, updates: WaveUpdates): (r: ProcessView)
    requires ProcessOk(p) && UpdatesOk(p, updates)
    ensures ProcessOk(r) && UpdatesOk(r, updates)
    ensures r.mode == p.mode && r.progressNeeded == p.progressNeeded && r.queues.Keys == p.queues.Keys
    ensures forall i :: i in p.queues ==>
      r.queues[i].area == p.queues[i].area && r.queues[i].hwSuspended == p.queues[i].hwSuspended
    decreases |ids|
  {
    if ids == [] then p
    else Publish(PublishOne(p, ids[0], state, updates), ids[1..], state, updates)
  }

  /** No queue of the list meets a dirty line when its save area is discarded on suspend. */
  ghost predicate DiscardsAreSafe(p: ProcessView, ids: seq<QueueId>, updates: WaveUpdates)
    requires ProcessOk(p) && UpdatesOk(p, updates)
    decreases |ids|
  {
    ids == [] || (
      && (IsValid(p, ids[0]) && !p.queues[ids[0]].state.Suspended? && !IsAllStopped(p.mode, p.queues[ids[0]]) ==>
            AreaClean(p.cache, p.queues[ids[0]].area))
      && DiscardsAreSafe(PublishOne(p, ids[0], Suspended, updates), ids[1..], updates))
  }

  function ToSet(ids: seq<QueueId>): set<QueueId> {
    set id | id in ids
  }

  lemma ToSetAppend(ids: seq<QueueId>, id: QueueId)
    ensures ToSet(ids + [id]) == ToSet(ids) + {id}
    ensures Distinct(ids) && id !in ToSet(ids) ==> Distinct(ids + [id])
  {
    assert forall i :: i in ids + [id] <==> i in ids || i == id;
  }

  /** Publishing one queue leaves the standing of every other queue alone. */
  lemma OthersKept(p: ProcessView, id: QueueId, state: QueueState, updates: WaveUpdates)
    requires ProcessOk(p) && UpdatesOk(p, updates)
    ensures var r := PublishOne(p, id, state, updates);
      forall i :: i in p.queues && i != id ==>
        && (Settled(p.mode, p.cache, p.queues[i]) ==> Settled(r.mode, r.cache, r.queues[i]))
        && (AboutToSuspend(p.cache, p.queues[i]) ==> AboutToSuspend(r.cache, r.queues[i]))
        && (AboutToResume(p.cache, p.queues[i]) ==> AboutToResume(r.cache, r.queues[i]))
  {
    var r := PublishOne(p, id, state, updates);
    forall i | i in p.queues && i != id
      ensures AreaClean(p.cache, p.queues[i].area) <==> AreaClean(r.cache, r.queues[i].area)
      ensures AreaCoherent(p.cache, p.queues[i].area) ==> AreaCoherent(r.cache, r.queues[i].area)
      ensures AreaCommitted(p.cache, p.queues[i].area) ==> AreaCommitted(r.cache, r.queues[i].area)
    {
      SameAreaFacts(p.cache, r.cache, p.queues[i].area);
    }
  }

  lemma OneSuspended(p: ProcessView, id: QueueId, updates: WaveUpdates)
    requires ProcessOk(p) && UpdatesOk(p, updates) && id in p.queues
    requires AboutToSuspend(p.cache, p.queues[id])
          || (Settled(p.mode, p.cache, p.queues[id]) && (IsValid(p, id) ==> IsAllStopped(p.mode, p.queues[id])))
    ensures var r := PublishOne(p, id, Suspended, updates); Settled(r.mode, r.cache, r.queues[id])
  {
  }

  lemma {:induction false} PublishSuspended(p: ProcessView, ids: seq<QueueId>, pending: set<QueueId>, updates: WaveUpdates)
    requires ProcessOk(p) && UpdatesOk(p, updates) && Distinct(ids)
    requires pending <= ToSet(ids)
    requires forall id :: id in pending ==> id in p.queues && AboutToSuspend(p.cache, p.queues[id])
    requires forall id :: id in p.queues && id !in pending ==> Settled(p.mode, p.cache, p.queues[id])
    requires forall id :: id in ids && id !in pending && IsValid(p, id) ==> IsAllStopped(p.mode, p.queues[id])
    ensures Inv(Publish(p, ids, Suspended, updates))
    ensures DiscardsAreSafe(p, ids, updates)
    decreases |ids|
  {
    if ids != [] {
      var r := PublishOne(p, ids[0], Suspended, updates);
      OthersKept(p, ids[0], Suspended, updates);
      if ids[0] in p.queues { OneSuspended(p, ids[0], updates); }
      PublishSuspended(r, ids[1..], pending - {ids[0]}, updates);
    }
  }

  /** The queues of `ids` that need the driver: valid and not all-stopped. */
  ghost function NeedDriver(p: ProcessView, ids: seq<QueueId>): set<QueueId> {
    set id | id in ids && IsValid(p, id) && !IsAllStopped(p.mode, p.queues[id])
  }

  lemma OneRunning(p: ProcessView, id: QueueId, updates: WaveUpdates)
    requires ProcessOk(p) && UpdatesOk(p, updates) && id in p.queues && !p.queues[id].state.Running?
    requires Settled(p.mode, p.cache, p.queues[id])
    ensures var r := PublishOne(p, id, Running, updates);
      if id in NeedDriver(p, [id]) then AboutToResume(r.cache, r.queues[id])
      else Settled(r.mode, r.cache, r.queues[id])
  {
  }

  /** The queues of `driver` wait for the driver to resume them, the others are settled. */
  ghost predicate Awaiting(p: ProcessView, driver: set<QueueId>)
    requires ProcessOk(p)
  {
    forall id :: id in p.queues ==>
      if id in driver then AboutToResume(p.cache, p.queues[id]) else Settled(p.mode, p.cache, p.queues[id])
  }

  lemma NeedDriverRest(p: ProcessView, ids: seq<QueueId>, updates: WaveUpdates)
    requires ProcessOk(p) && UpdatesOk(p, updates) && Distinct(ids) && ids != []
    ensures NeedDriver(PublishOne(p, ids[0], Running, updates), ids[1..]) == NeedDriver(p, ids) - {ids[0]}
  {
    var r := PublishOne(p, ids[0], Running, updates);
    assert forall id :: id in ids[1..] <==> id in ids && id != ids[0];
  }

  lemma {:induction false} PublishRunning(p: ProcessView, ids: seq<QueueId>, published: set<QueueId>, updates: WaveUpdates)
    requires ProcessOk(p) && UpdatesOk(p, updates) && Distinct(ids)
    requires forall id :: id in ids ==> id in p.queues && !p.queues[id].state.Running? && id !in published
    requires Awaiting(p, published)
    ensures Awaiting(Publish(p, ids, Running, updates), published + NeedDriver(p, ids))
    decreases |ids|
  {
    if ids == [] {
      assert published + NeedDriver(p, ids) == published;
    } else {
      var id := ids[0];
      var r := PublishOne(p, id, Running, updates);
      var now := if id in NeedDriver(p, ids) then published + {id} else published;
      assert Awaiting(r, now) by {
        OthersKept(p, id, Running, updates);
        OneRunning(p, id, updates);
      }
      NeedDriverRest(p, ids, updates);
      assert published + NeedDriver(p, ids) == now + NeedDriver(r, ids[1..]);
      PublishRunning(r, ids[1..], now, updates);
    }
  }

  /** Publishing queues as running writes back what the library sees, and changes nothing of it. */
  lemma {:induction false} PublishRunningKeepsView(p: ProcessView, ids: seq<QueueId>, updates: WaveUpdates)
    requires ProcessOk(p) && UpdatesOk(p, updates)
    ensures View(Publish(p, ids, Running, updates).cache) == View(p.cache)
    decreases |ids|
  {
    if ids != [] {
      var r := PublishOne(p, ids[0], Running, updates);
      if ids[0] in p.queues {
        WriteBackKeepsView(p.cache, FirstLine(p.queues[ids[0]].area), LastLine(p.queues[ids[0]].area));
      }
      PublishRunningKeepsView(r, ids[1..], updates);
    }
  }

  // ----- the steps -----

  ghost function WithHardware(p: ProcessView, ids: set<QueueId>, suspended: bool): ProcessView {
    p.(queues := map id | id in p.queues ::
      if id in ids then p.queues[id].(hwSuspended := suspended) else p.queues[id])
  }

  ghost function Invalidated(p: ProcessView, ids: set<QueueId>): ProcessView {
    p.(queues := map id | id in p.queues ::
      if id in ids then p.queues[id].(state := Invalid) else p.queues[id])
  }

  ghost function OneInvalid(p: ProcessView, id: QueueId): ProcessView {
    if id in p.queues then p.(queues := p.queues[id := p.queues[id].(state := Invalid)]) else p
  }

  /** What the driver answers: the process is gone, or the request was served except for the
      queues whose numbers come back marked invalid. Suspending makes the hardware save each
      queue's state, so memory comes back changed. */
  datatype SuspendReply =
    | SuspendExited
    | SuspendServed(numbers: seq<nat>, memory: Bytes, updates: WaveUpdates)

  /** Resuming fails for the queues whose numbers come back marked; `resumed` counts the others. */
  datatype ResumeReply = ResumeExited | ResumeServed(numbers: seq<nat>, resumed: nat)

  /** The save areas that the hardware is not using. */
  ghost predicate HeldAreasKept(p: ProcessView, memory: Bytes)
    requires ProcessOk(p)
  {
    && |memory| == ADDRESS_SPACE
    && forall id :: id in p.queues && p.queues[id].hwSuspended && !p.queues[id].state.Invalid? ==>
         AreaSame(p.cache, p.cache.(memory := memory), p.queues[id].area)
  }

  ghost predicate SuspendAllowed(p: ProcessView, ids: seq<QueueId>, reply: SuspendReply) {
    && ProcessOk(p) && Distinct(ids)
    && (forall id :: id in ids ==> id in p.queues && !p.queues[id].state.Suspended?)
    && (reply.SuspendServed? ==> HeldAreasKept(p, reply.memory) && UpdatesOk(p, reply.updates) && AnswerTo(Asked(p, ids), reply.numbers))
  }

  /** After the driver has answered and before the queues are published. */
  ghost function DriverSuspended(p: ProcessView, ids: seq<QueueId>, reply: SuspendReply): ProcessView
    requires reply.SuspendServed?
  {
    var asked, marked := NeedDriver(p, ids), SuspendMarks(reply.numbers);
    Invalidated(WithHardware(p.(cache := p.cache.(memory := reply.memory)), asked - marked, true), asked * marked)
  }

  ghost function SuspendQueues(p: ProcessView, ids: seq<QueueId>, reply: SuspendReply): ProcessView
    requires SuspendAllowed(p, ids, reply)
  {
    if ids == [] then p
    else
      match reply
      case SuspendExited => Invalidated(p, ToSet(ids))
      case SuspendServed(_, _, updates) => Publish(DriverSuspended(p, ids, reply), ids, Suspended, updates)
  }

  ghost predicate ResumeAllowed(p: ProcessView, ids: seq<QueueId>) {
    ProcessOk(p) && Distinct(ids) && forall id :: id in ids ==> id in p.queues && !p.queues[id].state.Running?
  }

  ghost function ResumePublished(p: ProcessView, ids: seq<QueueId>): (r: ProcessView)
    requires ResumeAllowed(p, ids)
    ensures ProcessOk(r)
  {
    Publish(p, ids, Running, map[])
  }

  ghost function ResumeQueues(p: ProcessView, ids: seq<QueueId>, reply: ResumeReply): ProcessView
    requires ResumeAllowed(p, ids)
  {
    if ids == [] then p
    else
      match reply
      case ResumeExited => Invalidated(ResumePublished(p, ids), ToSet(ids))
      case ResumeServed(numbers, _) =>
        Invalidated(WithHardware(ResumePublished(p, ids), NeedDriver(p, ids), false), NeedDriver(p, ids) * ResumeMarks(numbers))
  }

  /** At the moment the driver is asked to resume them, the memory of every queue's save area
      holds exactly what the library sees there. */
  ghost predicate ResumesCommitted(p: ProcessView, ids: seq<QueueId>)
    requires ResumeAllowed(p, ids)
  {
    var r := ResumePublished(p, ids);
    forall id :: id in NeedDriver(p, ids) ==> AreaCommitted(r.cache, r.queues[id].area)
  }

  lemma DriverSuspendsOne(p: ProcessView, ids: seq<QueueId>, reply: SuspendReply, id: QueueId)
    requires Inv(p) && SuspendAllowed(p, ids, reply) && reply.SuspendServed? && id in p.queues
    ensures var d := DriverSuspended(p, ids, reply);
      && d.queues[id].area == p.queues[id].area && WellFormed(d.cache)
      && if id in NeedDriver(p, ids) - SuspendMarks(reply.numbers) then AboutToSuspend(d.cache, d.queues[id])
         else Settled(d.mode, d.cache, d.queues[id])
  {
    var d := DriverSuspended(p, ids, reply);
    var q := p.queues[id];
    assert Settled(p.mode, p.cache, q);
    assert AreaClean(p.cache, q.area) <==> AreaClean(d.cache, q.area);
    if q.hwSuspended && !q.state.Invalid? {
      SameAreaFacts(p.cache, d.cache, q.area);
    }
  }

  /** The driver's answer leaves each asked queue about to suspend and the others settled. */
  lemma DriverSuspends(p: ProcessView, ids: seq<QueueId>, reply: SuspendReply)
    requires Inv(p) && SuspendAllowed(p, ids, reply) && reply.SuspendServed?
    ensures var d := DriverSuspended(p, ids, reply);
      && ProcessOk(d) && UpdatesOk(d, reply.updates)
      && forall id :: id in p.queues ==>
           if id in NeedDriver(p, ids) - SuspendMarks(reply.numbers) then AboutToSuspend(d.cache, d.queues[id])
           else Settled(d.mode, d.cache, d.queues[id])
  {
    forall id | id in p.queues
      ensures var d := DriverSuspended(p, ids, reply);
        && d.queues[id].area == p.queues[id].area && WellFormed(d.cache)
        && if id in NeedDriver(p, ids) - SuspendMarks(reply.numbers) then AboutToSuspend(d.cache, d.queues[id])
           else Settled(d.mode, d.cache, d.queues[id])
    {
      DriverSuspendsOne(p, ids, reply, id);
    }
  }

  /** The queues a suspend leaves held: all valid ones except those the driver found invalid. */
  ghost function Held(p: ProcessView, ids: seq<QueueId>, reply: SuspendReply): set<QueueId> {
    match reply
    case SuspendExited => {}
    case SuspendServed(numbers, _, _) => ValidOf(p, ids) - NeedDriver(p, ids) * SuspendMarks(numbers)
  }

  ghost function ValidOf(p: ProcessView, ids: seq<QueueId>): set<QueueId> {
    set id | id in ids && IsValid(p, id)
  }

  lemma HeldCount(p: ProcessView, ids: seq<QueueId>, reply: SuspendReply)
    ensures ids == [] ==> Held(p, ids, reply) == {}
    ensures reply.SuspendServed? ==>
      |Held(p, ids, reply)| == |ValidOf(p, ids)| - |NeedDriver(p, ids) * SuspendMarks(reply.numbers)|
  {
    if reply.SuspendServed? {
      assert NeedDriver(p, ids) * SuspendMarks(reply.numbers) <= ValidOf(p, ids);
    }
  }

  /** The valid queues of a list that need the driver, in order, and the number of the valid
      ones that do not. */
  ghost function Asked(p: ProcessView, ids: seq<QueueId>): seq<QueueId> {
    if ids == [] then []
    else
      var rest := Asked(p, ids[..|ids| - 1]);
      var id := ids[|ids| - 1];
      if IsValid(p, id) && !IsAllStopped(p.mode, p.queues[id]) then rest + [id] else rest
  }

  ghost function StoppedCount(p: ProcessView, ids: seq<QueueId>): nat {
    if ids == [] then 0
    else
      var id := ids[|ids| - 1];
      StoppedCount(p, ids[..|ids| - 1]) + if IsValid(p, id) && IsAllStopped(p.mode, p.queues[id]) then 1 else 0
  }

  lemma {:induction false} AskedMembers(p: ProcessView, ids: seq<QueueId>)
    requires Distinct(ids)
    ensures Distinct(Asked(p, ids)) && forall id :: id in Asked(p, ids) <==> id in NeedDriver(p, ids)
  {
    if ids != [] {
      var front, last := ids[..|ids| - 1], ids[|ids| - 1];
      AskedMembers(p, front);
      assert ids == front + [last];
      assert NeedDriver(p, ids) == NeedDriver(p, front) + NeedDriver(p, [last]);
      assert last !in front;
      ToSetAppend(Asked(p, front), last);
    }
  }

  lemma {:induction false} AskedCount(p: ProcessView, ids: seq<QueueId>)
    requires Distinct(ids)
    ensures |Asked(p, ids)| + StoppedCount(p, ids) == |ValidOf(p, ids)|
  {
    if ids != [] {
      AskedCount(p, ids[..|ids| - 1]);
      ValidNext(p, ids);
    }
  }

  lemma ValidNext(p: ProcessView, ids: seq<QueueId>)
    requires Distinct(ids) && ids != []
    ensures var front, last := ids[..|ids| - 1], ids[|ids| - 1];
      |ValidOf(p, ids)| == |ValidOf(p, front)| + if IsValid(p, last) then 1 else 0
  {
    var front, last := ids[..|ids| - 1], ids[|ids| - 1];
    assert ids == front + [last];
    assert last !in ValidOf(p, front);
    assert ValidOf(p, ids) == ValidOf(p, front) + (if IsValid(p, last) then {last} else {});
  }

  lemma AskedFacts(p: ProcessView, ids: seq<QueueId>)
    requires Distinct(ids)
    ensures ToSet(Asked(p, ids)) == NeedDriver(p, ids) && Distinct(Asked(p, ids))
    ensures |Asked(p, ids)| + StoppedCount(p, ids) == |ValidOf(p, ids)|
  {
    AskedMembers(p, ids);
    AskedCount(p, ids);
  }

  /** Invalidating the queues of a list one after the other. */
  ghost function InvalidatedList(p: ProcessView, ids: seq<QueueId>): ProcessView {
    if ids == [] then p else OneInvalid(InvalidatedList(p, ids[..|ids| - 1]), ids[|ids| - 1])
  }

  lemma {:induction false} InvalidatedListFacts(p: ProcessView, ids: seq<QueueId>)
    ensures InvalidatedList(p, ids) == Invalidated(p, ToSet(ids))
  {
    if ids == [] {
      assert Invalidated(p, ToSet(ids)).queues == p.queues;
    } else {
      var front, id := ids[..|ids| - 1], ids[|ids| - 1];
      InvalidatedListFacts(p, front);
      assert ids == front + [id];
      ToSetAppend(front, id);
      InvalidatedMore(p, ToSet(front), id);
    }
  }

  /** The loop over an answer, number by number. */
  ghost function MarkedList(p: ProcessView, ids: seq<QueueId>, numbers: seq<nat>, unmasked: bool): ProcessView {
    if numbers == [] then p
    else
      var rest, number := MarkedList(p, ids, numbers[..|numbers| - 1], unmasked), numbers[|numbers| - 1];
      if IsHit(ids, number, unmasked) then OneInvalid(rest, Unmasked(number)) else rest
  }

  ghost function MarkCount(ids: seq<QueueId>, numbers: seq<nat>, unmasked: bool): nat {
    if numbers == [] then 0
    else
      MarkCount(ids, numbers[..|numbers| - 1], unmasked)
        + if IsHit(ids, numbers[|numbers| - 1], unmasked) then 1 else 0
  }

  lemma MarkedNext(p: ProcessView, ids: seq<QueueId>, numbers: seq<nat>, i: nat, unmasked: bool)
    requires i < |numbers|
    ensures var hit := IsHit(ids, numbers[i], unmasked);
      && MarkCount(ids, numbers[..i + 1], unmasked) == MarkCount(ids, numbers[..i], unmasked) + (if hit then 1 else 0)
      && var so := MarkedList(p, ids, numbers[..i], unmasked);
         MarkedList(p, ids, numbers[..i + 1], unmasked) == if hit then OneInvalid(so, Unmasked(numbers[i])) else so
  {
    assert numbers[..i + 1][..i] == numbers[..i];
  }

  predicate IsHit(ids: seq<QueueId>, number: nat, unmasked: bool) {
    HasInvalid(Tested(number, unmasked)) && Unmasked(number) in ids
  }

  lemma {:induction false} MarkedListFacts(p: ProcessView, ids: seq<QueueId>, numbers: seq<nat>, unmasked: bool)
    ensures MarkedList(p, ids, numbers, unmasked) == Invalidated(p, ToSet(ids) * Marks(numbers, unmasked))
    decreases |numbers|
  {
    if numbers == [] {
      InvalidatedNone(p);
    } else {
      var front, last := numbers[..|numbers| - 1], numbers[|numbers| - 1];
      MarkedListFacts(p, ids, front, unmasked);
      NextMark(ids, numbers, unmasked);
      InvalidatedMore(p, ToSet(ids) * Marks(front, unmasked), Unmasked(last));
    }
  }

  lemma NextMark(ids: seq<QueueId>, numbers: seq<nat>, unmasked: bool)
    requires numbers != []
    ensures var front, last := numbers[..|numbers| - 1], numbers[|numbers| - 1];
      ToSet(ids) * Marks(numbers, unmasked) ==
        if IsHit(ids, last, unmasked) then ToSet(ids) * Marks(front, unmasked) + {Unmasked(last)}
        else ToSet(ids) * Marks(front, unmasked)
  {
  }

  /** Of an answer to a request, every mark is a hit. */
  lemma {:induction false} MarkCountFacts(ids: seq<QueueId>, asked: seq<QueueId>, numbers: seq<nat>, unmasked: bool)
    requires AnswerTo(asked, numbers) && Distinct(asked) && forall id :: id in asked ==> id in ids
    ensures MarkCount(ids, numbers, unmasked) == |ToSet(ids) * Marks(numbers, unmasked)| == |Marks(numbers, unmasked)|
    ensures |Marks(numbers, unmasked)| <= |asked|
    decreases |numbers|
  {
    if numbers != [] {
      var n := |numbers| - 1;
      ShorterAnswer(asked, numbers);
      MarkCountFacts(ids, asked[..n], numbers[..n], unmasked);
      MarkedWereAsked(asked[..n], numbers[..n], unmasked);
      assert asked[n] !in asked[..n] && asked[n] in asked;
      NextMark(ids, numbers, unmasked);
    }
  }

  lemma InvalidatedMore(p: ProcessView, done: set<QueueId>, id: QueueId)
    ensures Invalidated(p, done + {id}) == OneInvalid(Invalidated(p, done), id)
  {
    var r := Invalidated(p, done);
    if id in p.queues {
      assert Invalidated(p, done + {id}).queues == r.queues[id := r.queues[id].(state := Invalid)];
    } else {
      assert Invalidated(p, done + {id}).queues == r.queues;
    }
  }

  lemma {:induction false} CountDistinct(ids: seq<QueueId>)
    requires Distinct(ids)
    ensures |ToSet(ids)| == |ids|
  {
    if ids != [] {
      var front, id := ids[..|ids| - 1], ids[|ids| - 1];
      CountDistinct(front);
      assert ids == front + [id];
      ToSetAppend(front, id);
      assert id !in front;
    }
  }

  lemma SuspendKeepsInv(p: ProcessView, ids: seq<QueueId>, reply: SuspendReply)
    requires Inv(p) && SuspendAllowed(p, ids, reply)
    ensures Inv(SuspendQueues(p, ids, reply))
    ensures reply.SuspendServed? ==>
      var d := DriverSuspended(p, ids, reply);
      ProcessOk(d) && UpdatesOk(d, reply.updates) && DiscardsAreSafe(d, ids, reply.updates)
  {
    if reply.SuspendServed? {
      DriverSuspends(p, ids, reply);
      PublishSuspended(DriverSuspended(p, ids, reply), ids, NeedDriver(p, ids) - SuspendMarks(reply.numbers), reply.updates);
    }
  }

  lemma InvalidatedKeeps(p: ProcessView, ids: set<QueueId>)
    requires ProcessOk(p)
    requires forall id :: id in p.queues && id !in ids ==> Settled(p.mode, p.cache, p.queues[id])
    ensures Inv(Invalidated(p, ids))
  {
  }

  /** At the moment the driver is asked to resume a queue, memory holds in its save area what the
      library saw there before the queues were published. */
  lemma ResumeCommitsView(p: ProcessView, ids: seq<QueueId>, id: QueueId, a: nat)
    requires Inv(p) && ResumeAllowed(p, ids) && id in NeedDriver(p, ids) && InArea(p.queues[id].area, a)
    ensures a < ADDRESS_SPACE && ResumePublished(p, ids).cache.memory[a] == View(p.cache)[a]
  {
    ResumeKeepsInv(p, ids, ResumeExited);
    PublishRunningKeepsView(p, ids, map[]);
    var r := ResumePublished(p, ids);
    assert AreaCommitted(r.cache, r.queues[id].area);
    assert View(r.cache)[a] == ByteAt(r.cache, a);
  }

  lemma ResumeKeepsInv(p: ProcessView, ids: seq<QueueId>, reply: ResumeReply)
    requires Inv(p) && ResumeAllowed(p, ids)
    ensures Inv(ResumeQueues(p, ids, reply))
    ensures ResumesCommitted(p, ids)
  {
    var r := ResumePublished(p, ids);
    assert Awaiting(r, NeedDriver(p, ids)) by {
      PublishRunning(p, ids, {}, map[]);
      assert {} + NeedDriver(p, ids) == NeedDriver(p, ids);
    }
    if ids != [] {
      match reply
      case ResumeExited => InvalidatedKeeps(r, ToSet(ids));
      case ResumeServed(numbers, _) =>
        DriverResumes(r, NeedDriver(p, ids));
        NothingMarked(WithHardware(r, NeedDriver(p, ids), false), NeedDriver(p, ids), numbers);
    }
  }

  lemma NothingMarked(p: ProcessView, asked: set<QueueId>, numbers: seq<nat>)
    ensures Invalidated(p, asked * ResumeMarks(numbers)) == p
  {
    ResumeMarksNothing(numbers);
    InvalidatedNone(p);
  }

  /** A queue the driver was asked to resume ends invalid if and only if the process has exited,
      whatever mark its number carries. */
  lemma ResumeMissesGone(p: ProcessView, ids: seq<QueueId>, reply: ResumeReply, id: QueueId)
    requires Inv(p) && ResumeAllowed(p, ids) && id in NeedDriver(p, ids)
    ensures var q := ResumeQueues(p, ids, reply).queues[id];
      (q.state.Invalid? <==> reply.ResumeExited?) && (q.state.Running? <==> reply.ResumeServed?)
  {
    PublishRunning(p, ids, {}, map[]);
    assert {} + NeedDriver(p, ids) == NeedDriver(p, ids);
    if reply.ResumeServed? {
      NothingMarked(WithHardware(ResumePublished(p, ids), NeedDriver(p, ids), false), NeedDriver(p, ids), reply.numbers);
    }
  }

  /** A resume leaves the queues as it would had it looked for marks where a suspend does, if and
      only if the answer has none. */
  lemma ResumeMarksExactly(p: ProcessView, ids: seq<QueueId>, numbers: seq<nat>, resumed: nat)
    requires Inv(p) && ResumeAllowed(p, ids) && AnswerTo(Asked(p, ids), numbers)
    ensures var r := ResumeQueues(p, ids, ResumeServed(numbers, resumed));
      Invalidated(r, NeedDriver(p, ids) * SuspendMarks(numbers)) == r <==> NoneMarked(numbers)
  {
    var marked := NeedDriver(p, ids) * SuspendMarks(numbers);
    MarkedWereNeeded(p, ids, numbers);
    forall id | id in marked
      ensures id in p.queues && ResumeQueues(p, ids, ResumeServed(numbers, resumed)).queues[id].state.Running?
    {
      ResumeMissesGone(p, ids, ResumeServed(numbers, resumed), id);
    }
    InvalidatedExactly(ResumeQueues(p, ids, ResumeServed(numbers, resumed)), marked);
  }

  lemma MarkedWereNeeded(p: ProcessView, ids: seq<QueueId>, numbers: seq<nat>)
    requires Distinct(ids) && AnswerTo(Asked(p, ids), numbers)
    ensures NeedDriver(p, ids) * SuspendMarks(numbers) == {} <==> NoneMarked(numbers)
  {
    ResumeMarksNothing(numbers);
    AskedFacts(p, ids);
    MarkedWereAsked(Asked(p, ids), numbers, false);
    if i :| 0 <= i < |numbers| && HasInvalid(numbers[i]) {
      MarkIsFound(numbers, i);
      assert Unmasked(numbers[i]) in ToSet(Asked(p, ids));
    }
  }

  lemma InvalidatedExactly(p: ProcessView, ids: set<QueueId>)
    requires forall id :: id in ids ==> id in p.queues && !p.queues[id].state.Invalid?
    ensures Invalidated(p, ids) == p <==> ids == {}
  {
    InvalidatedNone(p);
    if id :| id in ids {
      assert Invalidated(p, ids).queues[id].state.Invalid?;
    }
  }

  lemma InvalidatedNone(p: ProcessView)
    ensures Invalidated(p, {}) == p
  {
    assert Invalidated(p, {}).queues == p.queues;
  }

  lemma DriverResumes(r: ProcessView, driver: set<QueueId>)
    requires ProcessOk(r) && Awaiting(r, driver)
    ensures Inv(WithHardware(r, driver, false))
  {
  }
}
