/** The client-visible operations built on suspend and resume, and the safety of every run. */
module QueueRuns {
  import opened Wrappers
  import opened FlatMemory
  import opened CacheSpec
  import opened QueueSpec
  import opened QueueNumbers
  import opened QueueProtocol

  // ----- operations on a suspended queue's waves -----

  ghost predicate WaveAllowed(p: ProcessView, id: QueueId, accesses: seq<AreaAccess>) {
    && ProcessOk(p) && id in p.queues && p.queues[id].state.Suspended? && p.queues[id].wavesRunning.Some?
    && AccessesOk(p.queues[id].area, accesses)
  }

  /** Wave registers of the queue are accessed and `waves` of its waves are now running. */
  ghost function WavesChanged(p: ProcessView, id: QueueId, waves: nat, accesses: seq<AreaAccess>): ProcessView
    requires WaveAllowed(p, id, accesses)
  {
    p.(queues := p.queues[id := p.queues[id].(wavesRunning := Some(waves))],
       cache := ApplyAccesses(p.cache, p.queues[id].area, accesses))
  }

  ghost function WaveResumed(p: ProcessView, id: QueueId, accesses: seq<AreaAccess>): ProcessView
    requires WaveAllowed(p, id, accesses)
  {
    WavesChanged(p, id, p.queues[id].wavesRunning.value + 1, accesses)
  }

  ghost function WaveStopped(p: ProcessView, id: QueueId, accesses: seq<AreaAccess>): ProcessView
    requires WaveAllowed(p, id, accesses) && p.queues[id].wavesRunning.value > 0
  {
    WavesChanged(p, id, p.queues[id].wavesRunning.value - 1, accesses)
  }

  lemma WavesChangedKeepsInv(p: ProcessView, id: QueueId, waves: nat, accesses: seq<AreaAccess>)
    requires Inv(p) && WaveAllowed(p, id, accesses)
    ensures Inv(WavesChanged(p, id, waves, accesses))
  {
    var r := WavesChanged(p, id, waves, accesses);
    forall i | i in p.queues && i != id
      ensures Settled(r.mode, r.cache, r.queues[i])
    {
      assert Disjoint(p.queues[id].area, p.queues[i].area);
      OutsideIsSame(p.cache, r.cache, p.queues[id].area, p.queues[i].area);
      SameAreaFacts(p.cache, r.cache, p.queues[i].area);
    }
  }

  /** Each wave halted at launch is set running again; `hidden` lists their queues and the
      register accesses that takes. */
  type HiddenWaves = seq<(QueueId, seq<AreaAccess>)>

  ghost predicate HiddenAllowed(p: ProcessView, hidden: HiddenWaves)
    decreases |hidden|
  {
    hidden == [] || (
      && WaveAllowed(p, hidden[0].0, hidden[0].1)
      && HiddenAllowed(WaveResumed(p, hidden[0].0, hidden[0].1), hidden[1..]))
  }

  ghost function HiddenResumed(p: ProcessView, hidden: HiddenWaves): ProcessView
    requires HiddenAllowed(p, hidden)
    decreases |hidden|
  {
    if hidden == [] then p else HiddenResumed(WaveResumed(p, hidden[0].0, hidden[0].1), hidden[1..])
  }

  ghost predicate NoneRunning(p: ProcessView) {
    forall id :: id in p.queues ==> !p.queues[id].state.Running?
  }

  lemma {:induction false} HiddenKeepsInv(p: ProcessView, hidden: HiddenWaves)
    requires Inv(p) && HiddenAllowed(p, hidden) && NoneRunning(p)
    ensures var r := HiddenResumed(p, hidden);
      Inv(r) && NoneRunning(r) && r.queues.Keys == p.queues.Keys && r.progressNeeded == p.progressNeeded
    decreases |hidden|
  {
    if hidden != [] {
      OneHiddenKeepsInv(p, hidden[0].0, hidden[0].1);
      HiddenKeepsInv(WaveResumed(p, hidden[0].0, hidden[0].1), hidden[1..]);
    }
  }

  lemma OneHiddenKeepsInv(p: ProcessView, id: QueueId, accesses: seq<AreaAccess>)
    requires Inv(p) && WaveAllowed(p, id, accesses) && NoneRunning(p)
    ensures var r := WaveResumed(p, id, accesses);
      Inv(r) && NoneRunning(r) && r.queues.Keys == p.queues.Keys && r.progressNeeded == p.progressNeeded
  {
    NoneRunningKept(p, id, p.queues[id].wavesRunning.value + 1, accesses);
    WavesChangedKeepsInv(p, id, p.queues[id].wavesRunning.value + 1, accesses);
  }

  lemma NoneRunningKept(p: ProcessView, id: QueueId, waves: nat, accesses: seq<AreaAccess>)
    requires WaveAllowed(p, id, accesses) && NoneRunning(p)
    ensures NoneRunning(WavesChanged(p, id, waves, accesses))
    ensures WavesChanged(p, id, waves, accesses).queues.Keys == p.queues.Keys
  {
  }

  // ----- changing the launch mode and the progress setting -----

  ghost predicate ListsTheNotSuspended(p: ProcessView, ids: seq<QueueId>) {
    Distinct(ids) && forall id :: id in ids <==> id in p.queues && !p.queues[id].state.Suspended?
  }

  ghost predicate ListsTheSuspended(p: ProcessView, ids: seq<QueueId>) {
    Distinct(ids) && forall id :: id in ids <==> id in p.queues && p.queues[id].state.Suspended?
  }

  /** The not suspended, respectively suspended, queues of a list, in order. */
  ghost function Select(queues: map<QueueId, QueueView>, range: seq<QueueId>, suspended: bool): (ids: seq<QueueId>)
    requires forall id :: id in range ==> id in queues
    ensures forall id :: id in ids <==> id in range && queues[id].state.Suspended? == suspended
    ensures Distinct(range) ==> Distinct(ids)
  {
    if range == [] then []
    else
      var last := range[|range| - 1];
      var rest := Select(queues, range[..|range| - 1], suspended);
      assert forall id :: id in range <==> id in range[..|range| - 1] || id == last;
      if queues[last].state.Suspended? == suspended then rest + [last] else rest
  }

  /** Everything the environment decides during a change of launch mode. */
  datatype ModeChange = ModeChange(order: seq<QueueId>, suspend: SuspendReply, hidden: HiddenWaves, resume: ResumeReply)

  /** `loaded` says whether the runtime is; without it only the setting is recorded. */
  ghost predicate ModeChangeAllowed(p: ProcessView, mode: LaunchMode, loaded: bool, change: ModeChange) {
    && ProcessOk(p)
    && (loaded && p.mode.LaunchHalt? && mode != p.mode ==>
          && ListsTheNotSuspended(p, change.order)
          && SuspendAllowed(p, change.order, change.suspend)
          && HiddenAllowed(SuspendQueues(p, change.order, change.suspend), change.hidden))
  }

  /** Just before the queues are resumed: waves halted at launch have been released and the
      new mode is already in force. */
  ghost function ModeLeft(p: ProcessView, mode: LaunchMode, change: ModeChange): ProcessView
    requires ModeChangeAllowed(p, mode, true, change) && p.mode.LaunchHalt? && mode != p.mode
  {
    HiddenResumed(SuspendQueues(p, change.order, change.suspend), change.hidden).(mode := mode)
  }

  lemma {:induction false} PublishLeavesNoneRunning(p: ProcessView, ids: seq<QueueId>, updates: WaveUpdates)
    requires ProcessOk(p) && UpdatesOk(p, updates)
    requires forall id :: id in p.queues && p.queues[id].state.Running? ==> id in ids
    ensures NoneRunning(Publish(p, ids, Suspended, updates))
    decreases |ids|
  {
    if ids != [] {
      var r := PublishOne(p, ids[0], Suspended, updates);
      forall id | id in r.queues && r.queues[id].state.Running?
        ensures id in ids[1..]
      {
        assert id != ids[0] && p.queues[id].state.Running?;
      }
      PublishLeavesNoneRunning(r, ids[1..], updates);
    }
  }

  lemma SuspendAll(p: ProcessView, ids: seq<QueueId>, reply: SuspendReply)
    requires Inv(p) && SuspendAllowed(p, ids, reply) && ListsTheNotSuspended(p, ids)
    ensures var r := SuspendQueues(p, ids, reply);
      Inv(r) && NoneRunning(r) && r.queues.Keys == p.queues.Keys && r.progressNeeded == p.progressNeeded
  {
    SuspendKeepsInv(p, ids, reply);
    if ids != [] && reply.SuspendServed? {
      var d := DriverSuspended(p, ids, reply);
      DriverStartsNone(p, ids, reply);
      AllListedSuspended(d, ids, reply.updates);
    }
  }

  lemma DriverStartsNone(p: ProcessView, ids: seq<QueueId>, reply: SuspendReply)
    requires ListsTheNotSuspended(p, ids) && reply.SuspendServed?
    ensures var d := DriverSuspended(p, ids, reply);
      && d.queues.Keys == p.queues.Keys && d.progressNeeded == p.progressNeeded
      && forall id :: id in d.queues && d.queues[id].state.Running? ==> id in ids
  {
    var d := DriverSuspended(p, ids, reply);
    forall id | id in d.queues && d.queues[id].state.Running?
      ensures id in ids
    {
      assert p.queues[id].state.Running?;
    }
  }

  lemma AllListedSuspended(d: ProcessView, ids: seq<QueueId>, updates: WaveUpdates)
    requires ProcessOk(d) && UpdatesOk(d, updates)
    requires forall id :: id in d.queues && d.queues[id].state.Running? ==> id in ids
    ensures var r := Publish(d, ids, Suspended, updates);
      NoneRunning(r) && r.queues.Keys == d.queues.Keys && r.progressNeeded == d.progressNeeded
  {
    PublishLeavesNoneRunning(d, ids, updates);
  }

  lemma ModeLeftKeepsInv(p: ProcessView, mode: LaunchMode, change: ModeChange)
    requires Inv(p) && ModeChangeAllowed(p, mode, true, change) && p.mode.LaunchHalt? && mode != p.mode
    ensures var r := ModeLeft(p, mode, change);
      Inv(r) && r.progressNeeded == p.progressNeeded && ResumeAllowed(r, change.order)
  {
    var s := SuspendQueues(p, change.order, change.suspend);
    SuspendAll(p, change.order, change.suspend);
    HiddenKeepsInv(s, change.hidden);
    var h := HiddenResumed(s, change.hidden);
    assert ModeLeft(p, mode, change) == h.(mode := mode);
  }

  ghost function SetLaunchMode(p: ProcessView, mode: LaunchMode, loaded: bool, change: ModeChange): ProcessView
    requires Inv(p) && ModeChangeAllowed(p, mode, loaded, change)
  {
    if mode == p.mode then p
    else if !loaded || !p.mode.LaunchHalt? then p.(mode := mode)
    else
      ModeLeftKeepsInv(p, mode, change);
      var r := ModeLeft(p, mode, change);
      if p.progressNeeded then ResumeQueues(r, change.order, change.resume) else r
  }

  /** With the runtime loaded a change of launch mode keeps the protocol. */
  lemma LoadedModeChangeKeepsInv(p: ProcessView, mode: LaunchMode, change: ModeChange)
    requires Inv(p) && ModeChangeAllowed(p, mode, true, change)
    ensures Inv(SetLaunchMode(p, mode, true, change))
  {
    if mode != p.mode {
      if p.mode.LaunchHalt? {
        ModeLeftKeepsInv(p, mode, change);
        ResumeKeepsInv(ModeLeft(p, mode, change), change.order, change.resume);
      } else {
        ModeSettingOnly(p, mode);
      }
    }
  }

  /** No queue reported running is all-stopped. The library can tell from its own fields. */
  ghost predicate NoneRunningIsStopped(p: ProcessView) {
    forall id :: id in p.queues && p.queues[id].state.Running? ==> !IsAllStopped(p.mode, p.queues[id])
  }

  /** A queue reported running is held back on the hardware exactly when it is all-stopped. */
  lemma HeldIfStopped(p: ProcessView, id: QueueId)
    requires Inv(p) && id in p.queues && p.queues[id].state.Running?
    ensures p.queues[id].hwSuspended <==> IsAllStopped(p.mode, p.queues[id])
  {
    assert Settled(p.mode, p.cache, p.queues[id]);
  }

  /** Changing only the setting keeps the protocol if and only if no queue reported running is
      all-stopped under the old setting. */
  lemma ModeSettingOnly(p: ProcessView, mode: LaunchMode)
    requires Inv(p) && mode != p.mode
    ensures Inv(p.(mode := mode)) <==> NoneRunningIsStopped(p)
  {
    var r := p.(mode := mode);
    forall id | id in p.queues
      ensures Settled(mode, p.cache, p.queues[id]) <==>
        !(p.queues[id].state.Running? && IsAllStopped(p.mode, p.queues[id]))
    {
      assert Settled(p.mode, p.cache, p.queues[id]);
      if p.queues[id].state.Running? { HeldIfStopped(p, id); }
    }
    if Inv(r) {
      forall id | id in p.queues
        ensures !(p.queues[id].state.Running? && IsAllStopped(p.mode, p.queues[id]))
      {
        assert Settled(r.mode, r.cache, r.queues[id]);
      }
    }
  }

  /** With the runtime not loaded only the setting changes, so leaving halt mode keeps the
      protocol if and only if no queue reported running is all-stopped. */
  lemma UnloadedModeChange(p: ProcessView, mode: LaunchMode, change: ModeChange)
    requires Inv(p) && ModeChangeAllowed(p, mode, false, change)
    ensures Inv(SetLaunchMode(p, mode, false, change)) <==> mode == p.mode || NoneRunningIsStopped(p)
  {
    if mode != p.mode {
      ModeSettingOnly(p, mode);
    }
  }

  ghost predicate ProgressAllowed(p: ProcessView, needed: bool, order: seq<QueueId>) {
    ProcessOk(p) && (needed && !p.progressNeeded ==> ListsTheSuspended(p, order))
  }

  ghost function SetProgressNeeded(p: ProcessView, needed: bool, order: seq<QueueId>, reply: ResumeReply): ProcessView
    requires ProgressAllowed(p, needed, order)
  {
    if needed == p.progressNeeded then p
    else if needed then ResumeQueues(p.(progressNeeded := true), order, reply)
    else p.(progressNeeded := false)
  }

  // ----- the environment, and queues coming and going -----

  /** Running waves and the host may change any memory outside the areas the hardware holds. */
  ghost function MemoryChanged(p: ProcessView, memory: Bytes): ProcessView {
    p.(cache := p.cache.(memory := memory))
  }

  ghost predicate CreateAllowed(p: ProcessView, id: QueueId, area: Area) {
    && ProcessOk(p) && id !in p.queues && AreaOk(area)
    && (forall i :: i in p.queues ==> Disjoint(p.queues[i].area, area) && Disjoint(area, p.queues[i].area))
    && forall l :: l in p.cache.lines ==> !InArea(area, l)
  }

  ghost function QueueCreated(p: ProcessView, id: QueueId, area: Area): ProcessView {
    p.(queues := p.queues[id := QueueView(Running, None, false, area)])
  }

  /** The destructor drops the cached lines of the save area, dirty or not. */
  ghost function QueueDestroyed(p: ProcessView, id: QueueId): ProcessView
    requires ProcessOk(p) && id in p.queues
  {
    var area := p.queues[id].area;
    p.(queues := p.queues - {id}, cache := Discard(p.cache, FirstLine(area), LastLine(area)))
  }

  lemma MemoryChangeKeepsInv(p: ProcessView, memory: Bytes)
    requires Inv(p) && HeldAreasKept(p, memory)
    ensures Inv(MemoryChanged(p, memory))
  {
    var r := MemoryChanged(p, memory);
    forall id | id in p.queues
      ensures Settled(r.mode, r.cache, r.queues[id])
    {
      assert Settled(p.mode, p.cache, p.queues[id]);
      assert AreaClean(p.cache, p.queues[id].area) <==> AreaClean(r.cache, p.queues[id].area);
      if p.queues[id].hwSuspended && !p.queues[id].state.Invalid? {
        SameAreaFacts(p.cache, r.cache, p.queues[id].area);
      }
    }
  }

  lemma CreateKeepsInv(p: ProcessView, id: QueueId, area: Area)
    requires Inv(p) && CreateAllowed(p, id, area)
    ensures Inv(QueueCreated(p, id, area))
  {
  }

  lemma DestroyKeepsInv(p: ProcessView, id: QueueId)
    requires Inv(p) && id in p.queues
    ensures Inv(QueueDestroyed(p, id))
    ensures forall l :: l in QueueDestroyed(p, id).cache.lines ==> !InArea(p.queues[id].area, l)
  {
    var r := QueueDestroyed(p, id);
    DiscardIsLocal(p.cache, p.queues[id].area);
    forall i | i in r.queues
      ensures Settled(r.mode, r.cache, r.queues[i])
    {
      assert Disjoint(p.queues[id].area, p.queues[i].area);
      OutsideIsSame(p.cache, r.cache, p.queues[id].area, p.queues[i].area);
      SameAreaFacts(p.cache, r.cache, p.queues[i].area);
    }
  }

  // ----- whole runs -----

  datatype Step =
    | Suspend(ids: seq<QueueId>, suspend: SuspendReply)
    | Resume(ids: seq<QueueId>, resume: ResumeReply)
    | LaunchModeStep(mode: LaunchMode, loaded: bool, change: ModeChange)
    | ProgressStep(needed: bool, order: seq<QueueId>, resume: ResumeReply)
    | WaveResumes(id: QueueId, accesses: seq<AreaAccess>)
    | WaveStops(id: QueueId, accesses: seq<AreaAccess>)
    | RegisterAccess(id: QueueId, accesses: seq<AreaAccess>)
    | Environment(memory: Bytes)
    | Create(id: QueueId, area: Area)
    | Destroy(id: QueueId)

  ghost predicate Allowed(p: ProcessView, step: Step)
    requires ProcessOk(p)
  {
    match step
    case Suspend(ids, reply) => SuspendAllowed(p, ids, reply)
    case Resume(ids, _) => ResumeAllowed(p, ids)
    case LaunchModeStep(mode, loaded, change) =>
      ModeChangeAllowed(p, mode, loaded, change) && (loaded || mode == p.mode || NoneRunningIsStopped(p))
    case ProgressStep(needed, order, _) => ProgressAllowed(p, needed, order)
    case WaveResumes(id, accesses) => WaveAllowed(p, id, accesses)
    case WaveStops(id, accesses) => WaveAllowed(p, id, accesses) && p.queues[id].wavesRunning.value > 0
    case RegisterAccess(id, accesses) => WaveAllowed(p, id, accesses)
    case Environment(memory) => HeldAreasKept(p, memory)
    case Create(id, area) => CreateAllowed(p, id, area)
    case Destroy(id) => id in p.queues
  }

  ghost function Next(p: ProcessView, step: Step): ProcessView
    requires Inv(p) && Allowed(p, step)
  {
    match step
    case Suspend(ids, reply) => SuspendQueues(p, ids, reply)
    case Resume(ids, reply) => ResumeQueues(p, ids, reply)
    case LaunchModeStep(mode, loaded, change) => SetLaunchMode(p, mode, loaded, change)
    case ProgressStep(needed, order, reply) => SetProgressNeeded(p, needed, order, reply)
    case WaveResumes(id, accesses) => WaveResumed(p, id, accesses)
    case WaveStops(id, accesses) => WaveStopped(p, id, accesses)
    case RegisterAccess(id, accesses) => WavesChanged(p, id, p.queues[id].wavesRunning.value, accesses)
    case Environment(memory) => MemoryChanged(p, memory)
    case Create(id, area) => QueueCreated(p, id, area)
    case Destroy(id) => QueueDestroyed(p, id)
  }

  /** The reported state tells the truth about the hardware: suspended means suspended, and
      running means running unless the queue is all-stopped under launch mode halt. */
  ghost predicate Truthful(p: ProcessView) {
    forall id :: id in p.queues ==>
      && (p.queues[id].state.Suspended? ==> p.queues[id].hwSuspended)
      && (p.queues[id].state.Running? && p.queues[id].hwSuspended ==>
            p.mode.LaunchHalt? && p.queues[id].wavesRunning == Some(0))
  }

  ghost predicate SuspendIsSafe(p: ProcessView, ids: seq<QueueId>, reply: SuspendReply)
    requires SuspendAllowed(p, ids, reply)
  {
    reply.SuspendServed? ==>
      var d := DriverSuspended(p, ids, reply);
      ProcessOk(d) && UpdatesOk(d, reply.updates) && DiscardsAreSafe(d, ids, reply.updates)
  }

  /** Every discard inside the step meets clean lines only, and at every driver call that
      resumes queues, memory holds what the library sees in their save areas. */
  ghost predicate StepIsSafe(p: ProcessView, step: Step)
    requires ProcessOk(p) && Allowed(p, step)
  {
    match step
    case Suspend(ids, reply) => SuspendIsSafe(p, ids, reply)
    case Resume(ids, _) => ResumesCommitted(p, ids)
    case LaunchModeStep(mode, loaded, change) =>
      loaded && p.mode.LaunchHalt? && mode != p.mode ==>
        && SuspendIsSafe(p, change.order, change.suspend)
        && ResumeAllowed(ModeLeft(p, mode, change), change.order)
        && ResumesCommitted(ModeLeft(p, mode, change), change.order)
    case ProgressStep(needed, order, _) =>
      needed && !p.progressNeeded ==> ResumesCommitted(p.(progressNeeded := true), order)
    case _ => true
  }

  lemma StepKeepsInv(p: ProcessView, step: Step)
    requires Inv(p) && Allowed(p, step)
    ensures Inv(Next(p, step))
  {
    match step
    case Suspend(ids, reply) => SuspendKeepsInv(p, ids, reply);
    case Resume(ids, reply) => ResumeKeepsInv(p, ids, reply);
    case LaunchModeStep(mode, loaded, change) =>
      if loaded { LoadedModeChangeKeepsInv(p, mode, change); } else { UnloadedModeChange(p, mode, change); }
    case ProgressStep(needed, order, reply) => ProgressKeepsInv(p, needed, order, reply);
    case Environment(memory) => MemoryChangeKeepsInv(p, memory);
    case Create(id, area) => CreateKeepsInv(p, id, area);
    case Destroy(id) => DestroyKeepsInv(p, id);
    case _ => WaveStepKeepsInv(p, step);
  }

  lemma WaveStepKeepsInv(p: ProcessView, step: Step)
    requires Inv(p) && Allowed(p, step)
    requires step.WaveResumes? || step.WaveStops? || step.RegisterAccess?
    ensures Inv(Next(p, step))
  {
    forall waves: nat
      ensures Inv(WavesChanged(p, step.id, waves, step.accesses))
    {
      WavesChangedKeepsInv(p, step.id, waves, step.accesses);
    }
  }

  lemma ProgressKeepsInv(p: ProcessView, needed: bool, order: seq<QueueId>, reply: ResumeReply)
    requires Inv(p) && ProgressAllowed(p, needed, order)
    ensures Inv(SetProgressNeeded(p, needed, order, reply))
    ensures needed && !p.progressNeeded ==> ResumesCommitted(p.(progressNeeded := true), order)
  {
    if needed && !p.progressNeeded {
      ResumeKeepsInv(p.(progressNeeded := true), order, reply);
    }
  }

  lemma EveryStepIsSafe(p: ProcessView, step: Step)
    requires Inv(p) && Allowed(p, step)
    ensures StepIsSafe(p, step)
  {
    match step
    case Suspend(ids, reply) => SuspendKeepsInv(p, ids, reply);
    case Resume(ids, reply) => ResumeKeepsInv(p, ids, reply);
    case LaunchModeStep(mode, loaded, change) =>
      if loaded && p.mode.LaunchHalt? && mode != p.mode {
        SuspendKeepsInv(p, change.order, change.suspend);
        ModeLeftKeepsInv(p, mode, change);
        ResumeKeepsInv(ModeLeft(p, mode, change), change.order, change.resume);
      }
    case ProgressStep(needed, order, reply) => ProgressKeepsInv(p, needed, order, reply);
    case _ =>
  }

  ghost predicate LegalRun(p: ProcessView, steps: seq<Step>)
    requires Inv(p)
    decreases |steps|
  {
    steps == [] || (
      Allowed(p, steps[0]) && (StepKeepsInv(p, steps[0]); LegalRun(Next(p, steps[0]), steps[1..])))
  }

  /** The state after the first `k` steps. */
  ghost function StateAt(p: ProcessView, steps: seq<Step>, k: nat): ProcessView
    requires Inv(p) && LegalRun(p, steps) && k <= |steps|
    decreases |steps|
  {
    if k == 0 then p
    else StepKeepsInv(p, steps[0]); StateAt(Next(p, steps[0]), steps[1..], k - 1)
  }

  /** In every run the reported queue states stay truthful, no suspend discards a dirty line,
      and hardware only ever restores what the library sees. */
  lemma {:induction false} EveryRunIsSafe(p: ProcessView, steps: seq<Step>, k: nat)
    requires Inv(p) && LegalRun(p, steps) && k <= |steps|
    ensures Inv(StateAt(p, steps, k)) && Truthful(StateAt(p, steps, k))
    ensures k < |steps| ==> Allowed(StateAt(p, steps, k), steps[k]) && StepIsSafe(StateAt(p, steps, k), steps[k])
    decreases |steps|
  {
    if k == 0 {
      assert forall id :: id in p.queues ==> Settled(p.mode, p.cache, p.queues[id]);
      if steps != [] { EveryStepIsSafe(p, steps[0]); }
    } else {
      StepKeepsInv(p, steps[0]);
      EveryRunIsSafe(Next(p, steps[0]), steps[1..], k - 1);
    }
  }

  // ----- leaving halt mode without the runtime -----

  /** One queue with a save area of one line, running under launch mode halt. */
  ghost function OneQueue(memory: Bytes): ProcessView {
    ProcessView(LaunchHalt, true, map[1 := QueueView(Running, None, false, Area(0, 64))], CacheState(map[], memory))
  }

  /** The queue is suspended, none of its waves is found running, and it is resumed. */
  function StopAndResume(memory: Bytes): seq<Step> {
    [Suspend([1], SuspendServed([1], memory, map[1 := WaveUpdate(0, [], false)])), Resume([1], ResumeServed([], 0))]
  }

  lemma OneQueueStarts(memory: Bytes)
    requires |memory| == ADDRESS_SPACE
    ensures Inv(OneQueue(memory)) && OneQueue(memory).queues.Keys == {1}
    ensures SuspendAllowed(OneQueue(memory), [1], SuspendServed([1], memory, map[1 := WaveUpdate(0, [], false)]))
  {
  }

  lemma QueueIsStopped(memory: Bytes)
    requires |memory| == ADDRESS_SPACE
    ensures var p, reply := OneQueue(memory), SuspendServed([1], memory, map[1 := WaveUpdate(0, [], false)]);
      && Inv(p) && SuspendAllowed(p, [1], reply)
      && var r := SuspendQueues(p, [1], reply);
         Inv(r) && r.mode == LaunchHalt && r.queues == map[1 := QueueView(Suspended, Some(0), true, Area(0, 64))]
  {
    var p, reply := OneQueue(memory), SuspendServed([1], memory, map[1 := WaveUpdate(0, [], false)]);
    OneQueueStarts(memory);
    SuspendKeepsInv(p, [1], reply);
    DriverHolds(memory);
    HeldIsPublished(DriverSuspended(p, [1], reply), reply.updates);
  }

  lemma HeldIsPublished(d: ProcessView, updates: WaveUpdates)
    requires ProcessOk(d) && UpdatesOk(d, updates) && updates == map[1 := WaveUpdate(0, [], false)]
    requires d.mode == LaunchHalt && d.queues == map[1 := QueueView(Running, None, true, Area(0, 64))]
    ensures var r := Publish(d, [1], Suspended, updates);
      r.mode == LaunchHalt && r.queues == map[1 := QueueView(Suspended, Some(0), true, Area(0, 64))]
  {
    assert [1][1..] == [];
    assert Publish(d, [1], Suspended, updates) == PublishOne(d, 1, Suspended, updates);
  }

  lemma DriverHolds(memory: Bytes)
    requires |memory| == ADDRESS_SPACE
    ensures var d := DriverSuspended(OneQueue(memory), [1], SuspendServed([1], memory, map[1 := WaveUpdate(0, [], false)]));
      d.mode == LaunchHalt && d.queues == map[1 := QueueView(Running, None, true, Area(0, 64))]
  {
    var p := OneQueue(memory);
    assert NeedDriver(p, [1]) == {1};
    NoMark();
  }

  lemma NoMark()
    ensures SuspendMarks([1]) == {}
  {
    assert !HasInvalid(1) && NoneMarked([1]);
    ResumeMarksNothing([1]);
  }

  lemma QueueIsResumed(s: ProcessView)
    requires Inv(s) && s.mode == LaunchHalt && s.queues == map[1 := QueueView(Suspended, Some(0), true, Area(0, 64))]
    ensures ResumeAllowed(s, [1])
    ensures var q := ResumeQueues(s, [1], ResumeServed([], 0));
      q.mode == LaunchHalt && q.queues.Keys == {1} && q.queues[1] == QueueView(Running, Some(0), true, Area(0, 64))
  {
    assert NeedDriver(s, [1]) == {};
    assert ResumePublished(s, [1]) == PublishOne(s, 1, Running, map[]);
  }

  /** A run of two steps. */
  lemma TwoSteps(p: ProcessView, first: Step, second: Step)
    requires Inv(p) && Allowed(p, first) && (Inv(Next(p, first)) ==> Allowed(Next(p, first), second))
    ensures LegalRun(p, [first, second]) && Inv(Next(p, first))
    ensures StateAt(p, [first, second], 2) == Next(Next(p, first), second) && Inv(StateAt(p, [first, second], 2))
  {
    StepKeepsInv(p, first);
    OneStep(Next(p, first), second);
    assert [first, second][1..] == [second];
  }

  lemma OneStep(p: ProcessView, step: Step)
    requires Inv(p) && Allowed(p, step)
    ensures LegalRun(p, [step]) && Inv(Next(p, step)) && StateAt(p, [step], 1) == Next(p, step)
  {
    StepKeepsInv(p, step);
    assert [step][1..] == [];
    assert StateAt(Next(p, step), [], 0) == Next(p, step);
  }

  /** From there a change of mode while the runtime is not loaded leaves the queue reported running,
      not all-stopped, and held on the hardware. */
  lemma UnloadedModeChangeBreaks(memory: Bytes, change: ModeChange)
    requires |memory| == ADDRESS_SPACE
    ensures var p, steps := OneQueue(memory), StopAndResume(memory);
      && Inv(p) && LegalRun(p, steps)
      && var q := StateAt(p, steps, 2);
         && Inv(q) && ModeChangeAllowed(q, LaunchNormal, false, change) && !NoneRunningIsStopped(q)
         && !Inv(SetLaunchMode(q, LaunchNormal, false, change))
         && !Truthful(SetLaunchMode(q, LaunchNormal, false, change))
  {
    var p, steps := OneQueue(memory), StopAndResume(memory);
    QueueIsStopped(memory);
    QueueIsResumed(Next(p, steps[0]));
    TwoSteps(p, steps[0], steps[1]);
    assert steps == [steps[0], steps[1]];
    var q := StateAt(p, steps, 2);
    assert 1 in q.queues;
    UnloadedModeChange(q, LaunchNormal, change);
  }

  // ----- resuming a queue that is gone -----

  /** One queue with a running wave, held by the hardware. */
  ghost function OneHeld(memory: Bytes): ProcessView {
    ProcessView(LaunchNormal, true, map[1 := QueueView(Suspended, Some(1), true, Area(0, 64))], CacheState(map[], memory))
  }

  /** The driver answers that queue 1 is gone. It ends reported running; had the same answer been
      given to a suspend, it would have been found. */
  lemma GoneQueueRuns(memory: Bytes)
    requires |memory| == ADDRESS_SPACE
    ensures var p, step := OneHeld(memory), Resume([1], ResumeServed([1 + INVALID], 0));
      && Inv(p) && Allowed(p, step) && AnswerTo(Asked(p, [1]), [1 + INVALID])
      && 1 in Next(p, step).queues && Next(p, step).queues[1].state.Running?
      && SuspendMarks([1 + INVALID]) == {1}
  {
    OneHeldIsGood(memory);
    OneMark();
    ResumeMissesGone(OneHeld(memory), [1], ResumeServed([1 + INVALID], 0), 1);
  }

  lemma OneHeldIsGood(memory: Bytes)
    requires |memory| == ADDRESS_SPACE
    ensures var p := OneHeld(memory); Inv(p) && ResumeAllowed(p, [1]) && Asked(p, [1]) == [1] && NeedDriver(p, [1]) == {1}
  {
    assert [1][..0] == [];
  }

  lemma OneMark()
    ensures AnswerTo([1], [1 + INVALID]) && SuspendMarks([1 + INVALID]) == {1}
  {
    var numbers := [1 + INVALID];
    assert Repeats(1, 1 + INVALID) && HasInvalid(1 + INVALID);
    MarkIsFound(numbers, 0);
    MarkedWereAsked([1], numbers, false);
  }
}
