/** Events of a process: how they are created, put in line for the client, handed over and
    acknowledged, and how the thread that hit the runtime's breakpoint is held until the client
    has dealt with the new list of code objects. */
module Events {
  import opened Wrappers

  datatype EventState = Created | Queued | Reported

  /** A code object event caused by a breakpoint names the event that resumes the thread. */
  datatype Kind = WaveStop | Runtime | CodeObjects(resume: Option<nat>) | BreakpointResume

  datatype Event = Event(kind: Kind, state: EventState)

  /** The events that exist, and those waiting for the client in order. */
  datatype Process = Process(events: map<nat, Event>, pending: seq<nat>, nextId: nat)

  datatype Result<T> = Ok(value: T) | InvalidEventId

  function Rank(s: EventState): nat {
    match s
    case Created => 0
    case Queued => 1
    case Reported => 2
  }

  // ----- the operations -----

  function Make(p: Process, kind: Kind): Process {
    p.(events := p.events[p.nextId := Event(kind, Created)], nextId := p.nextId + 1)
  }

  function Enqueue(p: Process, id: nat): Process
    requires id in p.events
  {
    p.(pending := p.pending + [id], events := p.events[id := p.events[id].(state := Queued)])
  }

  function Raise(p: Process, kind: Kind): Process {
    Enqueue(Make(p, kind), p.nextId)
  }

  /** The list of code objects changed at the breakpoint: the resume event is made, but only the
      code object event is put in line. */
  function HitBreakpoint(p: Process): Process {
    Raise(Make(p, BreakpointResume), CodeObjects(Some(p.nextId)))
  }

  /** Hands over the first event in line. */
  function HandOver(p: Process): Process
    requires p.pending != [] && p.pending[0] in p.events
  {
    var id := p.pending[0];
    p.(pending := p.pending[1..], events := p.events[id := p.events[id].(state := Reported)])
  }

  /** Wave events raised one after the other. */
  function RaiseWaves(p: Process, n: nat): Process {
    if n == 0 then p else Raise(RaiseWaves(p, n - 1), WaveStop)
  }

  predicate CanAcknowledge(p: Process, id: nat) {
    id in p.events && p.events[id].state == Reported
  }

  /** The client is done with an event. For a code object event caused by a breakpoint the queues
      are suspended, which may raise `waves` wave events, and the resume event joins the line. */
  function Acknowledge(p: Process, id: nat, waves: nat): Process
    requires CanAcknowledge(p, id)
    requires p.events[id].kind.CodeObjects? && p.events[id].kind.resume.Some? ==>
      p.events[id].kind.resume.value in RaiseWaves(p, waves).events
  {
    var kind := p.events[id].kind;
    var p1 := if kind.CodeObjects? && kind.resume.Some? then Enqueue(RaiseWaves(p, waves), kind.resume.value) else p;
    p1.(events := p1.events - {id})
  }

  // ----- runs -----

  /** A process with its history: the events put in line, handed over and acknowledged so far, and
      for each resume event the code object event it waits for. */
  datatype Trace = Trace(p: Process, enqueued: seq<nat>, delivered: seq<nat>, done: set<nat>, waitsFor: map<nat, nat>)

  predicate IsResumeOf(p: Process, c: nat, r: nat) {
    c in p.events && p.events[c].kind == CodeObjects(Some(r))
  }

  ghost predicate EventOk(t: Trace, id: nat)
    requires id in t.p.events
  {
    var e := t.p.events[id];
    && id < t.p.nextId && id !in t.done
    && (e.state == Created <==> id !in t.enqueued)
    && (e.state == Queued <==> id in t.p.pending)
    && (e.state == Reported ==> id in t.delivered)
    && (e.state == Created ==> e.kind == BreakpointResume)
    && (e.kind == BreakpointResume ==> id in t.waitsFor)
    && (e.kind == BreakpointResume && e.state == Created ==> IsResumeOf(t.p, t.waitsFor[id], id))
    && (e.kind.CodeObjects? && e.kind.resume.Some? ==>
          ResumeOk(t, id, e.kind.resume.value))
  }

  /** The resume event `r` of a code object event `c` that is not acknowledged is out of line. */
  ghost predicate ResumeOk(t: Trace, c: nat, r: nat) {
    r in t.p.events && t.p.events[r] == Event(BreakpointResume, Created) && r in t.waitsFor && t.waitsFor[r] == c
  }

  /** A resume event joined the line after the event it waits for was handed over and dealt with. */
  ghost predicate LineOk(t: Trace, j: nat)
    requires j < |t.enqueued|
  {
    var id := t.enqueued[j];
    id < t.p.nextId && (id in t.waitsFor ==> t.waitsFor[id] in t.done && t.waitsFor[id] in t.enqueued[..j])
  }

  ghost predicate Inv(t: Trace) {
    && t.enqueued == t.delivered + t.p.pending && Distinct(t.enqueued)
    && (forall id :: id in t.p.events ==> EventOk(t, id))
    && (forall id :: id in t.p.pending ==> id in t.p.events)
    && (forall j :: 0 <= j < |t.enqueued| ==> LineOk(t, j))
    && (forall id :: id in t.done ==> id in t.delivered)
    && (forall r :: r in t.waitsFor ==> r < t.p.nextId && (r in t.p.events ==> t.p.events[r].kind == BreakpointResume))
  }

  datatype Step = RaiseOne(kind: Kind) | Hit | Next | Done(id: nat, waves: nat)

  ghost predicate Allowed(t: Trace, step: Step) {
    match step
    case RaiseOne(kind) => kind.WaveStop? || kind.Runtime? || kind == CodeObjects(None)
    case Hit => true
    case Next => t.p.pending != []
    case Done(id, _) => CanAcknowledge(t.p, id)
  }

  ghost function Raised(t: Trace, kind: Kind): Trace {
    t.(p := Raise(t.p, kind), enqueued := t.enqueued + [t.p.nextId])
  }

  ghost function WavesRaised(t: Trace, n: nat): (t': Trace)
    ensures t'.p == RaiseWaves(t.p, n)
  {
    if n == 0 then t else Raised(WavesRaised(t, n - 1), WaveStop)
  }

  ghost function Hitting(t: Trace): Trace {
    t.(p := HitBreakpoint(t.p), enqueued := t.enqueued + [t.p.nextId + 1],
       waitsFor := t.waitsFor[t.p.nextId := t.p.nextId + 1])
  }

  ghost function HandedOver(t: Trace): Trace
    requires Inv(t) && t.p.pending != []
  {
    assert t.p.pending[0] in t.p.pending;
    t.(p := HandOver(t.p), delivered := t.delivered + [t.p.pending[0]])
  }

  // ----- every step keeps the invariant -----

  lemma RaiseKeepsInv(t: Trace, kind: Kind)
    requires Inv(t) && (kind.WaveStop? || kind.Runtime? || kind == CodeObjects(None))
    ensures Inv(Raised(t, kind))
    ensures forall id :: id in t.p.events ==> id in Raised(t, kind).p.events && Raised(t, kind).p.events[id] == t.p.events[id]
  {
    var t', n := Raised(t, kind), t.p.nextId;
    NewIdIsUnused(t);
    forall id | id in t'.p.events
      ensures EventOk(t', id)
    {
      if id != n { assert EventOk(t, id); }
    }
    LineGrows(t, t', n);
  }

  lemma NewIdIsUnused(t: Trace)
    requires Inv(t)
    ensures forall n :: n >= t.p.nextId ==>
      (n !in t.p.events && n !in t.enqueued && n !in t.delivered && n !in t.p.pending && n !in t.done && n !in t.waitsFor)
  {
    forall id | id in t.p.events ensures id < t.p.nextId { assert EventOk(t, id); }
    forall j | 0 <= j < |t.enqueued| ensures t.enqueued[j] < t.p.nextId { assert LineOk(t, j); }
  }

  /** One more event in line. */
  lemma LineGrows(t: Trace, t': Trace, n: nat)
    requires Inv(t) && t'.enqueued == t.enqueued + [n] && n !in t.enqueued && t.p.nextId <= t'.p.nextId && n < t'.p.nextId
    requires t.done <= t'.done
    requires forall id :: id in t.enqueued && id in t'.waitsFor ==> id in t.waitsFor && t'.waitsFor[id] == t.waitsFor[id]
    requires n in t'.waitsFor ==> t'.waitsFor[n] in t'.done && t'.waitsFor[n] in t.enqueued
    ensures Distinct(t'.enqueued) && forall j :: 0 <= j < |t'.enqueued| ==> LineOk(t', j)
  {
    forall j | 0 <= j < |t'.enqueued|
      ensures LineOk(t', j)
    {
      assert t'.enqueued[..j] == if j < |t.enqueued| then t.enqueued[..j] else t.enqueued;
      if j < |t.enqueued| { assert LineOk(t, j); }
    }
  }

  lemma HitKeepsInv(t: Trace)
    requires Inv(t)
    ensures Inv(Hitting(t))
  {
    var t' := Hitting(t);
    NewIdIsUnused(t);
    forall id | id in t'.p.events
      ensures EventOk(t', id)
    {
      HitEventOk(t, id);
    }
    LineGrows(t, t', t.p.nextId + 1);
  }

  lemma HitEventOk(t: Trace, id: nat)
    requires Inv(t) && id in Hitting(t).p.events
    ensures EventOk(Hitting(t), id)
  {
    NewIdIsUnused(t);
    if id < t.p.nextId { assert EventOk(t, id); }
  }

  lemma NextKeepsInv(t: Trace)
    requires Inv(t) && t.p.pending != []
    ensures Inv(HandedOver(t))
  {
    var t', id := HandedOver(t), t.p.pending[0];
    assert id in t.p.pending && EventOk(t, id);
    assert t.p.pending == [id] + t'.p.pending;
    assert t.enqueued[|t.delivered|] == id;
    assert t'.enqueued == t'.delivered + t'.p.pending;
    forall x | x in t'.p.pending
      ensures x != id && x in t.p.pending
    {
      var j :| 0 <= j < |t'.p.pending| && t'.p.pending[j] == x;
      assert t.enqueued[|t.delivered| + 1 + j] == x;
    }
    forall x | x in t'.p.events
      ensures EventOk(t', x)
    {
      assert EventOk(t, x);
    }
    forall j | 0 <= j < |t'.enqueued| ensures LineOk(t', j) { assert LineOk(t, j); }
  }

  lemma {:induction false} WavesKeepInv(t: Trace, n: nat)
    requires Inv(t)
    ensures var t' := WavesRaised(t, n);
      && Inv(t') && t.enqueued <= t'.enqueued && t'.delivered == t.delivered
      && t'.done == t.done && t'.waitsFor == t.waitsFor && t.p.nextId <= t'.p.nextId
      && forall id :: id in t.p.events ==> id in t'.p.events && t'.p.events[id] == t.p.events[id]
  {
    if n > 0 {
      WavesKeepInv(t, n - 1);
      RaiseKeepsInv(WavesRaised(t, n - 1), WaveStop);
    }
  }

  /** The resume event a code object event releases, if any. */
  function ReleasedBy(p: Process, id: nat): Option<nat>
    requires id in p.events
  {
    if p.events[id].kind.CodeObjects? then p.events[id].kind.resume else None
  }

  ghost function Acknowledged(t: Trace, id: nat, waves: nat): Trace
    requires Inv(t) && CanAcknowledge(t.p, id)
  {
    WavesKeepInv(t, waves);
    assert EventOk(t, id);
    var released := ReleasedBy(t.p, id);
    t.(p := Acknowledge(t.p, id, waves),
       enqueued := if released.Some? then WavesRaised(t, waves).enqueued + [released.value] else t.enqueued,
       done := t.done + {id})
  }

  lemma RemovalKeepsInv(t: Trace, id: nat)
    requires Inv(t) && CanAcknowledge(t.p, id) && ReleasedBy(t.p, id).None?
    ensures Inv(Acknowledged(t, id, 0))
  {
    var t' := Acknowledged(t, id, 0);
    assert EventOk(t, id);
    forall x | x in t'.p.events
      ensures EventOk(t', x)
    {
      assert EventOk(t, x);
    }
    forall j | 0 <= j < |t'.enqueued| ensures LineOk(t', j) { assert LineOk(t, j); }
  }

  /** Releasing the resume event `r` of the acknowledged event `c`. */
  lemma ReleaseKeepsInv(t: Trace, c: nat, r: nat)
    requires Inv(t) && CanAcknowledge(t.p, c) && ReleasedBy(t.p, c) == Some(r) && r in t.p.events
    ensures var p := Enqueue(t.p, r);
      Inv(t.(p := p.(events := p.events - {c}), enqueued := t.enqueued + [r], done := t.done + {c}))
  {
    var p := Enqueue(t.p, r);
    var t' := t.(p := p.(events := p.events - {c}), enqueued := t.enqueued + [r], done := t.done + {c});
    assert EventOk(t, c) && EventOk(t, r) && ResumeOk(t, c, r);
    assert t'.enqueued == t'.delivered + t'.p.pending;
    forall x | x in t'.p.events
      ensures EventOk(t', x)
    {
      assert EventOk(t, x);
    }
    LineGrows(t, t', r);
  }

  lemma DoneKeepsInv(t: Trace, id: nat, waves: nat)
    requires Inv(t) && CanAcknowledge(t.p, id)
    ensures Inv(Acknowledged(t, id, waves))
  {
    assert EventOk(t, id);
    match ReleasedBy(t.p, id)
    case None => RemovalKeepsInv(t, id);
    case Some(r) =>
      WavesKeepInv(t, waves);
      ReleaseKeepsInv(WavesRaised(t, waves), id, r);
  }

  ghost function After(t: Trace, step: Step): Trace
    requires Inv(t) && Allowed(t, step)
  {
    match step
    case RaiseOne(kind) => Raised(t, kind)
    case Hit => Hitting(t)
    case Next => HandedOver(t)
    case Done(id, waves) => Acknowledged(t, id, waves)
  }

  lemma StepKeepsInv(t: Trace, step: Step)
    requires Inv(t) && Allowed(t, step)
    ensures Inv(After(t, step))
  {
    match step
    case RaiseOne(kind) => RaiseKeepsInv(t, kind);
    case Hit => HitKeepsInv(t);
    case Next => NextKeepsInv(t);
    case Done(id, waves) => DoneKeepsInv(t, id, waves);
  }

  ghost predicate Advances(t: Trace, t': Trace, id: nat) {
    && t.delivered <= t'.delivered && t.done <= t'.done
    && (id in t.p.events && id in t'.p.events ==>
          Rank(t.p.events[id].state) <= Rank(t'.p.events[id].state) <= Rank(t.p.events[id].state) + 1
          && t'.p.events[id].kind == t.p.events[id].kind)
  }

  /** The state of an event only advances, one stage at a time, and only an event the client has
      acknowledged goes away; what was handed over stays handed over, in the same order. */
  lemma StatesAdvance(t: Trace, step: Step, id: nat)
    requires Inv(t) && Allowed(t, step)
    ensures Advances(t, After(t, step), id)
    ensures id in t.p.events && id !in After(t, step).p.events ==>
      step.Done? && step.id == id && t.p.events[id].state == Reported
  {
    NewIdIsUnused(t);
    match step
    case Done(c, waves) => DoneAdvances(t, c, waves, id);
    case Next =>
      assert t.p.pending[0] in t.p.pending;
      assert EventOk(t, t.p.pending[0]);
    case _ =>
  }

  lemma DoneAdvances(t: Trace, c: nat, waves: nat, id: nat)
    requires Inv(t) && CanAcknowledge(t.p, c)
    ensures Advances(t, Acknowledged(t, c, waves), id)
    ensures id in t.p.events && id !in Acknowledged(t, c, waves).p.events ==> id == c
  {
    WavesKeepInv(t, waves);
    assert EventOk(t, c);
  }

  ghost predicate LegalRun(t: Trace, steps: seq<Step>)
    requires Inv(t)
    decreases |steps|
  {
    steps == [] || (Allowed(t, steps[0]) && (StepKeepsInv(t, steps[0]); LegalRun(After(t, steps[0]), steps[1..])))
  }

  ghost function RunOf(t: Trace, steps: seq<Step>): Trace
    requires Inv(t) && LegalRun(t, steps)
    decreases |steps|
  {
    if steps == [] then t else StepKeepsInv(t, steps[0]); RunOf(After(t, steps[0]), steps[1..])
  }

  /** What holds of a process at all times: events are handed over in the order they were put in
      line and never twice, and a resume event is in line, handed over or open to
      acknowledgement only after the event it waits for was handed over and acknowledged. */
  ghost predicate Safe(t: Trace) {
    && t.delivered <= t.enqueued && Distinct(t.enqueued)
    && forall r :: r in t.waitsFor && (r in t.p.pending || r in t.delivered || CanAcknowledge(t.p, r)) ==>
         (t.waitsFor[r] in t.done && t.waitsFor[r] in t.delivered && ComesBefore(t.enqueued, t.waitsFor[r], r))
  }

  ghost predicate ComesBefore(s: seq<nat>, a: nat, b: nat) {
    exists i, j :: 0 <= i < j < |s| && s[i] == a && s[j] == b
  }

  lemma InvIsSafe(t: Trace)
    requires Inv(t)
    ensures Safe(t)
  {
    forall r | r in t.waitsFor && (r in t.p.pending || r in t.delivered || CanAcknowledge(t.p, r))
      ensures t.waitsFor[r] in t.done && t.waitsFor[r] in t.delivered && ComesBefore(t.enqueued, t.waitsFor[r], r)
    {
      if r in t.p.events { assert EventOk(t, r); }
      assert r in t.enqueued;
      var j :| 0 <= j < |t.enqueued| && t.enqueued[j] == r;
      assert LineOk(t, j);
      var i :| 0 <= i < j && t.enqueued[..j][i] == t.waitsFor[r];
      assert t.enqueued[i] == t.waitsFor[r];
    }
  }

  /** Every run of events raised, breakpoints hit, events handed over and acknowledged is safe. */
  lemma {:induction false} EveryRunIsSafe(t: Trace, steps: seq<Step>)
    requires Inv(t) && LegalRun(t, steps)
    ensures Safe(RunOf(t, steps)) && t.delivered <= RunOf(t, steps).delivered
    decreases |steps|
  {
    if steps == [] {
      InvIsSafe(t);
    } else {
      StepKeepsInv(t, steps[0]);
      StatesAdvance(t, steps[0], 0);
      EveryRunIsSafe(After(t, steps[0]), steps[1..]);
    }
  }

  /** While the event it waits for is not acknowledged, a resume event cannot be acknowledged;
      once that event is, the resume event is in line or past it. */
  lemma ThreadIsHeld(t: Trace, c: nat, r: nat)
    requires Inv(t) && IsResumeOf(t.p, c, r)
    ensures !CanAcknowledge(t.p, r) && r !in t.p.pending && r !in t.delivered
    ensures CanAcknowledge(t.p, c) ==> forall waves: nat :: r in Acknowledged(t, c, waves).p.pending
  {
    assert EventOk(t, c) && EventOk(t, r);
  }

  /** A hit puts exactly one event in line, which names the resume event made with it. */
  lemma HitLinks(t: Trace)
    requires Inv(t)
    ensures var p, r, c := Hitting(t).p, t.p.nextId, t.p.nextId + 1;
      && r !in t.p.events && c !in t.p.events && p.pending == t.p.pending + [c]
      && r in p.events && p.events[r] == Event(BreakpointResume, Created) && IsResumeOf(p, c, r)
      && forall id :: id in t.p.events ==> id in p.events && p.events[id] == t.p.events[id]
  {
    NewIdIsUnused(t);
  }

  /** A resume event is held: made, but out of the line and out of the client's reach. */
  ghost predicate IsHeld(t: Trace, r: nat) {
    r in t.p.events && t.p.events[r].kind == BreakpointResume && r !in t.p.pending && r !in t.delivered
  }

  /** In every run each resume event still held is named by the event it waits for, which the
      client has not acknowledged; it cannot be acknowledged before, and the acknowledgement puts
      it in line behind everything there is. So no thread is held for ever. */
  lemma HeldIsReleased(t: Trace, steps: seq<Step>, r: nat)
    requires Inv(t) && LegalRun(t, steps) && IsHeld(RunOf(t, steps), r)
    ensures var u := RunOf(t, steps);
      && Inv(u) && r in u.waitsFor && IsResumeOf(u.p, u.waitsFor[r], r) && !CanAcknowledge(u.p, r)
      && (CanAcknowledge(u.p, u.waitsFor[r]) ==> forall waves: nat ::
            Acknowledged(u, u.waitsFor[r], waves).p.pending == u.p.pending + Upto(u.p.nextId, waves) + [r])
  {
    RunKeepsInv(t, steps);
    var u := RunOf(t, steps);
    assert EventOk(u, r);
    if CanAcknowledge(u.p, u.waitsFor[r]) {
      forall waves: nat
        ensures Acknowledged(u, u.waitsFor[r], waves).p.pending == u.p.pending + Upto(u.p.nextId, waves) + [r]
      {
        WavesInLine(u.p, waves);
      }
    }
  }

  lemma {:induction false} RunKeepsInv(t: Trace, steps: seq<Step>)
    requires Inv(t) && LegalRun(t, steps)
    ensures Inv(RunOf(t, steps))
    decreases |steps|
  {
    if steps != [] {
      StepKeepsInv(t, steps[0]);
      RunKeepsInv(After(t, steps[0]), steps[1..]);
    }
  }

  /** The numbers first, ..., first + n - 1. */
  function Upto(first: nat, n: nat): seq<nat> {
    seq(n, k requires 0 <= k < n => first + k)
  }

  /** Wave events join the line one after the other under new identifiers. */
  lemma {:induction false} WavesInLine(p: Process, n: nat)
    ensures var r := RaiseWaves(p, n);
      && r.nextId == p.nextId + n && r.pending == p.pending + Upto(p.nextId, n)
      && forall id :: p.nextId <= id < p.nextId + n ==> id in r.events && r.events[id] == Event(WaveStop, Queued)
  {
    if n > 0 {
      WavesInLine(p, n - 1);
      assert Upto(p.nextId, n) == Upto(p.nextId, n - 1) + [p.nextId + n - 1];
    }
  }

  // ----- the process object -----

  class ProcessEvents {
    var events: map<nat, Event>
    var pending: seq<nat>
    var nextId: nat

    ghost function Abs(): Process
      reads this
    {
      Process(events, pending, nextId)
    }

    constructor ()
      ensures Abs() == Process(map[], [], 1) && Inv(Trace(Abs(), [], [], {}, map[]))
    {
      events := map[];
      pending := [];
      nextId := 1;
    }

    method Create(kind: Kind) returns (id: nat)
      modifies this
      ensures id == old(nextId) && Abs() == Make(old(Abs()), kind)
    {
      id := nextId;
      events := events[id := Event(kind, Created)];
      nextId := nextId + 1;
    }

    /** Puts an event in line; its state must not have got there before. */
    method EnqueueEvent(id: nat)
      requires id in events && events[id].state == Created
      modifies this
      ensures Abs() == Enqueue(old(Abs()), id)
    {
      pending := pending + [id];
      events := events[id := events[id].(state := Queued)];
    }

    method RaiseEvent(kind: Kind) returns (id: nat)
      modifies this
      ensures id == old(nextId) && Abs() == Raise(old(Abs()), kind)
    {
      id := Create(kind);
      EnqueueEvent(id);
    }

    /** A thread hit the runtime's breakpoint. It may go on only if no code object changed. */
    method BreakpointHit(changed: bool) returns (resume: bool)
      modifies this
      ensures resume <==> !changed
      ensures Abs() == if changed then HitBreakpoint(old(Abs())) else old(Abs())
    {
      if !changed { return true; }
      var resumeEvent := Create(BreakpointResume);
      var _ := RaiseEvent(CodeObjects(Some(resumeEvent)));
      resume := false;
    }

    /** The first event in line, if there is one. */
    method NextPendingEvent(ghost t: Trace) returns (id: Option<nat>)
      requires Inv(t) && t.p == Abs()
      modifies this
      ensures id.None? <==> old(pending) == []
      ensures id.None? ==> Abs() == old(Abs())
      ensures id.Some? ==> id.value == old(pending)[0] && Abs() == HandedOver(t).p
    {
      if pending == [] { return None; }
      var first := pending[0];
      assert first in t.p.pending && EventOk(t, first);
      pending := pending[1..];
      assert Rank(events[first].state) < Rank(Reported);
      events := events[first := events[first].(state := Reported)];
      id := Some(first);
    }

    /** The client is done with an event. `waves` is the number of wave events that suspending the
        queues turns up. */
    method EventProcessed(id: nat, waves: nat, ghost t: Trace) returns (r: Result<()>)
      requires Inv(t) && t.p == Abs()
      modifies this
      ensures r.InvalidEventId? <==> !CanAcknowledge(old(Abs()), id)
      ensures r.InvalidEventId? ==> Abs() == old(Abs())
      ensures r.Ok? ==> Abs() == Acknowledged(t, id, waves).p
    {
      if id !in events || Rank(events[id].state) < Rank(Reported) { return InvalidEventId; }
      assert EventOk(t, id);
      var kind := events[id].kind;
      if kind.CodeObjects? && kind.resume.Some? {
        WavesKeepInv(t, waves);
        var n := 0;
        while n < waves
          invariant n <= waves && Abs() == RaiseWaves(t.p, n)
        {
          var _ := RaiseEvent(WaveStop);
          n := n + 1;
        }
        EnqueueEvent(kind.resume.value);
      }
      events := events - {id};
      r := Ok(());
    }
  }
}
