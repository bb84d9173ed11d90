/** Keeping the list of queues in step with the driver. The driver reports a queue as new exactly
    once; between two reports a queue may be destroyed and another created under the same number. */
module QueueUpdate {
  import opened Wrappers
  import opened QueueNumbers

  /** A hardware queue, the device it runs on, and whether it has yet to be reported as new. No two
      hardware queues ever share an incarnation. */
  datatype HwQueue = HwQueue(incarnation: nat, gpu: nat, isNew: bool)

  /** The driver's queues by number. */
  datatype Kernel = Kernel(live: map<nat, HwQueue>, nextIncarnation: nat)

  /** One entry of the driver's answer to a snapshot request. */
  datatype Entry = Entry(os: nat, gpu: nat, isNew: bool)

  /** The library's view of a queue. One that was made up to hold an event has no agent yet. */
  datatype LibQueue = LibQueue(os: nat, agent: Option<nat>, mark: nat)

  /** `attaching` is set while the library attaches to a process whose runtime is enabled. */
  datatype Library = Library(queues: map<nat, LibQueue>, nextId: nat, nextMark: nat, attaching: bool)

  // ----- what the driver may do -----

  ghost predicate ValidKernel(k: Kernel) {
    && (forall os :: os in k.live ==> os < INVALID && k.live[os].incarnation < k.nextIncarnation)
    && forall os, os' :: os in k.live && os' in k.live && k.live[os].incarnation == k.live[os'].incarnation ==> os == os'
  }

  /** Queues come and go. One that appears is a new incarnation and not yet reported. */
  ghost predicate Evolves(k: Kernel, k': Kernel) {
    && k.nextIncarnation <= k'.nextIncarnation && ValidKernel(k')
    && forall os :: os in k'.live ==> Survives(k, k', os) || Appears(k, k', os)
  }

  ghost predicate Survives(k: Kernel, k': Kernel, os: nat)
    requires os in k'.live
  {
    os in k.live && k'.live[os] == k.live[os]
  }

  ghost predicate Appears(k: Kernel, k': Kernel, os: nat)
    requires os in k'.live
  {
    k'.live[os].isNew && k.nextIncarnation <= k'.live[os].incarnation < k'.nextIncarnation
  }

  /** The queue numbered `os` has been reported as new. */
  function Reported(k: Kernel, os: nat): Kernel
    requires os in k.live
  {
    k.(live := k.live[os := k.live[os].(isNew := false)])
  }

  ghost predicate Describes(k: Kernel, e: Entry) {
    e.os in k.live && k.live[e.os].gpu == e.gpu && k.live[e.os].isNew == e.isNew
  }

  /** An answer lists different queues, as they are. */
  ghost predicate IsSnapshot(k: Kernel, entries: seq<Entry>) {
    && (forall i :: 0 <= i < |entries| ==> Describes(k, entries[i]))
    && forall i, j :: 0 <= i < j < |entries| ==> entries[i].os != entries[j].os
  }

  ghost function AllReported(k: Kernel, entries: seq<Entry>): Kernel
    requires IsSnapshot(k, entries)
    decreases |entries|
  {
    if entries == [] then k
    else
      FirstReported(k, entries);
      AllReported(Reported(k, entries[0].os), entries[1..])
  }

  lemma FirstReported(k: Kernel, entries: seq<Entry>)
    requires IsSnapshot(k, entries) && entries != []
    ensures IsSnapshot(Reported(k, entries[0].os), entries[1..])
  {
    var k', rest := Reported(k, entries[0].os), entries[1..];
    forall i | 0 <= i < |rest|
      ensures Describes(k', rest[i])
    {
      assert rest[i] == entries[i + 1] && Describes(k, entries[i + 1]);
      assert entries[0].os != entries[i + 1].os;
    }
  }

  // ----- one entry -----

  /** No two valid queues have the same number. */
  ghost predicate UniqueOs(lib: Library) {
    forall p, q :: p in lib.queues && q in lib.queues && lib.queues[p].os == lib.queues[q].os < INVALID ==> p == q
  }

  ghost predicate HasOs(lib: Library, os: nat) {
    exists q :: IsQueue(lib, q, os)
  }

  predicate IsQueue(lib: Library, q: nat, os: nat) {
    q in lib.queues && lib.queues[q].os == os
  }

  ghost function Find(lib: Library, os: nat): (q: nat)
    requires HasOs(lib, os)
    ensures IsQueue(lib, q, os)
  {
    var q :| IsQueue(lib, q, os);
    q
  }

  function Without(lib: Library, q: nat): Library { lib.(queues := lib.queues - {q}) }

  function Created(lib: Library, x: LibQueue): Library {
    lib.(queues := lib.queues[lib.nextId := x], nextId := lib.nextId + 1)
  }

  /** A queue created in place of a stale one with the same number. */
  ghost function Replaced(lib: Library, x: LibQueue): Library {
    Created(if HasOs(lib, x.os) then Without(lib, Find(lib, x.os)) else lib, x)
  }

  function Marked(lib: Library, q: nat, mark: nat): Library
    requires q in lib.queues
  {
    lib.(queues := lib.queues[q := lib.queues[q].(mark := mark)])
  }

  /** An invalid queue answers to no number of the driver's. */
  function Invalid(x: LibQueue): LibQueue {
    if x.os < INVALID then x.(os := x.os + INVALID) else x
  }

  function Invalidated(lib: Library, q: nat): Library
    requires q in lib.queues
  {
    lib.(queues := lib.queues[q := Invalid(lib.queues[q])])
  }

  function AllInvalid(lib: Library): Library {
    lib.(queues := map q | q in lib.queues :: Invalid(lib.queues[q]))
  }

  /** A queue marked invalid answers to no number of the driver's and keeps the number it had in the
      other bits; the others answer as before. When all are invalid none answers. */
  lemma InvalidIsNotFound(lib: Library, q: nat, os: nat)
    requires q in lib.queues && os < INVALID
    ensures var lib' := Invalidated(lib, q);
      && lib'.queues.Keys == lib.queues.Keys && lib'.queues[q].os % INVALID == lib.queues[q].os % INVALID
      && lib'.queues[q].os >= INVALID && lib'.queues[q].agent == lib.queues[q].agent
      && forall p :: IsQueue(lib', p, os) <==> p != q && IsQueue(lib, p, os)
    ensures !HasOs(AllInvalid(lib), os) && AllInvalid(lib).queues.Keys == lib.queues.Keys
  {
  }

  /** What is done about one entry of a snapshot; None stands for a fatal error. `agents` tells
      which devices are known and which of them can be debugged. */
  ghost function AfterEntry(lib: Library, e: Entry, mark: nat, agents: map<nat, bool>): Option<Library> {
    if e.gpu !in agents then None
    else if !agents[e.gpu] then Some(lib)
    else if e.isNew then
      Some(Replaced(lib, LibQueue(e.os, Some(e.gpu), mark)))
    else if lib.attaching then
      Some(if HasOs(lib, e.os) then Marked(lib, Find(lib, e.os), mark) else Created(lib, LibQueue(e.os, Some(e.gpu), mark)))
    else if !HasOs(lib, e.os) then None
    else
      var q := Find(lib, e.os);
      if lib.queues[q].agent == None then
        Some(lib.(queues := lib.queues[q := LibQueue(e.os, Some(e.gpu), mark)]))
      else if lib.queues[q].agent != Some(e.gpu) then None
      else Some(Marked(lib, q, mark))
  }

  /** The errors of an entry: a device that is not known, and on one that can be debugged, when not
      attaching, an old queue that is not known or known on another device. */
  lemma EntryIsFatalExactly(lib: Library, e: Entry, mark: nat, agents: map<nat, bool>)
    requires UniqueOs(lib) && e.os < INVALID
    ensures AfterEntry(lib, e, mark, agents).None? <==>
      || e.gpu !in agents
      || (agents[e.gpu] && !e.isNew && !lib.attaching
            && forall q :: IsQueue(lib, q, e.os) ==> lib.queues[q].agent.Some? && lib.queues[q].agent != Some(e.gpu))
  {
    if HasOs(lib, e.os) { assert IsQueue(lib, Find(lib, e.os), e.os); }
  }

  /** The incarnation each identifier was given to. It is not something the library knows. */
  type Born = map<nat, nat>

  ghost function BornAfter(born: Born, lib: Library, lib': Library, incarnation: nat): Born {
    if lib'.nextId > lib.nextId then born[lib.nextId := incarnation] else born
  }

  // ----- the link between the library and the driver -----

  ghost predicate Debuggable(k: Kernel, agents: map<nat, bool>, os: nat) {
    os in k.live && k.live[os].gpu in agents && agents[k.live[os].gpu]
  }

  /** A queue the driver has reported is known under an identifier given to that very
      incarnation; while attaching it may not be known yet. */
  ghost predicate Linked(k: Kernel, lib: Library, born: Born, agents: map<nat, bool>) {
    && ValidKernel(k) && UniqueOs(lib) && lib.nextMark > 0
    && (forall q :: q in lib.queues ==> QueueLinked(k, lib, born, agents, q))
    && (forall os :: Debuggable(k, agents, os) && !k.live[os].isNew && !lib.attaching ==> HasOs(lib, os))
  }

  ghost predicate QueueLinked(k: Kernel, lib: Library, born: Born, agents: map<nat, bool>, q: nat)
    requires q in lib.queues
  {
    var x := lib.queues[q];
    && q < lib.nextId && q in born && born[q] < k.nextIncarnation && x.mark < lib.nextMark
    && (Debuggable(k, agents, x.os) && !k.live[x.os].isNew ==>
          && born[q] == k.live[x.os].incarnation
          && (x.agent == None || x.agent == Some(k.live[x.os].gpu)))
  }

  ghost predicate AgentsKnown(k: Kernel, agents: map<nat, bool>) {
    forall os :: os in k.live ==> k.live[os].gpu in agents
  }

  /** Identifiers keep the incarnation they were given to. */
  ghost predicate Extends(born: Born, born': Born) {
    forall q :: q in born ==> q in born' && born'[q] == born[q]
  }

  /** Identifiers have been given only to queues that have been reported. */
  ghost predicate IdsGiven(k: Kernel, lib: Library, born: Born) {
    forall q :: q in born ==> IdGiven(k, lib, q, born[q])
  }

  ghost predicate IdGiven(k: Kernel, lib: Library, q: nat, incarnation: nat) {
    && q < lib.nextId && incarnation < k.nextIncarnation
    && forall os :: os in k.live && k.live[os].incarnation == incarnation ==> !k.live[os].isNew
  }

  lemma EvolutionKeepsLink(k: Kernel, k': Kernel, lib: Library, born: Born, agents: map<nat, bool>)
    requires Linked(k, lib, born, agents) && IdsGiven(k, lib, born) && Evolves(k, k')
    ensures Linked(k', lib, born, agents) && IdsGiven(k', lib, born)
  {
    forall q | q in born
      ensures IdGiven(k', lib, q, born[q])
    {
      assert IdGiven(k, lib, q, born[q]);
      forall os | os in k'.live && k'.live[os].incarnation == born[q]
        ensures !k'.live[os].isNew
      {
        assert Survives(k, k', os) || Appears(k, k', os);
      }
    }
    forall q | q in lib.queues
      ensures QueueLinked(k', lib, born, agents, q)
    {
      assert QueueLinked(k, lib, born, agents, q);
      var os := lib.queues[q].os;
      if os in k'.live { assert Survives(k, k', os) || Appears(k, k', os); }
    }
    forall os | Debuggable(k', agents, os) && !k'.live[os].isNew && !lib.attaching
      ensures HasOs(lib, os)
    {
      assert Survives(k, k', os) || Appears(k, k', os);
      assert Debuggable(k, agents, os);
    }
  }

  /** While attaching, queues without an agent are not completed; otherwise they always are. */
  ghost predicate Complete(lib: Library) {
    lib.attaching ==> forall q :: q in lib.queues ==> lib.queues[q].agent.Some?
  }

  /** A queue numbered `os` with an agent carries `mark`. */
  ghost predicate Current(lib: Library, os: nat, mark: nat) {
    exists q :: IsCurrent(lib, q, os, mark)
  }

  ghost predicate IsCurrent(lib: Library, q: nat, os: nat, mark: nat) {
    IsQueue(lib, q, os) && lib.queues[q].mark == mark && lib.queues[q].agent.Some?
  }

  /** The library in its new state is linked to the driver in its new state. */
  ghost predicate Sound(k': Kernel, agents: map<nat, bool>, lib: Library, born: Born, lib': Library, born': Born) {
    && Linked(k', lib', born', agents) && IdsGiven(k', lib', born') && Extends(born, born')
    && lib'.nextMark == lib.nextMark && lib'.attaching == lib.attaching
  }

  /** Exactly the queue of the entry gets the mark. */
  ghost predicate EntryMarks(k: Kernel, e: Entry, mark: nat, agents: map<nat, bool>, lib: Library, lib': Library) {
    && (Complete(lib) ==> Complete(lib') && (Debuggable(k, agents, e.os) ==> Current(lib', e.os, mark)))
    && (forall os :: os != e.os ==> (Current(lib', os, mark) <==> Current(lib, os, mark)))
    && (!Debuggable(k, agents, e.os) ==> lib' == lib)
    && (Complete(lib) && MarkedHaveAgents(lib, mark) ==> MarkedHaveAgents(lib', mark))
  }

  /** What handling one entry achieves. */
  ghost predicate EntryDone(k: Kernel, lib: Library, born: Born, e: Entry, mark: nat, agents: map<nat, bool>,
    lib': Library, born': Born)
    requires e.os in k.live
  {
    && Sound(Reported(k, e.os), agents, lib, born, lib', born')
    && EntryMarks(k, e, mark, agents, lib, lib')
    && KeepsOldQueues(lib, lib', e.os, e.isNew)
  }

  ghost predicate MarkedHaveAgents(lib: Library, mark: nat) {
    forall q :: q in lib.queues && lib.queues[q].mark == mark ==> lib.queues[q].agent.Some?
  }

  /** No queue is renumbered, and one is destroyed only for a new queue with its number. */
  ghost predicate KeepsOldQueues(lib: Library, lib': Library, os: nat, isNew: bool) {
    && (forall q :: q in lib.queues && q !in lib'.queues ==> isNew && lib.queues[q].os == os)
    && (forall q :: q in lib.queues && q in lib'.queues ==> lib'.queues[q].os == lib.queues[q].os)
  }

  /** A new identifier for a queue just reported, with or without its agent. */
  lemma ReplacementIsSound(k: Kernel, lib: Library, born: Born, x: LibQueue, agents: map<nat, bool>)
    requires Linked(k, lib, born, agents) && IdsGiven(k, lib, born)
    requires x.os in k.live && x.mark < lib.nextMark && (x.agent == None || x.agent == Some(k.live[x.os].gpu))
    requires k.live[x.os].isNew || (lib.attaching && !HasOs(lib, x.os))
    ensures Sound(Reported(k, x.os), agents, lib, born, Replaced(lib, x), born[lib.nextId := k.live[x.os].incarnation])
    ensures KeepsOldQueues(lib, Replaced(lib, x), x.os, k.live[x.os].isNew)
    ensures OnlyDiffers(lib, Replaced(lib, x), lib.nextId, x.os)
  {
    var lib', k' := Replaced(lib, x), Reported(k, x.os);
    var born' := born[lib.nextId := k.live[x.os].incarnation];
    ReplacementDiffers(k, lib, born, x, agents);
    forall q | q in lib'.queues
      ensures QueueLinked(k', lib', born', agents, q)
    {
      if q != lib.nextId { assert QueueLinked(k, lib, born, agents, q); }
    }
    OthersStay(k, lib, x.os, lib', agents, lib.nextId);
    NewIdIsGiven(k, lib, born, lib', x.os);
  }

  lemma ReplacementDiffers(k: Kernel, lib: Library, born: Born, x: LibQueue, agents: map<nat, bool>)
    requires Linked(k, lib, born, agents) && x.os in k.live && (k.live[x.os].isNew || (lib.attaching && !HasOs(lib, x.os)))
    ensures OnlyDiffers(lib, Replaced(lib, x), lib.nextId, x.os)
    ensures KeepsOldQueues(lib, Replaced(lib, x), x.os, k.live[x.os].isNew)
  {
    var lib' := Replaced(lib, x);
    forall q | q in lib.queues
      ensures q != lib.nextId
    {
      assert QueueLinked(k, lib, born, agents, q);
    }
    forall q | q in lib'.queues && q != lib.nextId
      ensures q in lib.queues && lib'.queues[q] == lib.queues[q] && lib.queues[q].os != x.os
    {
      assert lib.queues[q].os == x.os ==> IsQueue(lib, q, x.os);
    }
  }

  lemma NewIdIsGiven(k: Kernel, lib: Library, born: Born, lib': Library, os: nat)
    requires ValidKernel(k) && IdsGiven(k, lib, born) && os in k.live && lib'.nextId == lib.nextId + 1
    ensures IdsGiven(Reported(k, os), lib', born[lib.nextId := k.live[os].incarnation])
    ensures Extends(born, born[lib.nextId := k.live[os].incarnation])
  {
    var born' := born[lib.nextId := k.live[os].incarnation];
    forall q | q in born'
      ensures IdGiven(Reported(k, os), lib', q, born'[q])
    {
      if q in born { assert IdGiven(k, lib, q, born[q]); }
    }
  }

  lemma ReplaceNew(k: Kernel, lib: Library, born: Born, e: Entry, mark: nat, agents: map<nat, bool>)
    requires Linked(k, lib, born, agents) && IdsGiven(k, lib, born) && AgentsKnown(k, agents)
    requires Describes(k, e) && mark < lib.nextMark && agents[e.gpu]
    requires e.isNew || (lib.attaching && !HasOs(lib, e.os))
    ensures EntryDone(k, lib, born, e, mark, agents, Replaced(lib, LibQueue(e.os, Some(e.gpu), mark)),
                      born[lib.nextId := k.live[e.os].incarnation])
  {
    var x := LibQueue(e.os, Some(e.gpu), mark);
    ReplacementIsSound(k, lib, born, x, agents);
    OthersMarked(lib, Replaced(lib, x), lib.nextId, e.os, mark);
  }

  /** The two libraries differ only in queue `n`, the only one numbered `os` in the second. */
  ghost predicate OnlyDiffers(lib: Library, lib': Library, n: nat, os: nat) {
    && IsQueue(lib', n, os) && lib'.attaching == lib.attaching
    && (forall q :: q in lib'.queues && q != n ==> q in lib.queues && lib'.queues[q] == lib.queues[q] && lib.queues[q].os != os)
    && (forall q :: q in lib.queues && lib.queues[q].os != os ==> q in lib'.queues && q != n)
  }

  /** Queues with other numbers are as before, and some queue has the number of the entry. */
  lemma OthersStay(k: Kernel, lib: Library, os: nat, lib': Library, agents: map<nat, bool>, n: nat)
    requires UniqueOs(lib) && OnlyDiffers(lib, lib', n, os) && os in k.live
    requires forall o :: Debuggable(k, agents, o) && !k.live[o].isNew && !lib.attaching ==> HasOs(lib, o)
    ensures UniqueOs(lib')
    ensures var k' := Reported(k, os);
      forall o :: (Debuggable(k', agents, o) && !k'.live[o].isNew && !lib'.attaching ==> HasOs(lib', o))
  {
    var k' := Reported(k, os);
    forall o | Debuggable(k', agents, o) && !k'.live[o].isNew && !lib'.attaching
      ensures HasOs(lib', o)
    {
      if o == os {
        assert IsQueue(lib', n, o);
      } else {
        assert Debuggable(k, agents, o);
        var q := Find(lib, o);
        assert IsQueue(lib', q, o);
      }
    }
  }

  lemma OthersMarked(lib: Library, lib': Library, n: nat, os: nat, mark: nat)
    requires OnlyDiffers(lib, lib', n, os)
    ensures forall o :: o != os ==> (Current(lib', o, mark) <==> Current(lib, o, mark))
    ensures lib'.queues[n].mark == mark && lib'.queues[n].agent.Some? ==> Current(lib', os, mark)
  {
    forall o | o != os
      ensures Current(lib', o, mark) <==> Current(lib, o, mark)
    {
      if q :| IsCurrent(lib, q, o, mark) { assert IsCurrent(lib', q, o, mark); }
      if q :| IsCurrent(lib', q, o, mark) { assert IsCurrent(lib, q, o, mark); }
    }
    if lib'.queues[n].mark == mark && lib'.queues[n].agent.Some? {
      assert IsCurrent(lib', n, os, mark);
    }
  }

  lemma KeepKnown(k: Kernel, lib: Library, born: Born, e: Entry, mark: nat, agents: map<nat, bool>, q: nat, agent: Option<nat>)
    requires Linked(k, lib, born, agents) && IdsGiven(k, lib, born) && AgentsKnown(k, agents)
    requires Describes(k, e) && mark < lib.nextMark && agents[e.gpu] && !e.isNew && IsQueue(lib, q, e.os)
    requires agent == Some(e.gpu) || (lib.attaching && agent == lib.queues[q].agent)
    ensures EntryDone(k, lib, born, e, mark, agents, lib.(queues := lib.queues[q := LibQueue(e.os, agent, mark)]), born)
  {
    var lib' := lib.(queues := lib.queues[q := LibQueue(e.os, agent, mark)]);
    KeptIsLinked(k, lib, born, e, mark, agents, q, agent);
    StillGiven(k, lib, born, e.os);
    SameIds(Reported(k, e.os), lib, lib', born);
    KeptIsMarked(k, lib, e, mark, agents, q, agent);
  }

  lemma KeptIsMarked(k: Kernel, lib: Library, e: Entry, mark: nat, agents: map<nat, bool>, q: nat, agent: Option<nat>)
    requires UniqueOs(lib) && e.os < INVALID && IsQueue(lib, q, e.os) && Debuggable(k, agents, e.os)
    requires agent == Some(e.gpu) || (lib.attaching && agent == lib.queues[q].agent)
    ensures var lib' := lib.(queues := lib.queues[q := LibQueue(e.os, agent, mark)]);
      EntryMarks(k, e, mark, agents, lib, lib') && KeepsOldQueues(lib, lib', e.os, e.isNew)
  {
    var lib' := lib.(queues := lib.queues[q := LibQueue(e.os, agent, mark)]);
    assert OnlyDiffers(lib, lib', q, e.os);
    OthersMarked(lib, lib', q, e.os, mark);
  }

  lemma KeptIsLinked(k: Kernel, lib: Library, born: Born, e: Entry, mark: nat, agents: map<nat, bool>, q: nat, agent: Option<nat>)
    requires Linked(k, lib, born, agents)
    requires Describes(k, e) && mark < lib.nextMark && e.gpu in agents && agents[e.gpu] && !e.isNew && IsQueue(lib, q, e.os)
    requires agent == Some(e.gpu) || (lib.attaching && agent == lib.queues[q].agent)
    ensures Debuggable(k, agents, e.os)
    ensures Linked(Reported(k, e.os), lib.(queues := lib.queues[q := LibQueue(e.os, agent, mark)]), born, agents)
  {
    var lib' := lib.(queues := lib.queues[q := LibQueue(e.os, agent, mark)]);
    assert QueueLinked(k, lib, born, agents, q) && Debuggable(k, agents, e.os);
    forall p | p in lib'.queues
      ensures QueueLinked(Reported(k, e.os), lib', born, agents, p)
    {
      assert QueueLinked(k, lib, born, agents, p);
    }
    assert OnlyDiffers(lib, lib', q, e.os);
    OthersStay(k, lib, e.os, lib', agents, q);
  }

  lemma StillGiven(k: Kernel, lib: Library, born: Born, os: nat)
    requires IdsGiven(k, lib, born) && os in k.live
    ensures IdsGiven(Reported(k, os), lib, born)
  {
    forall q | q in born
      ensures IdGiven(Reported(k, os), lib, q, born[q])
    {
      assert IdGiven(k, lib, q, born[q]);
    }
  }

  lemma SameIds(k: Kernel, lib: Library, lib': Library, born: Born)
    requires IdsGiven(k, lib, born) && lib.nextId <= lib'.nextId
    ensures IdsGiven(k, lib', born)
  {
    forall q | q in born
      ensures IdGiven(k, lib', q, born[q])
    {
      assert IdGiven(k, lib, q, born[q]);
    }
  }

  lemma IgnoreEntry(k: Kernel, lib: Library, born: Born, e: Entry, mark: nat, agents: map<nat, bool>)
    requires Linked(k, lib, born, agents) && IdsGiven(k, lib, born) && AgentsKnown(k, agents)
    requires Describes(k, e) && !agents[e.gpu]
    ensures EntryDone(k, lib, born, e, mark, agents, lib, born)
  {
    var k' := Reported(k, e.os);
    forall q | q in lib.queues
      ensures QueueLinked(k', lib, born, agents, q)
    {
      assert QueueLinked(k, lib, born, agents, q);
      assert Debuggable(k', agents, lib.queues[q].os) ==> Debuggable(k, agents, lib.queues[q].os);
    }
    forall os | Debuggable(k', agents, os) && !k'.live[os].isNew && !lib.attaching
      ensures HasOs(lib, os)
    {
      assert Debuggable(k, agents, os);
    }
    StillGiven(k, lib, born, e.os);
  }

  /** One entry: under the driver's contract there is no fatal error, the link holds for the
      driver's next state, and exactly the queue of the entry gets the mark. */
  lemma EntryKeepsLink(k: Kernel, lib: Library, born: Born, e: Entry, mark: nat, agents: map<nat, bool>)
    requires Linked(k, lib, born, agents) && IdsGiven(k, lib, born) && AgentsKnown(k, agents)
    requires Describes(k, e) && mark < lib.nextMark
    ensures var r := AfterEntry(lib, e, mark, agents);
      r.Some? && EntryDone(k, lib, born, e, mark, agents, r.value, BornAfter(born, lib, r.value, k.live[e.os].incarnation))
  {
    if !agents[e.gpu] {
      IgnoreEntry(k, lib, born, e, mark, agents);
    } else if e.isNew || (lib.attaching && !HasOs(lib, e.os)) {
      ReplaceNew(k, lib, born, e, mark, agents);
    } else {
      assert Debuggable(k, agents, e.os);
      var q := Find(lib, e.os);
      assert QueueLinked(k, lib, born, agents, q);
      KeepKnown(k, lib, born, e, mark, agents, q, if lib.attaching then lib.queues[q].agent else Some(e.gpu));
    }
  }

  // ----- one snapshot -----

  ghost function AfterEntries(lib: Library, entries: seq<Entry>, mark: nat, agents: map<nat, bool>): Option<Library>
    decreases |entries|
  {
    if entries == [] then Some(lib)
    else
      match AfterEntry(lib, entries[0], mark, agents)
      case None => None
      case Some(next) => AfterEntries(next, entries[1..], mark, agents)
  }

  ghost predicate Lists(entries: seq<Entry>, os: nat) {
    exists i :: 0 <= i < |entries| && entries[i].os == os
  }

  /** Exactly the queues of the snapshot get the mark. */
  ghost predicate EntriesMark(k: Kernel, entries: seq<Entry>, mark: nat, agents: map<nat, bool>, lib: Library, lib': Library) {
    Complete(lib) ==>
      && Complete(lib')
      && (MarkedHaveAgents(lib, mark) ==> MarkedHaveAgents(lib', mark))
      && forall os ::
           Current(lib', os, mark) <==> Current(lib, os, mark) || (Lists(entries, os) && Debuggable(k, agents, os))
  }

  /** A queue is destroyed only when a new one with its number is listed. */
  ghost predicate EntriesKeep(k: Kernel, entries: seq<Entry>, lib: Library, lib': Library) {
    forall q :: q in lib.queues ==> StillThere(k, entries, lib, lib', q)
  }

  ghost predicate StillThere(k: Kernel, entries: seq<Entry>, lib: Library, lib': Library, q: nat)
    requires q in lib.queues
  {
    var os := lib.queues[q].os;
    IsQueue(lib', q, os) || (os in k.live && k.live[os].isNew && Lists(entries, os))
  }

  lemma MarksCompose(k: Kernel, entries: seq<Entry>, mark: nat, agents: map<nat, bool>,
    lib: Library, next: Library, lib': Library)
    requires entries != [] && entries[0].os in k.live
    requires EntryMarks(k, entries[0], mark, agents, lib, next)
    requires EntriesMark(Reported(k, entries[0].os), entries[1..], mark, agents, next, lib')
    ensures EntriesMark(k, entries, mark, agents, lib, lib')
  {
    forall os
      ensures Lists(entries, os) <==> os == entries[0].os || Lists(entries[1..], os)
      ensures Debuggable(Reported(k, entries[0].os), agents, os) <==> Debuggable(k, agents, os)
    {
      ListsFirst(entries, os);
    }
  }

  lemma KeepsCompose(k: Kernel, entries: seq<Entry>, lib: Library, next: Library, lib': Library)
    requires entries != [] && Describes(k, entries[0])
    requires KeepsOldQueues(lib, next, entries[0].os, entries[0].isNew)
    requires EntriesKeep(Reported(k, entries[0].os), entries[1..], next, lib')
    ensures EntriesKeep(k, entries, lib, lib')
  {
    forall q | q in lib.queues
      ensures StillThere(k, entries, lib, lib', q)
    {
      ListsFirst(entries, lib.queues[q].os);
      if q in next.queues { assert StillThere(Reported(k, entries[0].os), entries[1..], next, lib', q); }
    }
  }

  /** A whole snapshot: no fatal error, the link holds for the driver's next state, and exactly the
      queues listed get the mark. */
  lemma {:induction false} EntriesKeepLink(k: Kernel, lib: Library, born: Born, entries: seq<Entry>, mark: nat,
    agents: map<nat, bool>) returns (born': Born)
    requires Linked(k, lib, born, agents) && IdsGiven(k, lib, born) && AgentsKnown(k, agents)
    requires IsSnapshot(k, entries) && mark < lib.nextMark
    ensures var r := AfterEntries(lib, entries, mark, agents);
      && r.Some? && Sound(AllReported(k, entries), agents, lib, born, r.value, born')
      && EntriesMark(k, entries, mark, agents, lib, r.value) && EntriesKeep(k, entries, lib, r.value)
    decreases |entries|
  {
    if entries == [] {
      born' := born;
      assert EntriesKeep(k, entries, lib, lib);
    } else {
      var e, rest := entries[0], entries[1..];
      assert Describes(k, e);
      EntryKeepsLink(k, lib, born, e, mark, agents);
      FirstReported(k, entries);
      var next := AfterEntry(lib, e, mark, agents).value;
      var born1 := BornAfter(born, lib, next, k.live[e.os].incarnation);
      born' := EntriesKeepLink(Reported(k, e.os), next, born1, rest, mark, agents);
      var lib' := AfterEntries(lib, entries, mark, agents).value;
      MarksCompose(k, entries, mark, agents, lib, next, lib');
      KeepsCompose(k, entries, lib, next, lib');
    }
  }

  lemma ListsFirst(entries: seq<Entry>, os: nat)
    requires entries != []
    ensures Lists(entries, os) <==> os == entries[0].os || Lists(entries[1..], os)
  {
    if i :| 0 <= i < |entries| && entries[i].os == os && i > 0 {
      assert entries[1..][i - 1].os == os;
    }
    if i :| 0 <= i < |entries[1..]| && entries[1..][i].os == os {
      assert entries[i + 1].os == os;
    }
  }

  /** As many different entries as there are queues list them all. */
  lemma {:induction false} FullSnapshotListsAll(k: Kernel, entries: seq<Entry>, os: nat)
    requires IsSnapshot(k, entries) && |entries| == |k.live| && os in k.live
    ensures Lists(entries, os)
  {
    var numbers := set i | 0 <= i < |entries| :: entries[i].os;
    NumbersCount(k, entries, numbers);
    if os !in numbers {
      assert numbers <= k.live.Keys - {os};
      SubsetCount(numbers, k.live.Keys - {os});
    }
  }

  lemma {:induction false} NumbersCount(k: Kernel, entries: seq<Entry>, numbers: set<nat>)
    requires IsSnapshot(k, entries) && numbers == set i | 0 <= i < |entries| :: entries[i].os
    ensures |numbers| == |entries| && numbers <= k.live.Keys
  {
    forall i | 0 <= i < |entries| ensures entries[i].os in k.live { assert Describes(k, entries[i]); }
    if entries != [] {
      var n := |entries| - 1;
      var before := entries[..n];
      forall i | 0 <= i < n ensures Describes(k, before[i]) { assert Describes(k, entries[i]); }
      var less := set i | 0 <= i < |before| :: before[i].os;
      NumbersCount(k, before, less);
      assert numbers == less + {entries[n].os};
      assert entries[n].os !in less;
    }
  }

  lemma {:induction false} ReportedKeeps(k: Kernel, entries: seq<Entry>)
    requires IsSnapshot(k, entries)
    ensures var k' := AllReported(k, entries);
      && k'.nextIncarnation == k.nextIncarnation && k'.live.Keys == k.live.Keys
      && forall os :: os in k.live ==>
           (k'.live[os] == HwQueue(k.live[os].incarnation, k.live[os].gpu, k.live[os].isNew && !Lists(entries, os)))
    decreases |entries|
  {
    if entries != [] {
      FirstReported(k, entries);
      ReportedKeeps(Reported(k, entries[0].os), entries[1..]);
      forall os
        ensures Lists(entries, os) <==> os == entries[0].os || Lists(entries[1..], os)
      {
        ListsFirst(entries, os);
      }
    }
  }

  // ----- the update -----

  /** The driver's answer to one request, and how many queues there are in all. */
  datatype Answer = Snapshot(entries: seq<Entry>, total: nat) | Exited

  /** The driver's numbers are free for the library to mark. */
  predicate NumbersOk(entries: seq<Entry>) {
    forall i :: 0 <= i < |entries| ==> entries[i].os < INVALID
  }

  predicate AnswersOk(answers: seq<Answer>) {
    forall i :: 0 <= i < |answers| && answers[i].Snapshot? ==> NumbersOk(answers[i].entries)
  }

  /** The answers last until one is complete. */
  predicate Enough(request: nat, answers: seq<Answer>)
    decreases |answers|
  {
    && answers != []
    && (answers[0].Snapshot? && answers[0].total > request ==> Enough(answers[0].total + 16, answers[1..]))
  }

  /** The queues and the mark of the last round. */
  ghost function Rounds(lib: Library, request: nat, answers: seq<Answer>, agents: map<nat, bool>): Option<(Library, nat)>
    requires Enough(request, answers)
    decreases |answers|
  {
    var mark, lib1 := lib.nextMark, lib.(nextMark := lib.nextMark + 1);
    match answers[0]
    case Exited => Some((AllInvalid(lib1), mark))
    case Snapshot(entries, total) =>
      match AfterEntries(lib1, entries, mark, agents)
      case None => None
      case Some(lib2) =>
        if total > request then Rounds(lib2, total + 16, answers[1..], agents) else Some((lib2, mark))
  }

  function Swept(lib: Library, mark: nat): Library {
    lib.(queues := map q | q in lib.queues && lib.queues[q].mark >= mark :: lib.queues[q])
  }

  /** Entry `i` is the first to meet a fatal error. */
  ghost predicate FatalAt(lib: Library, entries: seq<Entry>, mark: nat, agents: map<nat, bool>, i: nat) {
    && i < |entries| && AfterEntries(lib, entries[..i], mark, agents).Some?
    && AfterEntry(AfterEntries(lib, entries[..i], mark, agents).value, entries[i], mark, agents).None?
  }

  /** A snapshot meets a fatal error if and only if one of its entries does after those before it. */
  lemma {:induction false} EntriesAreFatalExactly(lib: Library, entries: seq<Entry>, mark: nat, agents: map<nat, bool>)
    ensures AfterEntries(lib, entries, mark, agents).None? <==> exists i: nat :: FatalAt(lib, entries, mark, agents, i)
    decreases |entries|
  {
    if entries != [] {
      match AfterEntry(lib, entries[0], mark, agents)
      case None =>
        assert entries[..0] == [];
        assert FatalAt(lib, entries, mark, agents, 0);
      case Some(next) =>
        EntriesAreFatalExactly(next, entries[1..], mark, agents);
        forall i: nat | i < |entries| - 1
          ensures FatalAt(lib, entries, mark, agents, i + 1) <==> FatalAt(next, entries[1..], mark, agents, i)
        {
          assert entries[..i + 1][0] == entries[0] && entries[..i + 1][1..] == entries[1..][..i];
        }
        if i: nat :| FatalAt(next, entries[1..], mark, agents, i) {
          assert FatalAt(lib, entries, mark, agents, i + 1);
        }
        if i: nat :| FatalAt(lib, entries, mark, agents, i) {
          assert entries[..0] == [];
          assert i > 0 && FatalAt(next, entries[1..], mark, agents, i - 1);
        }
    }
  }

  /** A round meets a fatal error if and only if its snapshot does, or a later round that it asks for. */
  lemma RoundsAreFatalExactly(lib: Library, request: nat, answers: seq<Answer>, agents: map<nat, bool>)
    requires Enough(request, answers)
    ensures Rounds(lib, request, answers, agents).None? <==>
      answers[0].Snapshot? && (
        var lib1 := lib.(nextMark := lib.nextMark + 1);
        var lib2 := AfterEntries(lib1, answers[0].entries, lib.nextMark, agents);
        || (exists i: nat :: FatalAt(lib1, answers[0].entries, lib.nextMark, agents, i))
        || (lib2.Some? && answers[0].total > request
              && Rounds(lib2.value, answers[0].total + 16, answers[1..], agents).None?))
  {
    if answers[0].Snapshot? {
      EntriesAreFatalExactly(lib.(nextMark := lib.nextMark + 1), answers[0].entries, lib.nextMark, agents);
    }
  }

  ghost function Updated(lib: Library, answers: seq<Answer>, agents: map<nat, bool>): Option<Library>
    requires Enough(|lib.queues| + 16, answers)
  {
    match Rounds(lib, |lib.queues| + 16, answers, agents)
    case None => None
    case Some((lib', mark)) => Some(Swept(lib', mark))
  }

  /** The driver's state at each answer: it evolves between answers, lists up to as many queues
      as were asked for, and has none left once the process has exited. */
  ghost predicate Answered(k: Kernel, request: nat, answers: seq<Answer>, kernels: seq<Kernel>, agents: map<nat, bool>)
    requires Enough(request, answers)
    decreases |answers|
  {
    && kernels != [] && Evolves(k, kernels[0]) && AgentsKnown(kernels[0], agents)
    && match answers[0]
       case Exited => kernels[0].live == map[]
       case Snapshot(entries, total) =>
         && IsSnapshot(kernels[0], entries)
         && total == |kernels[0].live| && |entries| == (if total <= request then total else request)
         && (total > request ==>
               Answered(AllReported(kernels[0], entries), total + 16, answers[1..], kernels[1..], agents))
  }

  ghost function LastKernel(request: nat, answers: seq<Answer>, kernels: seq<Kernel>, k: Kernel, agents: map<nat, bool>): Kernel
    requires Enough(request, answers) && Answered(k, request, answers, kernels, agents)
    decreases |answers|
  {
    match answers[0]
    case Exited => kernels[0]
    case Snapshot(entries, total) =>
      var k' := AllReported(kernels[0], entries);
      if total > request then LastKernel(total + 16, answers[1..], kernels[1..], k', agents) else k'
  }

  /** The library's queues are exactly the driver's on devices that can be debugged, each with its
      device, and under an identifier that was given to this very incarnation. */
  ghost predicate Exact(k: Kernel, lib: Library, born: Born, agents: map<nat, bool>) {
    && (forall os :: HasOs(lib, os) <==> Debuggable(k, agents, os))
    && (forall q :: q in lib.queues ==> IsExact(k, lib, born, q))
  }

  ghost predicate IsExact(k: Kernel, lib: Library, born: Born, q: nat)
    requires q in lib.queues
  {
    var x := lib.queues[q];
    && x.os in k.live && x.agent == Some(k.live[x.os].gpu)
    && q in born && born[q] == k.live[x.os].incarnation
  }

  /** What the rounds achieve before queues without the last mark are removed. */
  ghost predicate RoundsDone(k': Kernel, lib: Library, born: Born, agents: map<nat, bool>, lib': Library, mark: nat, born': Born) {
    && Linked(k', lib', born', agents) && IdsGiven(k', lib', born') && Extends(born, born')
    && lib'.nextMark == mark + 1 && lib'.attaching == lib.attaching
    && MarkedHaveAgents(lib', mark)
    && (forall os :: Current(lib', os, mark) <==> Debuggable(k', agents, os))
    && (forall os :: os in k'.live ==> !k'.live[os].isNew)
    && (forall q :: q in lib.queues ==> SurvivesRounds(k', lib, born, lib', q))
  }

  /** A queue whose incarnation is still there was not destroyed. */
  ghost predicate SurvivesRounds(k': Kernel, lib: Library, born: Born, lib': Library, q: nat)
    requires q in lib.queues
  {
    var os := lib.queues[q].os;
    q in born && os in k'.live && k'.live[os].incarnation == born[q] ==> IsQueue(lib', q, os)
  }

  lemma NextMarkKeepsLink(k: Kernel, lib: Library, born: Born, agents: map<nat, bool>)
    requires Linked(k, lib, born, agents) && IdsGiven(k, lib, born)
    ensures var lib1 := lib.(nextMark := lib.nextMark + 1);
      && Linked(k, lib1, born, agents) && IdsGiven(k, lib1, born)
      && (forall q :: q in lib1.queues ==> lib1.queues[q].mark < lib.nextMark)
  {
    var lib1 := lib.(nextMark := lib.nextMark + 1);
    forall q | q in lib1.queues
      ensures QueueLinked(k, lib1, born, agents, q) && lib1.queues[q].mark < lib.nextMark
    {
      assert QueueLinked(k, lib, born, agents, q);
    }
    forall os | HasOs(lib, os) ensures HasOs(lib1, os) { assert IsQueue(lib1, Find(lib, os), os); }
    SameIds(k, lib, lib1, born);
  }

  /** A hardware queue that is there at the end and is not newer than the beginning was there
      all along. */
  lemma {:induction false} OldQueuesWereThere(k: Kernel, request: nat, answers: seq<Answer>, kernels: seq<Kernel>,
    agents: map<nat, bool>, os: nat)
    requires Enough(request, answers) && Answered(k, request, answers, kernels, agents)
    requires var k' := LastKernel(request, answers, kernels, k, agents);
      os in k'.live && k'.live[os].incarnation < k.nextIncarnation
    ensures os in k.live
    ensures k.live[os].incarnation == LastKernel(request, answers, kernels, k, agents).live[os].incarnation
    decreases |answers|
  {
    var k1 := kernels[0];
    if answers[0].Snapshot? {
      ReportedKeeps(k1, answers[0].entries);
      if answers[0].total > request {
        OldQueuesWereThere(AllReported(k1, answers[0].entries), answers[0].total + 16, answers[1..], kernels[1..], agents, os);
      }
    }
    assert Survives(k, k1, os) || Appears(k, k1, os);
  }

  /** The round whose answer is complete. */
  lemma LastRound(k: Kernel, lib: Library, born: Born, entries: seq<Entry>, mark: nat, agents: map<nat, bool>,
    lib': Library, born': Born)
    requires IdsGiven(k, lib, born) && Complete(lib) && IsSnapshot(k, entries) && |entries| == |k.live|
    requires lib.nextMark == mark + 1 && forall q :: q in lib.queues ==> lib.queues[q].mark < mark
    requires Sound(AllReported(k, entries), agents, lib, born, lib', born')
    requires EntriesMark(k, entries, mark, agents, lib, lib') && EntriesKeep(k, entries, lib, lib')
    ensures RoundsDone(AllReported(k, entries), lib, born, agents, lib', mark, born')
  {
    var k' := AllReported(k, entries);
    ReportedKeeps(k, entries);
    forall os
      ensures os in k.live ==> Lists(entries, os)
      ensures Current(lib', os, mark) <==> Debuggable(k', agents, os)
    {
      if os in k.live { FullSnapshotListsAll(k, entries, os); }
      assert !Current(lib, os, mark);
    }
    forall q | q in lib.queues
      ensures SurvivesRounds(k', lib, born, lib', q)
    {
      assert StillThere(k, entries, lib, lib', q);
      if q in born { assert IdGiven(k, lib, q, born[q]); }
    }
  }

  /** A round whose answer is incomplete, followed by the others. */
  lemma EarlierRound(k: Kernel, lib: Library, born: Born, entries: seq<Entry>, agents: map<nat, bool>,
    next: Library, born1: Born, k': Kernel, lib': Library, mark: nat, born': Born)
    requires IdsGiven(k, lib, born) && IsSnapshot(k, entries)
    requires Sound(AllReported(k, entries), agents, lib, born, next, born1) && EntriesKeep(k, entries, lib, next)
    requires RoundsDone(k', next, born1, agents, lib', mark, born')
    requires forall os :: os in k'.live && k'.live[os].incarnation < k.nextIncarnation ==>
      os in k.live && k.live[os].incarnation == k'.live[os].incarnation
    ensures RoundsDone(k', lib, born, agents, lib', mark, born')
  {
    forall q | q in lib.queues
      ensures SurvivesRounds(k', lib, born, lib', q)
    {
      var os := lib.queues[q].os;
      if q in born && os in k'.live && k'.live[os].incarnation == born[q] {
        assert StillThere(k, entries, lib, next, q);
        assert IdGiven(k, lib, q, born[q]);
        assert SurvivesRounds(k', next, born1, lib', q);
      }
    }
  }

  /** Once the process has exited every queue is invalid, and all will be removed. */
  lemma ExitedRound(k: Kernel, k1: Kernel, lib: Library, born: Born, agents: map<nat, bool>)
    requires Linked(k, lib, born, agents) && IdsGiven(k, lib, born) && Evolves(k, k1) && k1.live == map[]
    ensures RoundsDone(k1, lib, born, agents, AllInvalid(lib.(nextMark := lib.nextMark + 1)), lib.nextMark, born)
  {
    EvolutionKeepsLink(k, k1, lib, born, agents);
    NextMarkKeepsLink(k1, lib, born, agents);
    InvalidStaysLinked(k1, lib.(nextMark := lib.nextMark + 1), born, agents, lib.nextMark);
  }

  lemma InvalidStaysLinked(k: Kernel, lib: Library, born: Born, agents: map<nat, bool>, mark: nat)
    requires Linked(k, lib, born, agents) && IdsGiven(k, lib, born) && k.live == map[]
    requires forall q :: q in lib.queues ==> lib.queues[q].mark < mark
    ensures Linked(k, AllInvalid(lib), born, agents) && IdsGiven(k, AllInvalid(lib), born)
    ensures forall q :: q in AllInvalid(lib).queues ==> AllInvalid(lib).queues[q].mark < mark
    ensures forall os :: !Current(AllInvalid(lib), os, mark)
  {
    var lib1 := AllInvalid(lib);
    forall q | q in lib1.queues
      ensures QueueLinked(k, lib1, born, agents, q)
    {
      assert QueueLinked(k, lib, born, agents, q);
    }
    SameIds(k, lib, lib1, born);
  }

  /** What one round achieves, whether or not its answer is complete. */
  ghost predicate RoundDone(k: Kernel, lib: Library, born: Born, entries: seq<Entry>, agents: map<nat, bool>,
    next: Library, born': Born)
    requires IsSnapshot(k, entries)
  {
    var mark, lib1 := lib.nextMark, lib.(nextMark := lib.nextMark + 1);
    && IdsGiven(k, lib1, born) && (forall q :: q in lib1.queues ==> lib1.queues[q].mark < mark)
    && Sound(AllReported(k, entries), agents, lib1, born, next, born')
    && EntriesMark(k, entries, mark, agents, lib1, next) && EntriesKeep(k, entries, lib1, next)
  }

  lemma OneRound(k: Kernel, lib: Library, born: Born, k1: Kernel, entries: seq<Entry>, agents: map<nat, bool>)
    returns (born': Born)
    requires Linked(k, lib, born, agents) && IdsGiven(k, lib, born)
    requires Evolves(k, k1) && AgentsKnown(k1, agents) && IsSnapshot(k1, entries)
    ensures var r := AfterEntries(lib.(nextMark := lib.nextMark + 1), entries, lib.nextMark, agents);
      && r.Some? && RoundDone(k1, lib, born, entries, agents, r.value, born')
      && Linked(AllReported(k1, entries), r.value, born', agents) && IdsGiven(AllReported(k1, entries), r.value, born')
      && (Complete(lib) ==> Complete(r.value))
  {
    EvolutionKeepsLink(k, k1, lib, born, agents);
    NextMarkKeepsLink(k1, lib, born, agents);
    born' := EntriesKeepLink(k1, lib.(nextMark := lib.nextMark + 1), born, entries, lib.nextMark, agents);
  }

  /** The rounds meet no fatal error and achieve what they should. */
  ghost predicate RoundsGood(k: Kernel, lib: Library, born: Born, request: nat, answers: seq<Answer>,
    kernels: seq<Kernel>, agents: map<nat, bool>, born': Born)
    requires Enough(request, answers) && Answered(k, request, answers, kernels, agents)
  {
    var r := Rounds(lib, request, answers, agents);
    r.Some? && RoundsDone(LastKernel(request, answers, kernels, k, agents), lib, born, agents, r.value.0, r.value.1, born')
  }

  /** All the rounds of an update. */
  lemma {:induction false} RoundsKeepLink(k: Kernel, lib: Library, born: Born, request: nat, answers: seq<Answer>,
    kernels: seq<Kernel>, agents: map<nat, bool>) returns (born': Born)
    requires Linked(k, lib, born, agents) && IdsGiven(k, lib, born) && Complete(lib)
    requires Enough(request, answers) && Answered(k, request, answers, kernels, agents)
    ensures RoundsGood(k, lib, born, request, answers, kernels, agents, born')
    decreases |answers|
  {
    match answers[0]
    case Exited =>
      born' := born;
      ExitedIsGood(k, lib, born, request, answers, kernels, agents);
    case Snapshot(entries, total) =>
      var k1 := kernels[0];
      var born1 := OneRound(k, lib, born, k1, entries, agents);
      if total > request {
        var next := AfterEntries(lib.(nextMark := lib.nextMark + 1), entries, lib.nextMark, agents).value;
        born' := RoundsKeepLink(AllReported(k1, entries), next, born1, total + 16, answers[1..], kernels[1..], agents);
        EarlierIsGood(k, lib, born, request, answers, kernels, agents, next, born1, born');
      } else {
        born' := born1;
        LastIsGood(k, lib, born, request, answers, kernels, agents, born');
      }
  }

  lemma ExitedIsGood(k: Kernel, lib: Library, born: Born, request: nat, answers: seq<Answer>, kernels: seq<Kernel>,
    agents: map<nat, bool>)
    requires Linked(k, lib, born, agents) && IdsGiven(k, lib, born)
    requires Enough(request, answers) && Answered(k, request, answers, kernels, agents) && answers[0].Exited?
    ensures RoundsGood(k, lib, born, request, answers, kernels, agents, born)
  {
    ExitedRound(k, kernels[0], lib, born, agents);
  }

  lemma LastIsGood(k: Kernel, lib: Library, born: Born, request: nat, answers: seq<Answer>, kernels: seq<Kernel>,
    agents: map<nat, bool>, born': Born)
    requires Complete(lib) && Enough(request, answers) && Answered(k, request, answers, kernels, agents)
    requires answers[0].Snapshot? && answers[0].total <= request
    requires var r := AfterEntries(lib.(nextMark := lib.nextMark + 1), answers[0].entries, lib.nextMark, agents);
      r.Some? && RoundDone(kernels[0], lib, born, answers[0].entries, agents, r.value, born')
    ensures RoundsGood(k, lib, born, request, answers, kernels, agents, born')
  {
    var next := AfterEntries(lib.(nextMark := lib.nextMark + 1), answers[0].entries, lib.nextMark, agents).value;
    RoundIsLast(lib, born, kernels[0], answers[0].entries, agents, next, born');
    assert Rounds(lib, request, answers, agents) == Some((next, lib.nextMark));
  }

  lemma EarlierIsGood(k: Kernel, lib: Library, born: Born, request: nat, answers: seq<Answer>, kernels: seq<Kernel>,
    agents: map<nat, bool>, next: Library, born1: Born, born': Born)
    requires Enough(request, answers) && Answered(k, request, answers, kernels, agents)
    requires answers[0].Snapshot? && answers[0].total > request
    requires AfterEntries(lib.(nextMark := lib.nextMark + 1), answers[0].entries, lib.nextMark, agents) == Some(next)
    requires RoundDone(kernels[0], lib, born, answers[0].entries, agents, next, born1)
    requires RoundsGood(AllReported(kernels[0], answers[0].entries), next, born1, answers[0].total + 16, answers[1..], kernels[1..], agents, born')
    ensures RoundsGood(k, lib, born, request, answers, kernels, agents, born')
  {
    RoundThenRounds(lib, born, kernels[0], answers[0].entries, agents, next, born1, answers[0].total + 16, answers[1..], kernels[1..], born');
    assert Rounds(lib, request, answers, agents) == Rounds(next, answers[0].total + 16, answers[1..], agents);
  }

  lemma RoundIsLast(lib: Library, born: Born, k: Kernel, entries: seq<Entry>, agents: map<nat, bool>, next: Library, born': Born)
    requires IsSnapshot(k, entries) && RoundDone(k, lib, born, entries, agents, next, born')
    requires Complete(lib) && |entries| == |k.live|
    ensures RoundsDone(AllReported(k, entries), lib, born, agents, next, lib.nextMark, born')
  {
    var lib1 := lib.(nextMark := lib.nextMark + 1);
    LastRound(k, lib1, born, entries, lib.nextMark, agents, next, born');
    SameRounds(AllReported(k, entries), lib, lib1, born, agents, next, lib.nextMark, born');
  }

  lemma RoundThenRounds(lib: Library, born: Born, k: Kernel, entries: seq<Entry>, agents: map<nat, bool>,
    next: Library, born1: Born, request: nat, answers: seq<Answer>, kernels: seq<Kernel>, born': Born)
    requires IsSnapshot(k, entries) && RoundDone(k, lib, born, entries, agents, next, born1)
    requires Enough(request, answers) && Answered(AllReported(k, entries), request, answers, kernels, agents)
    requires RoundsGood(AllReported(k, entries), next, born1, request, answers, kernels, agents, born')
    ensures var r := Rounds(next, request, answers, agents);
      RoundsDone(LastKernel(request, answers, kernels, AllReported(k, entries), agents),
                 lib, born, agents, r.value.0, r.value.1, born')
  {
    var r := Rounds(next, request, answers, agents).value;
    var k' := LastKernel(request, answers, kernels, AllReported(k, entries), agents);
    var lib1 := lib.(nextMark := lib.nextMark + 1);
    OldQueuesAll(k, entries, request, answers, kernels, agents);
    EarlierRound(k, lib1, born, entries, agents, next, born1, k', r.0, r.1, born');
    SameRounds(k', lib, lib1, born, agents, r.0, r.1, born');
  }

  lemma OldQueuesAll(k: Kernel, entries: seq<Entry>, request: nat, answers: seq<Answer>, kernels: seq<Kernel>, agents: map<nat, bool>)
    requires IsSnapshot(k, entries) && Enough(request, answers)
    requires Answered(AllReported(k, entries), request, answers, kernels, agents)
    ensures var k' := LastKernel(request, answers, kernels, AllReported(k, entries), agents);
      forall os :: os in k'.live && k'.live[os].incarnation < k.nextIncarnation ==>
        os in k.live && k.live[os].incarnation == k'.live[os].incarnation
  {
    ReportedKeeps(k, entries);
    var k' := LastKernel(request, answers, kernels, AllReported(k, entries), agents);
    forall os | os in k'.live && k'.live[os].incarnation < k.nextIncarnation
      ensures os in k.live && k.live[os].incarnation == k'.live[os].incarnation
    {
      OldQueuesWereThere(AllReported(k, entries), request, answers, kernels, agents, os);
    }
  }

  lemma SameRounds(k': Kernel, lib: Library, lib1: Library, born: Born, agents: map<nat, bool>, lib': Library, mark: nat, born': Born)
    requires lib1.queues == lib.queues && lib1.attaching == lib.attaching
    requires RoundsDone(k', lib1, born, agents, lib', mark, born')
    ensures RoundsDone(k', lib, born, agents, lib', mark, born')
  {
    forall q | q in lib.queues
      ensures SurvivesRounds(k', lib, born, lib', q)
    {
      assert SurvivesRounds(k', lib1, born, lib', q);
    }
  }

  /** Under the driver's contract an update meets no fatal error, and leaves exactly the driver's
      queues on devices that can be debugged, as of the last answer: each with its device, and
      under an identifier that was never given to another incarnation. */
  lemma UpdateIsExact(k: Kernel, lib: Library, born: Born, answers: seq<Answer>, kernels: seq<Kernel>, agents: map<nat, bool>)
    returns (born': Born)
    requires Linked(k, lib, born, agents) && IdsGiven(k, lib, born) && Complete(lib)
    requires Enough(|lib.queues| + 16, answers) && Answered(k, |lib.queues| + 16, answers, kernels, agents)
    ensures var r := Updated(lib, answers, agents);
      var k' := LastKernel(|lib.queues| + 16, answers, kernels, k, agents);
      && r.Some? && Exact(k', r.value, born', agents)
      && Linked(k', r.value, born', agents) && IdsGiven(k', r.value, born') && Complete(r.value)
      && Extends(born, born') && r.value.attaching == lib.attaching
      && (forall q :: q in lib.queues && Debuggable(k', agents, lib.queues[q].os) ==> SurvivesRounds(k', lib, born, r.value, q))
  {
    var request := |lib.queues| + 16;
    born' := RoundsKeepLink(k, lib, born, request, answers, kernels, agents);
    var (lib1, mark) := Rounds(lib, request, answers, agents).value;
    SweepIsExact(LastKernel(request, answers, kernels, k, agents), lib, born, agents, lib1, mark, born');
  }

  lemma SweepIsExact(k': Kernel, lib: Library, born: Born, agents: map<nat, bool>, lib1: Library, mark: nat, born': Born)
    requires RoundsDone(k', lib, born, agents, lib1, mark, born')
    ensures var lib' := Swept(lib1, mark);
      && Exact(k', lib', born', agents) && Linked(k', lib', born', agents) && IdsGiven(k', lib', born') && Complete(lib')
      && (forall q :: q in lib.queues && Debuggable(k', agents, lib.queues[q].os) ==> SurvivesRounds(k', lib, born, lib', q))
  {
    var lib' := Swept(lib1, mark);
    forall q | q in lib'.queues
      ensures Debuggable(k', agents, lib'.queues[q].os)
      ensures QueueLinked(k', lib', born', agents, q) && IsExact(k', lib', born', q)
    {
      assert QueueLinked(k', lib1, born', agents, q);
      assert IsCurrent(lib1, q, lib1.queues[q].os, mark);
      assert Current(lib1, lib1.queues[q].os, mark);
    }
    forall os
      ensures HasOs(lib', os) <==> Debuggable(k', agents, os)
    {
      if Debuggable(k', agents, os) {
        var q :| IsCurrent(lib1, q, os, mark);
        assert IsQueue(lib', q, os);
      }
      if HasOs(lib', os) {
        assert Debuggable(k', agents, lib'.queues[Find(lib', os)].os);
      }
    }
    SameIds(k', lib1, lib', born');
    forall q | q in lib.queues && Debuggable(k', agents, lib.queues[q].os)
      ensures SurvivesRounds(k', lib, born, lib', q)
    {
      assert SurvivesRounds(k', lib, born, lib1, q);
      var p :| IsCurrent(lib1, p, lib.queues[q].os, mark);
    }
  }

  // ----- events on new queues -----

  /** A queue made up to hold an event on a new queue until the update fills it in. */
  ghost function Held(lib: Library, os: nat): Library {
    Replaced(lib, LibQueue(os, None, 0))
  }

  /** An event on a new queue is returned if and only if that very incarnation is still there at
      the end of the update, on a device that can be debugged; it is then returned with the
      identifier made up for it, completed with its device. */
  lemma EventQueueIsExact(k: Kernel, lib: Library, born: Born, os: nat, answers: seq<Answer>, kernels: seq<Kernel>,
    agents: map<nat, bool>) returns (born': Born)
    requires Linked(k, lib, born, agents) && IdsGiven(k, lib, born) && !lib.attaching
    requires os in k.live && k.live[os].isNew
    requires Enough(|Held(lib, os).queues| + 16, answers)
    requires Answered(Reported(k, os), |Held(lib, os).queues| + 16, answers, kernels, agents)
    ensures var r := Updated(Held(lib, os), answers, agents);
      var k' := LastKernel(|Held(lib, os).queues| + 16, answers, kernels, Reported(k, os), agents);
      && r.Some? && Exact(k', r.value, born', agents)
      && (lib.nextId in r.value.queues <==> Debuggable(k', agents, os) && k'.live[os].incarnation == k.live[os].incarnation)
      && (lib.nextId in r.value.queues ==>
            r.value.queues[lib.nextId].os == os && r.value.queues[lib.nextId].agent == Some(k.live[os].gpu))
  {
    var k1, lib1, id := Reported(k, os), Held(lib, os), lib.nextId;
    var request := |lib1.queues| + 16;
    ReplacementIsSound(k, lib, born, LibQueue(os, None, 0), agents);
    var born1 := born[id := k.live[os].incarnation];
    born' := UpdateIsExact(k1, lib1, born1, answers, kernels, agents);
    var lib' := Updated(lib1, answers, agents).value;
    var k' := LastKernel(request, answers, kernels, k1, agents);
    assert Debuggable(k', agents, os) ==> SurvivesRounds(k', lib1, born1, lib', id);
    if id in lib'.queues {
      assert IsExact(k', lib', born', id) && HasOs(lib', lib'.queues[id].os) by { assert IsQueue(lib', id, lib'.queues[id].os); }
      OldQueuesWereThere(k1, request, answers, kernels, agents, lib'.queues[id].os);
      GpuStays(k1, request, answers, kernels, agents, os);
    }
  }

  lemma {:induction false} GpuStays(k: Kernel, request: nat, answers: seq<Answer>, kernels: seq<Kernel>,
    agents: map<nat, bool>, os: nat)
    requires Enough(request, answers) && Answered(k, request, answers, kernels, agents)
    requires var k' := LastKernel(request, answers, kernels, k, agents);
      os in k'.live && k'.live[os].incarnation < k.nextIncarnation
    ensures os in k.live && k.live[os].gpu == LastKernel(request, answers, kernels, k, agents).live[os].gpu
    decreases |answers|
  {
    var k1 := kernels[0];
    if answers[0].Snapshot? {
      ReportedKeeps(k1, answers[0].entries);
      if answers[0].total > request {
        GpuStays(AllReported(k1, answers[0].entries), answers[0].total + 16, answers[1..], kernels[1..], agents, os);
        OldQueuesWereThere(AllReported(k1, answers[0].entries), answers[0].total + 16, answers[1..], kernels[1..], agents, os);
      }
    }
    assert Survives(k, k1, os) || Appears(k, k1, os);
  }

  // ----- whole runs -----

  /** An update, an event on a new queue, the update that ends an attachment, or a queue found
      invalid when it was to be suspended, with the driver's state when it begins. */
  datatype Step =
    | Update(k: Kernel, answers: seq<Answer>, kernels: seq<Kernel>)
    | Event(k: Kernel, os: nat, answers: seq<Answer>, kernels: seq<Kernel>)
    | Attach(k: Kernel, answers: seq<Answer>, kernels: seq<Kernel>)
    | Invalidate(k: Kernel, q: nat)

  /** The library a step's update starts from, and the driver's state it starts in. */
  ghost function Begun(lib: Library, step: Step): Library {
    if step.Event? then Held(lib, step.os) else lib
  }

  ghost function BegunIn(step: Step): Kernel
    requires step.Event? ==> step.os in step.k.live
  {
    if step.Event? then Reported(step.k, step.os) else step.k
  }

  /** Events are only reported once the library has attached, and a queue is found invalid only
      when the driver has removed it. */
  ghost predicate Allowed(k: Kernel, lib: Library, step: Step, agents: map<nat, bool>) {
    if step.Invalidate? then
      Evolves(k, step.k) && step.q in lib.queues && Removed(step.k, lib.queues[step.q].os)
    else Evolves(k, step.k) && AllowedUpdate(lib, step, agents)
  }

  /** The queue reported under that number is gone. */
  ghost predicate Removed(k: Kernel, os: nat) {
    os in k.live ==> k.live[os].isNew
  }

  ghost predicate AllowedUpdate(lib: Library, step: Step, agents: map<nat, bool>)
    requires !step.Invalidate?
  {
    && (step.Event? ==> !lib.attaching && step.os in step.k.live && step.k.live[step.os].isNew)
    && (step.Attach? ==> lib.attaching)
    && Enough(|Begun(lib, step).queues| + 16, step.answers)
    && Answered(BegunIn(step), |Begun(lib, step).queues| + 16, step.answers, step.kernels, agents)
  }

  ghost function EndedIn(k: Kernel, lib: Library, step: Step, agents: map<nat, bool>): Kernel
    requires Allowed(k, lib, step, agents)
  {
    if step.Invalidate? then step.k else LastKernel(|Begun(lib, step).queues| + 16, step.answers, step.kernels, BegunIn(step), agents)
  }

  function Attached(lib: Library): Library {
    lib.(attaching := false)
  }

  /** The library after a step; None stands for a fatal error. */
  ghost function Ended(k: Kernel, lib: Library, step: Step, agents: map<nat, bool>): Option<Library>
    requires Allowed(k, lib, step, agents)
  {
    if step.Invalidate? then Some(Invalidated(lib, step.q))
    else
      match Updated(Begun(lib, step), step.answers, agents)
      case None => None
      case Some(lib') => Some(if step.Attach? then Attached(lib') else lib')
  }

  /** Nothing depends on a queue whose hardware queue is gone. */
  lemma InvalidatedIsLinked(k: Kernel, lib: Library, born: Born, agents: map<nat, bool>, q: nat)
    requires Linked(k, lib, born, agents) && IdsGiven(k, lib, born) && q in lib.queues && Removed(k, lib.queues[q].os)
    ensures var lib' := Invalidated(lib, q);
      Linked(k, lib', born, agents) && IdsGiven(k, lib', born) && (Complete(lib) ==> Complete(lib'))
  {
    var lib' := Invalidated(lib, q);
    forall p | p in lib'.queues
      ensures QueueLinked(k, lib', born, agents, p)
    {
      assert QueueLinked(k, lib, born, agents, p);
    }
    forall os | Debuggable(k, agents, os) && !k.live[os].isNew && !lib.attaching
      ensures HasOs(lib', os)
    {
      var p := Find(lib, os);
      assert IsQueue(lib', p, os);
    }
    SameIds(k, lib, lib', born);
  }

  /** Once the list is exact, nothing that was excused while attaching is outstanding. */
  lemma AttachedIsLinked(k: Kernel, lib: Library, born: Born, agents: map<nat, bool>)
    requires Linked(k, lib, born, agents) && IdsGiven(k, lib, born) && Exact(k, lib, born, agents)
    ensures var lib' := Attached(lib);
      Linked(k, lib', born, agents) && IdsGiven(k, lib', born) && Exact(k, lib', born, agents) && Complete(lib')
  {
    var lib' := Attached(lib);
    forall os
      ensures HasOs(lib', os) <==> HasOs(lib, os)
    {
      forall q ensures IsQueue(lib', q, os) <==> IsQueue(lib, q, os) {}
    }
    forall q | q in lib'.queues
      ensures QueueLinked(k, lib', born, agents, q) && IsExact(k, lib', born, q)
    {
      assert QueueLinked(k, lib, born, agents, q) && IsExact(k, lib, born, q);
    }
    SameIds(k, lib, lib', born);
  }

  /** What holds of the library before and after every step. */
  ghost predicate Good(k: Kernel, lib: Library, born: Born, agents: map<nat, bool>) {
    Linked(k, lib, born, agents) && IdsGiven(k, lib, born) && Complete(lib)
  }

  lemma UpdateStepIsExact(k: Kernel, lib: Library, born: Born, step: Step, agents: map<nat, bool>) returns (born': Born)
    requires Good(step.k, lib, born, agents) && !step.Invalidate? && AllowedUpdate(lib, step, agents)
    ensures var r := Updated(Begun(lib, step), step.answers, agents);
      var k' := LastKernel(|Begun(lib, step).queues| + 16, step.answers, step.kernels, BegunIn(step), agents);
      && r.Some? && Exact(k', r.value, born', agents) && Extends(born, born') && Good(k', r.value, born', agents)
      && r.value.attaching == lib.attaching
  {
    if step.Event? {
      ReplacementIsSound(step.k, lib, born, LibQueue(step.os, None, 0), agents);
      born' := UpdateIsExact(BegunIn(step), Begun(lib, step), born[lib.nextId := step.k.live[step.os].incarnation],
                             step.answers, step.kernels, agents);
    } else {
      born' := UpdateIsExact(step.k, lib, born, step.answers, step.kernels, agents);
    }
  }

  lemma StepIsExact(k: Kernel, lib: Library, born: Born, step: Step, agents: map<nat, bool>) returns (born': Born)
    requires Good(k, lib, born, agents) && Allowed(k, lib, step, agents)
    ensures var r := Ended(k, lib, step, agents);
      var k' := EndedIn(k, lib, step, agents);
      && r.Some? && (Exact(k', r.value, born', agents) || step.Invalidate?) && Extends(born, born')
      && Good(k', r.value, born', agents)
      && r.value.attaching == (lib.attaching && !step.Attach?)
  {
    EvolutionKeepsLink(k, step.k, lib, born, agents);
    if step.Invalidate? {
      born' := born;
      InvalidatedIsLinked(step.k, lib, born, agents, step.q);
    } else {
      born' := UpdateStepIsExact(k, lib, born, step, agents);
      if step.Attach? {
        AttachedIsLinked(EndedIn(k, lib, step, agents), Updated(lib, step.answers, agents).value, born', agents);
      }
    }
  }

  ghost predicate LegalRun(k: Kernel, lib: Library, steps: seq<Step>, agents: map<nat, bool>)
    decreases |steps|
  {
    steps == [] || (
      && Allowed(k, lib, steps[0], agents)
      && var r := Ended(k, lib, steps[0], agents);
         r.Some? ==> LegalRun(EndedIn(k, lib, steps[0], agents), r.value, steps[1..], agents))
  }

  /** The outcome of a run; None stands for a fatal error on the way. */
  ghost function RunOf(k: Kernel, lib: Library, steps: seq<Step>, agents: map<nat, bool>): Option<(Kernel, Library)>
    requires LegalRun(k, lib, steps, agents)
    decreases |steps|
  {
    if steps == [] then Some((k, lib))
    else
      match Ended(k, lib, steps[0], agents)
      case None => None
      case Some(next) => RunOf(EndedIn(k, lib, steps[0], agents), next, steps[1..], agents)
  }

  /** An attachment ends during the run. */
  ghost predicate Attaches(steps: seq<Step>) {
    steps != [] && (steps[0].Attach? || Attaches(steps[1..]))
  }

  /** The last step of the run is an update. */
  ghost predicate EndsUpdated(steps: seq<Step>) {
    steps != [] && if |steps| == 1 then !steps[0].Invalidate? else EndsUpdated(steps[1..])
  }

  /** What holds at the end of a run. */
  ghost predicate RunIsExact(k: Kernel, lib: Library, born: Born, steps: seq<Step>, agents: map<nat, bool>, born': Born)
    requires LegalRun(k, lib, steps, agents)
  {
    var r := RunOf(k, lib, steps, agents);
    && r.Some? && Extends(born, born') && Linked(r.value.0, r.value.1, born', agents)
    && (EndsUpdated(steps) ==> Exact(r.value.0, r.value.1, born', agents))
    && (r.value.1.attaching <==> lib.attaching && !Attaches(steps))
    && (steps == [] ==> born' == born)
  }

  /** Over any run of updates, events, queues found invalid and the end of an attachment no fatal
      error is met, the list of queues is exact after every update, and no identifier is ever
      given to a second incarnation. */
  lemma {:induction false} EveryRunIsExact(k: Kernel, lib: Library, born: Born, steps: seq<Step>, agents: map<nat, bool>)
    returns (born': Born)
    requires Good(k, lib, born, agents) && LegalRun(k, lib, steps, agents)
    ensures RunIsExact(k, lib, born, steps, agents, born')
    decreases |steps|
  {
    if steps == [] {
      born' := born;
    } else {
      var born1 := StepIsExact(k, lib, born, steps[0], agents);
      var next, k' := Ended(k, lib, steps[0], agents).value, EndedIn(k, lib, steps[0], agents);
      RestOfRun(k, lib, steps, agents);
      born' := EveryRunIsExact(k', next, born1, steps[1..], agents);
      FirstThenRest(k, lib, born, steps, agents, born1, born');
    }
  }

  lemma FirstThenRest(k: Kernel, lib: Library, born: Born, steps: seq<Step>, agents: map<nat, bool>, born1: Born, born': Born)
    requires LegalRun(k, lib, steps, agents) && steps != [] && Ended(k, lib, steps[0], agents).Some? && Extends(born, born1)
    requires var next, k' := Ended(k, lib, steps[0], agents).value, EndedIn(k, lib, steps[0], agents);
      && (Exact(k', next, born1, agents) || steps[0].Invalidate?)
      && next.attaching == (lib.attaching && !steps[0].Attach?)
      && LegalRun(k', next, steps[1..], agents) && RunIsExact(k', next, born1, steps[1..], agents, born')
    ensures RunIsExact(k, lib, born, steps, agents, born')
  {
    RestOfRun(k, lib, steps, agents);
    if |steps| == 1 { assert steps[1..] == []; }
  }

  lemma RestOfRun(k: Kernel, lib: Library, steps: seq<Step>, agents: map<nat, bool>)
    requires LegalRun(k, lib, steps, agents) && steps != [] && Ended(k, lib, steps[0], agents).Some?
    ensures var next, k' := Ended(k, lib, steps[0], agents).value, EndedIn(k, lib, steps[0], agents);
      LegalRun(k', next, steps[1..], agents) && RunOf(k, lib, steps, agents) == RunOf(k', next, steps[1..], agents)
  {
  }

  /** A process without queues of its own is linked to a driver that has reported none, or that
      it is attaching to. */
  lemma StartIsLinked(k: Kernel, attaching: bool, agents: map<nat, bool>)
    requires ValidKernel(k) && (attaching || forall os :: os in k.live ==> k.live[os].isNew)
    ensures var lib := Library(map[], 1, 1, attaching);
      Good(k, lib, map[], agents)
  {
  }

  // ----- the process -----

  class ProcessQueues {
    var queues: map<nat, LibQueue>
    var nextId: nat
    var nextMark: nat
    var attaching: bool
    var loaded: bool

    ghost function Abs(): Library
      reads this
    {
      Library(queues, nextId, nextMark, attaching)
    }

    /** A process without queues, whose runtime is loaded or not. */
    constructor (attaching: bool, loaded: bool)
      ensures Abs() == Library(map[], 1, 1, attaching) && this.loaded == loaded
    {
      this.loaded := loaded;
      queues := map[];
      nextId := 1;
      nextMark := 1;
      this.attaching := attaching;
    }

    method FindByOs(os: nat) returns (found: Option<nat>)
      requires UniqueOs(Abs()) && os < INVALID
      ensures found == if HasOs(Abs(), os) then Some(Find(Abs(), os)) else None
    {
      found := None;
      var rest := queues.Keys;
      while rest != {} && found.None?
        invariant rest <= queues.Keys
        invariant found.Some? ==> IsQueue(Abs(), found.value, os)
        invariant found.None? ==> forall q :: IsQueue(Abs(), q, os) ==> q in rest
        decreases |rest|
      {
        var q :| q in rest;
        if queues[q].os == os { found := Some(q); }
        rest := rest - {q};
      }
    }

    method Create(x: LibQueue)
      modifies this
      ensures loaded == old(loaded)
      ensures Abs() == Created(old(Abs()), x)
    {
      queues := queues[nextId := x];
      nextId := nextId + 1;
    }

    /** Creates a queue under a new identifier, in place of a stale one. */
    method Replace(x: LibQueue)
      requires UniqueOs(Abs()) && x.os < INVALID
      modifies this
      ensures loaded == old(loaded) && Abs() == Replaced(old(Abs()), x)
    {
      var stale := FindByOs(x.os);
      if stale.Some? { queues := queues - {stale.value}; }
      Create(x);
    }

    method HandleEntry(e: Entry, mark: nat, agents: map<nat, bool>) returns (fatal: bool)
      requires UniqueOs(Abs()) && e.os < INVALID
      modifies this
      ensures loaded == old(loaded)
      ensures fatal <==> AfterEntry(old(Abs()), e, mark, agents).None?
      ensures !fatal ==> AfterEntry(old(Abs()), e, mark, agents) == Some(Abs())
    {
      ghost var before := Abs();
      if e.gpu !in agents { return true; }
      if !agents[e.gpu] { return false; }
      if e.isNew {
        Replace(LibQueue(e.os, Some(e.gpu), mark));
        return false;
      }
      var queue := FindByOs(e.os);
      assert Abs() == before;
      if attaching {
        if queue.Some? {
          queues := queues[queue.value := queues[queue.value].(mark := mark)];
        } else {
          Create(LibQueue(e.os, Some(e.gpu), mark));
        }
        return false;
      }
      if queue.None? { return true; }
      var agent := queues[queue.value].agent;
      if agent.None? {
        queues := queues[queue.value := LibQueue(e.os, Some(e.gpu), mark)];
      } else if agent != Some(e.gpu) {
        return true;
      } else {
        queues := queues[queue.value := queues[queue.value].(mark := mark)];
      }
      return false;
    }

    method HandleEntries(entries: seq<Entry>, mark: nat, agents: map<nat, bool>) returns (fatal: bool)
      requires UniqueOs(Abs()) && NumbersOk(entries)
      modifies this
      ensures loaded == old(loaded)
      ensures fatal <==> AfterEntries(old(Abs()), entries, mark, agents).None?
      ensures !fatal ==> AfterEntries(old(Abs()), entries, mark, agents) == Some(Abs())
      ensures UniqueOs(Abs()) || fatal
    {
      ghost var before := Abs();
      var i := 0;
      fatal := false;
      while i < |entries| && !fatal
        invariant i <= |entries| && loaded == old(loaded) && (!fatal ==> UniqueOs(Abs()))
        invariant !fatal ==> AfterEntries(before, entries, mark, agents) == AfterEntries(Abs(), entries[i..], mark, agents)
        invariant fatal ==> AfterEntries(before, entries, mark, agents) == None
        decreases |entries| - i, !fatal
      {
        ghost var now := Abs();
        fatal := HandleEntry(entries[i], mark, agents);
        if !fatal { EntryKeepsUnique(now, entries[i], mark, agents); }
        assert entries[i..][1..] == entries[i + 1..];
        i := i + 1;
      }
    }

    /** Refreshes the list of queues with the driver's answers; before the runtime is loaded there
        is nothing to refresh. */
    method UpdateQueues(answers: seq<Answer>, agents: map<nat, bool>) returns (fatal: bool)
      requires UniqueOs(Abs()) && Enough(|queues| + 16, answers) && AnswersOk(answers)
      modifies this
      ensures loaded == old(loaded)
      ensures !loaded ==> !fatal && Abs() == old(Abs())
      ensures loaded ==> (fatal <==> Updated(old(Abs()), answers, agents).None?)
      ensures loaded && !fatal ==> Updated(old(Abs()), answers, agents) == Some(Abs())
    {
      if !loaded { return false; }
      var mark;
      fatal, mark := RunRounds(answers, agents);
      if !fatal { Sweep(mark); }
    }

    /** Asks the driver until an answer is complete. */
    method RunRounds(answers: seq<Answer>, agents: map<nat, bool>) returns (fatal: bool, mark: nat)
      requires UniqueOs(Abs()) && Enough(|queues| + 16, answers) && AnswersOk(answers)
      modifies this
      ensures loaded == old(loaded)
      ensures fatal <==> Rounds(old(Abs()), |old(queues)| + 16, answers, agents).None?
      ensures !fatal ==> Rounds(old(Abs()), |old(queues)| + 16, answers, agents) == Some((Abs(), mark))
    {
      ghost var before := Abs();
      var count: nat, i: nat, more := |queues|, 0, true;
      fatal, mark := false, 0;
      ghost var rounds := Rounds(before, |queues| + 16, answers, agents);
      while more && !fatal
        invariant !fatal ==> UniqueOs(Abs())
        invariant i <= |answers| && loaded == old(loaded)
        invariant RoundsLeft(rounds, Abs(), fatal, mark, more, count, answers[i..], agents)
        decreases |answers| - i, more && !fatal
      {
        assert answers[i..][0] == answers[i] && answers[i..][1..] == answers[i + 1..];
        assert answers[i].Snapshot? ==> NumbersOk(answers[i].entries);
        fatal, mark, more, count := RunRound(answers[i], count + 16, agents);
        i := i + 1;
      }
    }

    /** What is still to be done for the rounds to come out as specified. */
    static ghost predicate RoundsLeft(rounds: Option<(Library, nat)>, now: Library, fatal: bool, mark: nat, more: bool,
      count: nat, rest: seq<Answer>, agents: map<nat, bool>)
    {
      if fatal then rounds == None
      else if !more then rounds == Some((now, mark))
      else Enough(count + 16, rest) && rounds == Rounds(now, count + 16, rest, agents)
    }

    /** Deals with one answer to a request for a number of queues; tells whether there are more. */
    method RunRound(answer: Answer, request: nat, agents: map<nat, bool>)
      returns (fatal: bool, mark: nat, more: bool, count: nat)
      requires UniqueOs(Abs()) && (answer.Snapshot? ==> NumbersOk(answer.entries))
      modifies this
      ensures loaded == old(loaded) && mark == old(nextMark) && (!fatal ==> UniqueOs(Abs()))
      ensures more <==> answer.Snapshot? && answer.total > request
      ensures answer.Exited? ==> !fatal && Abs() == AllInvalid(old(Abs()).(nextMark := mark + 1))
      ensures answer.Snapshot? ==> count == answer.total
      ensures answer.Snapshot? ==>
        var r := AfterEntries(old(Abs()).(nextMark := mark + 1), answer.entries, mark, agents);
        if fatal then r == None else r == Some(Abs())
    {
      mark := nextMark;
      nextMark := nextMark + 1;
      assert Abs() == old(Abs()).(nextMark := mark + 1);
      match answer {
        case Exited =>
          fatal, count := false, 0;
          InvalidateAll();
        case Snapshot(entries, total) =>
          fatal := HandleEntries(entries, mark, agents);
          count := total;
      }
      more := count > request;
    }

    /** Marks a queue that the driver reported as gone. */
    method Invalidate(q: nat)
      requires q in queues
      modifies this`queues
      ensures Abs() == Invalidated(old(Abs()), q)
    {
      queues := queues[q := Invalid(queues[q])];
    }

    method InvalidateAll()
      modifies this
      ensures loaded == old(loaded)
      ensures Abs() == AllInvalid(old(Abs()))
    {
      ghost var before := queues;
      var rest := queues.Keys;
      while rest != {}
        invariant rest <= queues.Keys == before.Keys
        invariant nextId == old(nextId) && nextMark == old(nextMark) && attaching == old(attaching) && loaded == old(loaded)
        invariant forall q :: q in queues ==> queues[q] == if q in rest then before[q] else Invalid(before[q])
        decreases |rest|
      {
        var q :| q in rest;
        Invalidate(q);
        rest := rest - {q};
      }
      assert queues == AllInvalid(old(Abs())).queues;
    }

    /** Takes over the queues of a process whose runtime was enabled before. */
    method Attach(answers: seq<Answer>, agents: map<nat, bool>) returns (fatal: bool)
      requires loaded && UniqueOs(Abs()) && Enough(|queues| + 16, answers) && AnswersOk(answers)
      modifies this
      ensures fatal <==> Updated(old(Abs()).(attaching := true), answers, agents).None?
      ensures !fatal ==> Abs() == Attached(Updated(old(Abs()).(attaching := true), answers, agents).value)
    {
      attaching := true;
      assert Abs() == old(Abs()).(attaching := true);
      fatal := UpdateQueues(answers, agents);
      attaching := false;
    }

    method Sweep(mark: nat)
      modifies this
      ensures loaded == old(loaded)
      ensures Abs() == Swept(old(Abs()), mark)
    {
      ghost var before := queues;
      var rest := queues.Keys;
      while rest != {}
        invariant rest <= queues.Keys <= before.Keys && nextId == old(nextId) && nextMark == old(nextMark)
        invariant attaching == old(attaching) && loaded == old(loaded)
        invariant forall q :: q in queues ==> queues[q] == before[q]
        invariant forall q :: q in before && q !in rest ==> (q in queues <==> before[q].mark >= mark)
        decreases |rest|
      {
        var q :| q in rest;
        if queues[q].mark < mark { queues := queues - {q}; }
        rest := rest - {q};
      }
      assert queues == Swept(old(Abs()), mark).queues;
    }

    /** Handles an event on a queue reported as new, which is dropped if that queue is gone. */
    method NewQueueEvent(os: nat, answers: seq<Answer>, agents: map<nat, bool>) returns (fatal: bool, queue: Option<nat>)
      requires loaded && UniqueOs(Abs()) && os < INVALID && Enough(|Held(Abs(), os).queues| + 16, answers) && AnswersOk(answers)
      modifies this
      ensures fatal <==> Updated(Held(old(Abs()), os), answers, agents).None?
      ensures !fatal ==> Updated(Held(old(Abs()), os), answers, agents) == Some(Abs())
      ensures !fatal ==> queue == if old(nextId) in queues then Some(old(nextId)) else None
    {
      var id := nextId;
      ReplacedIsUnique(Abs(), LibQueue(os, None, 0));
      Replace(LibQueue(os, None, 0));
      fatal := UpdateQueues(answers, agents);
      queue := if id in queues then Some(id) else None;
    }
  }

  lemma ReplacedIsUnique(lib: Library, x: LibQueue)
    requires UniqueOs(lib) && x.os < INVALID
    ensures UniqueOs(Replaced(lib, x))
  {
    var lib' := Replaced(lib, x);
    forall q | q in lib'.queues && q != lib.nextId
      ensures lib'.queues[q].os != x.os
    {
      assert lib.queues[q].os == x.os ==> IsQueue(lib, q, x.os);
    }
  }

  lemma EntryKeepsUnique(lib: Library, e: Entry, mark: nat, agents: map<nat, bool>)
    requires UniqueOs(lib) && e.os < INVALID && AfterEntry(lib, e, mark, agents).Some?
    ensures UniqueOs(AfterEntry(lib, e, mark, agents).value)
  {
    ReplacedIsUnique(lib, LibQueue(e.os, Some(e.gpu), mark));
  }
}
