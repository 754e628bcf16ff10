/** The store's handlers as they run beside each other under the read-write lock: a change
    checks its ids under the read lock, gives it up, and writes under the write lock. */
module PetHandlers {
  import opened Counts
  import opened PetIndex
  import opened PetStore
  import opened PetSearch

  datatype Call = Change(request: Request) | Search(f: Filter)

  /** Where a handler is: not begun; under the read lock, with the store it found there; past its
      id check; waiting for the readers to leave; under the write lock; returned; or a search
      whose reader has gone away, blocked on a send with the read lock held. */
  datatype Phase = Begin | Reading(seen: Store) | Checked | Waiting | Writing | Returned(outcome: Outcome) | Stranded

  datatype Handler = Handler(call: Call, phase: Phase)

  /** `readers` counts the read locks that are held. */
  datatype State = State(store: Store, readers: nat, handlers: seq<Handler>)

  datatype Step = RLock(i: nat) | Look(i: nat) | Strand(i: nat) | Announce(i: nat) | Acquire(i: nat) | Write(i: nat)

  predicate IsWriter(h: Handler) {
    h.phase.Waiting? || h.phase.Writing?
  }

  /** A waiting writer keeps later readers and writers out. */
  predicate NoWriter(s: State) {
    forall i | 0 <= i < |s.handlers| :: !IsWriter(s.handlers[i])
  }

  predicate ReadsFirst(call: Call) {
    call.Search? || !call.request.DeletePets?
  }

  /** The channel of a search holds one item, so with one refused by the stream and one in the
      channel a third one blocks. A search without criteria watches its context instead. */
  ghost predicate MayStrand(s: Store, call: Call) {
    && call.Search? && Criteria(call.f) > 0
    && exists a, b, c :: a != b && b != c && a != c && Selected(s, call.f, a) && Selected(s, call.f, b)
                         && Selected(s, call.f, c)
  }

  /** So a search by some criterion may get stuck exactly when it sends three items or more. */
  lemma MayStrandIff(s: Store, call: Call, sent: seq<string>)
    requires call.Search? && Sends(s, call.f, sent)
    ensures MayStrand(s, call) <==> Criteria(call.f) > 0 && |sent| >= 3
  {
    hide Selected;
    forall id ensures Selected(s, call.f, id) <==> id in sent {
      assert multiset(sent)[id] == if Selected(s, call.f, id) then 1 else 0;
    }
    if MayStrand(s, call) {
      var a, b, c :| a != b && b != c && a != c && Selected(s, call.f, a) && Selected(s, call.f, b)
                     && Selected(s, call.f, c);
      assert a in sent && b in sent && c in sent;
    } else if |sent| >= 3 {
      SentApart(s, call.f, sent, 0, 1);
      SentApart(s, call.f, sent, 1, 2);
      SentApart(s, call.f, sent, 0, 2);
      assert Selected(s, call.f, sent[0]) && Selected(s, call.f, sent[1]) && Selected(s, call.f, sent[2]);
    }
  }

  lemma SentApart(s: Store, f: Filter, sent: seq<string>, i: nat, j: nat)
    requires Sends(s, f, sent) && i < j < |sent|
    ensures sent[i] != sent[j]
  {
    if sent[i] == sent[j] {
      RepeatCounts(sent, i, j);
    }
  }

  ghost predicate Enabled(s: State, step: Step) {
    && step.i < |s.handlers|
    && var h := s.handlers[step.i];
       match step
       case RLock(_) => h.phase.Begin? && ReadsFirst(h.call) && NoWriter(s)
       case Look(_) => h.phase.Reading? && ReadsFirst(h.call) && s.readers > 0
       case Strand(_) => h.phase.Reading? && MayStrand(s.store, h.call)
       case Announce(_) => (if ReadsFirst(h.call) then h.phase.Checked? else h.phase.Begin?) && NoWriter(s)
       case Acquire(_) => h.phase.Waiting? && s.readers == 0
       case Write(_) => h.phase.Writing? && h.call.Change?
  }

  function To(s: State, i: nat, phase: Phase): State
    requires i < |s.handlers|
  {
    s.(handlers := s.handlers[i := s.handlers[i].(phase := phase)])
  }

  /** The end of the part under the read lock. A rejection returns without giving the lock up. */
  function AfterLook(s: State, i: nat): State
    requires i < |s.handlers| && ReadsFirst(s.handlers[i].call) && s.readers > 0
  {
    match s.handlers[i].call
    case Search(_) => To(s, i, Returned(Done)).(readers := s.readers - 1)
    case Change(request) =>
      var pets := request.pets;
      var bad := FirstBad(s.store, pets, request.UpdatePets?);
      if bad < |pets| then To(s, i, Returned(Rejected(pets[bad].id)))
      else To(s, i, Checked).(readers := s.readers - 1)
  }

  function SectionOf(request: Request): Section {
    if request.DeletePets? then Erasing(request.ids) else Populating(request.pets)
  }

  ghost function Do(s: State, step: Step): (t: State)
    requires Enabled(s, step)
    ensures |t.handlers| == |s.handlers|
  {
    match step
    case RLock(i) => To(s, i, Reading(s.store)).(readers := s.readers + 1)
    case Look(i) => AfterLook(s, i)
    case Strand(i) => To(s, i, Stranded)
    case Announce(i) => To(s, i, Waiting)
    case Acquire(i) => To(s, i, Writing)
    case Write(i) =>
      To(s, i, Returned(Done)).(store := RunSection(s.store, SectionOf(s.handlers[i].call.request)))
  }

  ghost predicate Runs(s: State, steps: seq<Step>)
    decreases steps, 0
  {
    steps == [] ||
    (Runs(s, steps[..|steps| - 1]) && Enabled(After(s, steps[..|steps| - 1]), steps[|steps| - 1]))
  }

  ghost function After(s: State, steps: seq<Step>): (t: State)
    requires Runs(s, steps)
    ensures |t.handlers| == |s.handlers|
    decreases steps, 1
  {
    if steps == [] then s else Do(After(s, steps[..|steps| - 1]), steps[|steps| - 1])
  }

  /** Under the write lock, in whatever interleaving, a change does just what it asks for. */
  lemma WriteStores(s: State, i: nat)
    requires Enabled(s, Write(i))
    ensures var request, after := s.handlers[i].call.request, Do(s, Write(i)).store;
            if request.DeletePets? then Erased(s.store, request.ids, after)
            else Overlaid(s.store, request.pets, after)
  {
    hide Overlaid, Erased;
    var request := s.handlers[i].call.request;
    if request.DeletePets? {
      EraseErases(s.store, request.ids);
    } else {
      PopulateOverlays(s.store, request.pets);
    }
  }

  lemma Extend(s: State, steps: seq<Step>, step: Step)
    requires Runs(s, steps) && Enabled(After(s, steps), step)
    ensures Runs(s, steps + [step]) && After(s, steps + [step]) == Do(After(s, steps), step)
  {
    assert (steps + [step])[..|steps|] == steps;
  }

  /** A store with handlers that have not begun. */
  predicate Fresh(s: State) {
    s.readers == 0 && forall i | 0 <= i < |s.handlers| :: s.handlers[i].phase.Begin?
  }

  // ---- The lock ----

  /** A lock that nobody will give up. */
  predicate Leaks(h: Handler) {
    h.phase.Stranded? || (h.phase.Returned? && h.phase.outcome.Rejected?)
  }

  predicate HoldsRead(h: Handler) {
    h.phase.Reading? || Leaks(h)
  }

  function ReadHolders(handlers: seq<Handler>): set<nat> {
    set i | 0 <= i < |handlers| && HoldsRead(handlers[i])
  }

  /** The read locks held are those of readers at work and of leaks; there is at most
      one writer; no reader is at work beside one that writes; and a reader sees one store. */
  predicate LockOk(s: State) {
    && s.readers == |ReadHolders(s.handlers)|
    && (forall i, j | 0 <= i < j < |s.handlers| :: !IsWriter(s.handlers[i]) || !IsWriter(s.handlers[j]))
    && (forall i | 0 <= i < |s.handlers| && s.handlers[i].phase.Writing? :: s.readers == 0)
    && (forall i | 0 <= i < |s.handlers| && s.handlers[i].phase.Reading? :: s.handlers[i].phase.seen == s.store)
  }

  lemma HolderMoves(handlers: seq<Handler>, i: nat, h: Handler)
    requires i < |handlers|
    ensures |ReadHolders(handlers[i := h])| + One(HoldsRead(handlers[i])) == |ReadHolders(handlers)| + One(HoldsRead(h))
  {
    hide One;
    DiffersAt(ReadHolders(handlers), ReadHolders(handlers[i := h]), i);
  }

  lemma NoHolders(s: State, i: nat)
    requires LockOk(s) && i < |s.handlers| && HoldsRead(s.handlers[i])
    ensures s.readers > 0
  {
    assert i in ReadHolders(s.handlers);
  }

  lemma StepKeepsLock(s: State, step: Step)
    requires LockOk(s) && Enabled(s, step)
    ensures LockOk(Do(s, step))
  {
    var t := Do(s, step);
    HolderMoves(s.handlers, step.i, t.handlers[step.i]);
    if step.Write? {
      forall i | 0 <= i < |s.handlers| ensures !HoldsRead(s.handlers[i]) {
        if HoldsRead(s.handlers[i]) {
          NoHolders(s, i);
        }
      }
    }
    hide ReadHolders, RunSection, FirstBad;
  }

  lemma FreshLock(s: State)
    requires Fresh(s)
    ensures LockOk(s)
  {
    assert ReadHolders(s.handlers) == {};
  }

  lemma {:induction false} EveryRunLock(s: State, steps: seq<Step>)
    requires LockOk(s) && Runs(s, steps)
    ensures LockOk(After(s, steps))
  {
    hide LockOk, Enabled;
    if steps != [] {
      EveryRunLock(s, steps[..|steps| - 1]);
      StepKeepsLock(After(s, steps[..|steps| - 1]), steps[|steps| - 1]);
    }
  }

  /** In every interleaving, a search and an id check see the same store from the moment they have
      the read lock to the moment they give it up. */
  lemma ReadersSeeOneStore(s: State, steps: seq<Step>, i: nat)
    requires Fresh(s) && Runs(s, steps) && i < |s.handlers| && After(s, steps).handlers[i].phase.Reading?
    ensures After(s, steps).handlers[i].phase.seen == After(s, steps).store
  {
    FreshLock(s);
    EveryRunLock(s, steps);
  }

  /** And the store is always what a run of write-locked sections makes of the one at the start,
      so that all that holds of such runs holds of every interleaving. */
  lemma {:induction false} InterleavingIsSections(s: State, steps: seq<Step>) returns (sections: seq<Section>)
    requires Runs(s, steps)
    ensures After(s, steps).store == RunSections(s.store, sections)
  {
    if steps == [] {
      sections := [];
    } else {
      var front, last := steps[..|steps| - 1], steps[|steps| - 1];
      sections := InterleavingIsSections(s, front);
      if last.Write? {
        var more := sections + [SectionOf(After(s, front).handlers[last.i].call.request)];
        assert more[..|sections|] == sections;
        sections := more;
      }
    }
  }

  /** In every interleaving of handlers on a new store, a search that has the read lock sends every
      live matching pet exactly once, and no id twice. */
  lemma NoLostResultsUnderLock(handlers: seq<Handler>, steps: seq<Step>, f: Filter, sent: seq<string>)
    requires Fresh(State(EMPTY, 0, handlers)) && Runs(State(EMPTY, 0, handlers), steps)
    requires Sends(After(State(EMPTY, 0, handlers), steps).store, f, sent)
    ensures var s := After(State(EMPTY, 0, handlers), steps).store;
            forall id | id in s.ids && Matches(f, s.ids[id]) :: multiset(sent)[id] == 1
    ensures forall id :: multiset(sent)[id] <= 1
  {
    var sections := InterleavingIsSections(State(EMPTY, 0, handlers), steps);
    NoLostResults(sections, f, sent);
  }

  // ---- A leaked lock ----

  /** A leak, or a reader at work that is bound to be rejected: the store cannot change before it
      looks. */
  predicate Blocks(s: State, h: Handler) {
    || Leaks(h)
    || (h.phase.Reading? && h.call.Change? && !h.call.request.DeletePets?
        && FirstBad(s.store, h.call.request.pets, h.call.request.UpdatePets?) < |h.call.request.pets|)
  }

  predicate SomeBlocks(s: State) {
    exists i :: 0 <= i < |s.handlers| && Blocks(s, s.handlers[i])
  }

  predicate ChangeDone(h: Handler) {
    h.call.Change? && h.phase == Returned(Done)
  }

  lemma StaysBlocked(s: State, step: Step)
    requires LockOk(s) && SomeBlocks(s) && Enabled(s, step)
    ensures SomeBlocks(Do(s, step)) && Do(s, step).store == s.store
    ensures forall i | 0 <= i < |s.handlers| :: ChangeDone(Do(s, step).handlers[i]) ==> ChangeDone(s.handlers[i])
  {
    var i :| 0 <= i < |s.handlers| && Blocks(s, s.handlers[i]);
    NoHolders(s, i);
    BlockerStays(s, step, i);
    hide FirstBad, RunSection, MayStrand, Blocks, NoWriter;
  }

  lemma BlockerStays(s: State, step: Step, i: nat)
    requires LockOk(s) && Enabled(s, step) && i < |s.handlers| && Blocks(s, s.handlers[i]) && s.readers > 0
    ensures Blocks(Do(s, step), Do(s, step).handlers[i]) && Do(s, step).store == s.store && !step.Write?
  {
    hide FirstBad, RunSection, MayStrand, NoWriter;
  }

  /** A rejected change and a stranded search keep their read lock. From then on, in every
      interleaving, no write lock is ever had again: the store stays as it is and no change
      ever succeeds. */
  lemma {:induction false} LeakFreezes(s: State, steps: seq<Step>)
    requires LockOk(s) && SomeBlocks(s) && Runs(s, steps)
    ensures SomeBlocks(After(s, steps))
    ensures After(s, steps).store == s.store
    ensures forall i | 0 <= i < |s.handlers| :: ChangeDone(After(s, steps).handlers[i]) ==> ChangeDone(s.handlers[i])
  {
    hide LockOk, Enabled, SomeBlocks, Do;
    if steps != [] {
      var front := steps[..|steps| - 1];
      LeakFreezes(s, front);
      EveryRunLock(s, front);
      EveryRunLock(s, steps);
      StaysBlocked(After(s, front), steps[|steps| - 1]);
    }
  }

  predicate AllReturned(s: State) {
    forall i | 0 <= i < |s.handlers| :: s.handlers[i].phase.Returned?
  }

  /** A handler never reads, checks or writes for nothing: searches are not written out, and
      deletes do not read; what returns has been done, or is a batch that was rejected. */
  predicate PhasesFit(s: State) {
    forall i | 0 <= i < |s.handlers| ::
      var h := s.handlers[i];
      && (h.phase.Reading? ==> ReadsFirst(h.call))
      && (h.phase.Checked? || IsWriter(h) ==> h.call.Change?)
      && (h.phase.Checked? ==> ReadsFirst(h.call))
      && (h.phase.Returned? ==>
            h.phase.outcome == Done || (h.phase.outcome.Rejected? && ReadsFirst(h.call) && h.call.Change?))
  }

  lemma StepKeepsFit(s: State, step: Step)
    requires PhasesFit(s) && Enabled(s, step)
    ensures PhasesFit(Do(s, step))
  {
    hide FirstBad, RunSection, MayStrand, NoWriter;
  }

  lemma {:induction false} EveryRunFits(s: State, steps: seq<Step>)
    requires PhasesFit(s) && Runs(s, steps)
    ensures PhasesFit(After(s, steps))
  {
    hide PhasesFit, Enabled, Do;
    if steps != [] {
      EveryRunFits(s, steps[..|steps| - 1]);
      StepKeepsFit(After(s, steps[..|steps| - 1]), steps[|steps| - 1]);
    }
  }

  /** Without a leaked lock some handler can step until all have returned. */
  lemma HandlersCanStep(s: State)
    requires LockOk(s) && PhasesFit(s) && !AllReturned(s)
    requires forall i | 0 <= i < |s.handlers| :: !Leaks(s.handlers[i])
    ensures exists step :: Enabled(s, step)
  {
    hide MayStrand, FirstBad;
    if i :| 0 <= i < |s.handlers| && s.handlers[i].phase.Reading? {
      NoHolders(s, i);
      assert Enabled(s, Look(i));
    } else if i :| 0 <= i < |s.handlers| && s.handlers[i].phase.Writing? {
      assert Enabled(s, Write(i));
    } else if i :| 0 <= i < |s.handlers| && s.handlers[i].phase.Waiting? {
      assert forall j | 0 <= j < |s.handlers| :: !HoldsRead(s.handlers[j]);
      assert ReadHolders(s.handlers) == {};
      assert Enabled(s, Acquire(i));
    } else {
      var i :| 0 <= i < |s.handlers| && !s.handlers[i].phase.Returned?;
      assert NoWriter(s);
      if s.handlers[i].phase.Checked? || !ReadsFirst(s.handlers[i].call) {
        assert Enabled(s, Announce(i));
      } else {
        assert !Leaks(s.handlers[i]);
        assert Enabled(s, RLock(i));
      }
    }
  }

  /** A state that a run of well-formed handlers has led to. */
  ghost predicate Reached(start: State, steps: seq<Step>, s: State) {
    Runs(start, steps) && After(start, steps) == s && LockOk(s) && PhasesFit(s)
  }

  lemma Reaches(start: State, steps: seq<Step>, s: State, step: Step)
    requires Reached(start, steps, s) && Enabled(s, step)
    ensures Reached(start, steps + [step], Do(s, step))
  {
    Extend(start, steps, step);
    StepKeepsLock(s, step);
    StepKeepsFit(s, step);
  }

  lemma LookPasses(s: State, k: nat)
    requires LockOk(s) && PhasesFit(s) && !SomeBlocks(s) && k < |s.handlers| && s.handlers[k].phase.Reading?
    ensures Enabled(s, Look(k))
    ensures var t := Do(s, Look(k));
            && t.readers == s.readers - 1 && t.store == s.store && !SomeBlocks(t)
            && t.handlers == s.handlers[k := t.handlers[k]]
            && (t.handlers[k].phase.Returned? || t.handlers[k].phase.Checked?)
  {
    NoHolders(s, k);
    assert !Blocks(s, s.handlers[k]);
    var t := Do(s, Look(k));
    hide FirstBad, MayStrand;
    forall j | 0 <= j < |t.handlers| ensures !Blocks(t, t.handlers[j]) {
      assert !Blocks(s, s.handlers[j]);
    }
  }

  lemma SomeReader(s: State) returns (k: nat)
    requires LockOk(s) && !SomeBlocks(s) && s.readers > 0
    ensures k < |s.handlers| && s.handlers[k].phase.Reading?
  {
    assert ReadHolders(s.handlers) != {};
    k :| k in ReadHolders(s.handlers);
    assert !Blocks(s, s.handlers[k]);
  }

  /** Readers none of which will be rejected may all leave. */
  lemma ReadersLeave(start: State, before: seq<Step>, s: State) returns (steps: seq<Step>, t: State)
    requires Reached(start, before, s) && !SomeBlocks(s)
    ensures Reached(start, steps, t) && t.readers == 0 && |t.handlers| == |s.handlers|
    ensures forall j | 0 <= j < |s.handlers| ::
              if s.handlers[j].phase.Reading? then !IsWriter(t.handlers[j]) else t.handlers[j] == s.handlers[j]
    decreases s.readers
  {
    steps, t := before, s;
    if s.readers > 0 {
      var k := SomeReader(s);
      LookPasses(s, k);
      Reaches(start, steps, s, Look(k));
      hide Reached, Enabled, Do;
      steps, t := ReadersLeave(start, steps + [Look(k)], Do(s, Look(k)));
    } else {
      forall j | 0 <= j < |s.handlers| ensures !s.handlers[j].phase.Reading? {
        if s.handlers[j].phase.Reading? {
          NoHolders(s, j);
        }
      }
    }
  }

  /** A writer that no reader holds up. */
  lemma WriterLeaves(start: State, before: seq<Step>, s: State, w: nat) returns (steps: seq<Step>, t: State)
    requires Reached(start, before, s) && s.readers == 0 && w < |s.handlers| && IsWriter(s.handlers[w])
    ensures Reached(start, steps, t) && t.readers == 0
    ensures t.handlers == s.handlers[w := s.handlers[w].(phase := Returned(Done))]
  {
    hide RunSection, LockOk;
    steps, t := before, s;
    if s.handlers[w].phase.Waiting? {
      Reaches(start, steps, t, Acquire(w));
      steps, t := steps + [Acquire(w)], Do(t, Acquire(w));
    }
    Reaches(start, steps, t, Write(w));
    steps, t := steps + [Write(w)], Do(t, Write(w));
  }

  /** A change that need not check its ids any more. */
  predicate PastCheck(h: Handler) {
    h.phase.Checked? || IsWriter(h) || (h.phase.Begin? && !ReadsFirst(h.call))
  }

  lemma CanBeMade(s: State, i: nat) returns (steps: seq<Step>)
    requires LockOk(s) && PhasesFit(s) && !SomeBlocks(s) && i < |s.handlers| && PastCheck(s.handlers[i])
    ensures Runs(s, steps) && ChangeDone(After(s, steps).handlers[i])
  {
    var t;
    steps, t := ReadersLeave(s, [], s);
    assert t.handlers[i] == s.handlers[i];
    hide LockOk, SomeBlocks, ReadHolders, Do;
    if w :| 0 <= w < |t.handlers| && IsWriter(t.handlers[w]) {
      OneWriter(t, w);
      steps, t := WriterLeaves(s, steps, t, w);
      if w == i {
        return;
      }
    }
    steps, t := Announced(s, steps, t, i);
    steps, t := WriterLeaves(s, steps, t, i);
  }

  lemma OneWriter(s: State, w: nat)
    requires LockOk(s) && w < |s.handlers| && IsWriter(s.handlers[w])
    ensures forall j | 0 <= j < |s.handlers| && j != w :: !IsWriter(s.handlers[j])
  {
  }

  lemma Announced(start: State, before: seq<Step>, s: State, i: nat) returns (steps: seq<Step>, t: State)
    requires Reached(start, before, s) && Enabled(s, Announce(i)) && s.readers == 0
    ensures Reached(start, steps, t) && t == To(s, i, Waiting)
  {
    Reaches(start, before, s, Announce(i));
    steps, t := before + [Announce(i)], Do(s, Announce(i));
  }

  /** A change past its check can still be made exactly when no lock is leaked and no reader at
      work is bound to be rejected. */
  lemma CanBeMadeIff(s: State, i: nat)
    requires LockOk(s) && PhasesFit(s) && i < |s.handlers| && PastCheck(s.handlers[i])
    ensures (exists steps :: Runs(s, steps) && ChangeDone(After(s, steps).handlers[i])) <==> !SomeBlocks(s)
  {
    if SomeBlocks(s) {
      forall steps | Runs(s, steps) ensures !ChangeDone(After(s, steps).handlers[i]) {
        LeakFreezes(s, steps);
      }
    } else {
      var steps := CanBeMade(s, i);
    }
  }

  // ---- Between the check and the write ----

  function ChangedIds(call: Call): set<string> {
    if call.Search? then {}
    else match call.request
      case AddPets(pets) => set p | p in pets :: p.id
      case UpdatePets(pets) => set p | p in pets :: p.id
      case DeletePets(ids) => {}
  }

  predicate PendingAdd(h: Handler) {
    h.call.Change? && h.call.request.AddPets? && !h.phase.Returned?
  }

  predicate CheckedUpdate(h: Handler) {
    h.call.Change? && h.call.request.UpdatePets? && (h.phase.Checked? || IsWriter(h))
  }

  /** The ids of adds that have not returned are new: not in the store, not those of another such
      add, and not those of an update that has passed its check. */
  predicate AddsAreNew(s: State) {
    && (forall i | 0 <= i < |s.handlers| :: Absent(s.store, s.handlers[i]))
    && (forall i, j | 0 <= i < |s.handlers| && 0 <= j < |s.handlers| && i != j ::
          Apart(s.handlers[i], s.handlers[j]))
  }

  predicate Absent(s: Store, h: Handler) {
    PendingAdd(h) ==> ChangedIds(h.call) !! s.ids.Keys
  }

  predicate Apart(a: Handler, b: Handler) {
    PendingAdd(a) && (PendingAdd(b) || CheckedUpdate(b)) ==> ChangedIds(a.call) !! ChangedIds(b.call)
  }

  lemma {:induction false} EraseIds(s: Store, ids: seq<string>)
    ensures Erase(s, ids).ids.Keys <= s.ids.Keys
  {
    if ids != [] {
      EraseIds(s, ids[..|ids| - 1]);
    }
  }

  lemma SectionIds(s: Store, call: Call)
    requires call.Change?
    ensures RunSection(s, SectionOf(call.request)).ids.Keys <= s.ids.Keys + ChangedIds(call)
  {
    if call.request.DeletePets? {
      EraseIds(s, call.request.ids);
    } else {
      var pets := call.request.pets;
      PopulateIds(s, pets);
      forall id | id in Populate(s, pets).ids && id !in s.ids ensures id in ChangedIds(call) {
        var i :| 0 <= i < |pets| && pets[i].id == id;
        assert pets[i] in pets;
      }
    }
  }

  lemma PassedCheck(s: State, i: nat)
    requires Enabled(s, Look(i)) && CheckedUpdate(Do(s, Look(i)).handlers[i])
    ensures ChangedIds(s.handlers[i].call) <= s.store.ids.Keys
  {
  }

  lemma StepKeepsAbsent(s: State, step: Step, i: nat)
    requires AddsAreNew(s) && Enabled(s, step) && i < |s.handlers|
    ensures Absent(Do(s, step).store, Do(s, step).handlers[i])
  {
    assert Absent(s.store, s.handlers[i]);
    if step.Write? && step.i != i {
      SectionIds(s.store, s.handlers[step.i].call);
      assert Apart(s.handlers[i], s.handlers[step.i]);
      assert s.handlers[step.i].call.request.DeletePets? ==> ChangedIds(s.handlers[step.i].call) == {};
    }
    hide ChangedIds, RunSection, FirstBad, MayStrand, NoWriter, AddsAreNew;
  }

  lemma StepKeepsApart(s: State, step: Step, i: nat, j: nat)
    requires AddsAreNew(s) && Enabled(s, step) && i < |s.handlers| && j < |s.handlers| && i != j
    ensures Apart(Do(s, step).handlers[i], Do(s, step).handlers[j])
  {
    assert Absent(s.store, s.handlers[i]) && Apart(s.handlers[i], s.handlers[j]);
    if step.Look? && step.i == j && CheckedUpdate(Do(s, step).handlers[j]) {
      PassedCheck(s, j);
    }
    hide ChangedIds, RunSection, FirstBad, MayStrand, NoWriter, AddsAreNew;
  }

  lemma StepKeepsNew(s: State, step: Step)
    requires AddsAreNew(s) && Enabled(s, step)
    ensures AddsAreNew(Do(s, step))
  {
    var t := Do(s, step);
    hide Enabled, Do, Absent, Apart;
    forall i | 0 <= i < |t.handlers| ensures Absent(t.store, t.handlers[i]) {
      StepKeepsAbsent(s, step, i);
    }
    forall i, j | 0 <= i < |t.handlers| && 0 <= j < |t.handlers| && i != j
      ensures Apart(t.handlers[i], t.handlers[j])
    {
      StepKeepsApart(s, step, i, j);
    }
  }

  /** With fresh ids no add ever overwrites a pet, although it writes some time after its check:
      in every interleaving its ids are still absent when it writes. So an add of distinct pets
      keeps indexes that agree in agreement. */
  lemma AddsWriteNewIds(s: State, steps: seq<Step>, i: nat)
    requires AddsAreNew(s) && Runs(s, steps) && Enabled(After(s, steps), Write(i))
    requires After(s, steps).handlers[i].call.request.AddPets?
    ensures var t := After(s, steps);
            var pets := t.handlers[i].call.request.pets;
            && (forall p | p in pets :: p.id !in t.store.ids)
            && (IndexesAgree(t.store) && DistinctIds(pets) ==> IndexesAgree(Do(t, Write(i)).store))
  {
    EveryRunNew(s, steps);
    var t := After(s, steps);
    assert Absent(t.store, t.handlers[i]);
    hide AddsAreNew;
    var pets := t.handlers[i].call.request.pets;
    forall p | p in pets ensures p.id !in t.store.ids {
      assert p.id in ChangedIds(t.handlers[i].call);
    }
    if IndexesAgree(t.store) && DistinctIds(pets) {
      assert forall k | 0 <= k < |pets| :: pets[k] in pets;
      PopulateAgrees(t.store, pets);
    }
  }

  lemma {:induction false} EveryRunNew(s: State, steps: seq<Step>)
    requires AddsAreNew(s) && Runs(s, steps)
    ensures AddsAreNew(After(s, steps))
  {
    hide AddsAreNew, Enabled, Do;
    if steps != [] {
      EveryRunNew(s, steps[..|steps| - 1]);
      StepKeepsNew(After(s, steps[..|steps| - 1]), steps[|steps| - 1]);
    }
  }

  lemma GetsWriteLock(s: State, before: seq<Step>, i: nat) returns (steps: seq<Step>)
    requires Runs(s, before) && Enabled(After(s, before), Announce(i)) && After(s, before).readers == 0
    ensures Runs(s, steps) && After(s, steps) == To(After(s, before), i, Writing)
  {
    hide NoWriter;
    Extend(s, before, Announce(i));
    steps := before + [Announce(i)];
    Extend(s, steps, Acquire(i));
    steps := steps + [Acquire(i)];
    var hs := After(s, before).handlers;
    assert hs[i := hs[i].(phase := Waiting)][i := hs[i].(phase := Writing)] == hs[i := hs[i].(phase := Writing)];
  }

  /** A handler that writes with no other step in between. */
  lemma WriteOut(s: State, before: seq<Step>, i: nat) returns (steps: seq<Step>)
    requires Runs(s, before) && Enabled(After(s, before), Announce(i))
    requires After(s, before).readers == 0 && After(s, before).handlers[i].call.Change?
    ensures var t := After(s, before);
            && Runs(s, steps)
            && After(s, steps) == To(t, i, Returned(Done)).(
                 store := RunSection(t.store, SectionOf(t.handlers[i].call.request)))
  {
    hide RunSection, NoWriter;
    steps := GetsWriteLock(s, before, i);
    Extend(s, steps, Write(i));
    steps := steps + [Write(i)];
    var hs := After(s, before).handlers;
    assert hs[i := hs[i].(phase := Writing)][i := hs[i].(phase := Returned(Done))]
        == hs[i := hs[i].(phase := Returned(Done))];
  }

  /** A handler that reads with no other step in between. */
  lemma LookOut(s: State, before: seq<Step>, i: nat) returns (steps: seq<Step>)
    requires Runs(s, before) && Enabled(After(s, before), RLock(i))
    ensures var t := After(s, before);
            && Runs(s, steps)
            && After(s, steps) == AfterLook(To(t, i, Reading(t.store)).(readers := t.readers + 1), i)
  {
    hide NoWriter, AfterLook;
    Extend(s, before, RLock(i));
    steps := before + [RLock(i)];
    Extend(s, steps, Look(i));
    steps := steps + [Look(i)];
  }

  predicate IsUpdate(call: Call) {
    call.Change? && call.request.UpdatePets?
  }

  predicate Deletes(call: Call, id: string) {
    call.Change? && call.request.DeletePets? && id in call.request.ids
  }

  /** No delete names a pet that an update names. */
  predicate DeletesSpareUpdates(s: State) {
    forall i, j | 0 <= i < |s.handlers| && 0 <= j < |s.handlers| && IsUpdate(s.handlers[i].call) ::
      forall id | id in ChangedIds(s.handlers[i].call) :: !Deletes(s.handlers[j].call, id)
  }

  lemma SectionKeeps(s: Store, call: Call, id: string)
    requires call.Change? && id in s.ids && !Deletes(call, id)
    ensures id in RunSection(s, SectionOf(call.request)).ids
  {
    if call.request.DeletePets? {
      EraseErases(s, call.request.ids);
    } else {
      PopulateIds(s, call.request.pets);
    }
  }

  /** The pets of an update that has passed its check are stored. */
  predicate UpdatesStored(s: State) {
    forall i | 0 <= i < |s.handlers| && CheckedUpdate(s.handlers[i]) ::
      ChangedIds(s.handlers[i].call) <= s.store.ids.Keys
  }

  lemma StepKeepsStored(s: State, step: Step)
    requires DeletesSpareUpdates(s) && UpdatesStored(s) && Enabled(s, step)
    ensures DeletesSpareUpdates(Do(s, step)) && UpdatesStored(Do(s, step))
  {
    var t := Do(s, step);
    assert forall i | 0 <= i < |t.handlers| :: t.handlers[i].call == s.handlers[i].call;
    if step.Look? && CheckedUpdate(t.handlers[step.i]) {
      PassedCheck(s, step.i);
    }
    hide ChangedIds, RunSection, FirstBad, MayStrand, NoWriter, Deletes;
    forall i, id | 0 <= i < |t.handlers| && CheckedUpdate(t.handlers[i]) && id in ChangedIds(t.handlers[i].call)
      ensures id in t.store.ids
    {
      if step.Write? {
        SectionKeeps(s.store, s.handlers[step.i].call, id);
      }
    }
  }

  lemma {:induction false} EveryRunStored(s: State, steps: seq<Step>)
    requires DeletesSpareUpdates(s) && UpdatesStored(s) && Runs(s, steps)
    ensures DeletesSpareUpdates(After(s, steps)) && UpdatesStored(After(s, steps))
  {
    hide DeletesSpareUpdates, UpdatesStored, Enabled, Do;
    if steps != [] {
      EveryRunStored(s, steps[..|steps| - 1]);
      StepKeepsStored(After(s, steps[..|steps| - 1]), steps[|steps| - 1]);
    }
  }

  lemma CheckGoesThrough(s: State, i: nat) returns (steps: seq<Step>)
    requires Fresh(s) && i < |s.handlers| && IsUpdate(s.handlers[i].call)
    requires ChangedIds(s.handlers[i].call) <= s.store.ids.Keys
    ensures Runs(s, steps) && After(s, steps) == To(s, i, Checked)
  {
    var pets := s.handlers[i].call.request.pets;
    assert FirstBad(s.store, pets, true) == |pets| by {
      assert forall p | p in pets :: p.id in ChangedIds(s.handlers[i].call);
    }
    hide FirstBad, ChangedIds;
    steps := LookOut(s, [], i);
  }

  /** An update may write after the deletion of one of its pets: among any handlers, on any store
      that has the pets of the update, both changes may succeed, with the pet gone when the update
      gets the write lock and back when it gives it up. */
  lemma UpdateRevivesDeleted(s: State, i: nat, j: nat, id: string) returns (steps: seq<Step>)
    requires Fresh(s) && i < |s.handlers| && j < |s.handlers|
    requires IsUpdate(s.handlers[i].call) && ChangedIds(s.handlers[i].call) <= s.store.ids.Keys
    requires id in ChangedIds(s.handlers[i].call) && Deletes(s.handlers[j].call, id)
    ensures Runs(s, steps) && Enabled(After(s, steps), Write(i))
    ensures var t := After(s, steps);
            && t.handlers[i].call == s.handlers[i].call && ChangeDone(t.handlers[j]) && id !in t.store.ids
            && ChangeDone(Do(t, Write(i)).handlers[i]) && id in Do(t, Write(i)).store.ids
  {
    EraseErases(s.store, s.handlers[j].call.request.ids);
    hide ChangedIds, Erase, MayStrand, Runs, After, Fresh, NoWriter;
    steps := DeletedMeanwhile(s, i, j, id);
    steps := GetsWriteLock(s, steps, i);
    WritesBack(After(s, steps), i, id);
    hide Do, Enabled;
  }

  lemma WritesBack(s: State, i: nat, id: string)
    requires Enabled(s, Write(i)) && IsUpdate(s.handlers[i].call) && id in ChangedIds(s.handlers[i].call)
    ensures ChangeDone(Do(s, Write(i)).handlers[i]) && id in Do(s, Write(i)).store.ids
  {
    IdIsWritten(s.store, s.handlers[i].call, id);
    hide ChangedIds, RunSection;
  }

  lemma DeletedMeanwhile(s: State, i: nat, j: nat, id: string) returns (steps: seq<Step>)
    requires Fresh(s) && i < |s.handlers| && j < |s.handlers|
    requires IsUpdate(s.handlers[i].call) && ChangedIds(s.handlers[i].call) <= s.store.ids.Keys
    requires Deletes(s.handlers[j].call, id)
    ensures Runs(s, steps)
    ensures After(s, steps) == To(To(s, i, Checked), j, Returned(Done)).(
              store := Erase(s.store, s.handlers[j].call.request.ids))
    ensures Enabled(After(s, steps), Announce(i))
  {
    steps := CheckGoesThrough(s, i);
    hide ChangedIds, Erase, FirstBad, MayStrand, Runs, After;
    steps := WriteOut(s, steps, j);
  }

  lemma IdIsWritten(s: Store, call: Call, id: string)
    requires IsUpdate(call) && id in ChangedIds(call)
    ensures id in RunSection(s, SectionOf(call.request)).ids
  {
    PopulateIds(s, call.request.pets);
    var p :| p in call.request.pets && p.id == id;
    var k :| 0 <= k < |call.request.pets| && call.request.pets[k] == p;
  }

  /** For handlers on a store that has the pets of their updates: in every interleaving every
      update finds its pets still there when it writes exactly when no delete names one of them. */
  lemma UpdatesWriteStoredIdsIff(s: State)
    requires Fresh(s)
    requires forall i | 0 <= i < |s.handlers| && IsUpdate(s.handlers[i].call) ::
               ChangedIds(s.handlers[i].call) <= s.store.ids.Keys
    ensures (forall steps, i: nat | Runs(s, steps) && Enabled(After(s, steps), Write(i)) ::
               IsUpdate(After(s, steps).handlers[i].call) ==>
                 ChangedIds(After(s, steps).handlers[i].call) <= After(s, steps).store.ids.Keys)
       <==> DeletesSpareUpdates(s)
  {
    if DeletesSpareUpdates(s) {
      forall steps, i: nat | Runs(s, steps) && Enabled(After(s, steps), Write(i))
        ensures IsUpdate(After(s, steps).handlers[i].call) ==>
                  ChangedIds(After(s, steps).handlers[i].call) <= After(s, steps).store.ids.Keys
      {
        EveryRunStored(s, steps);
        assert IsUpdate(After(s, steps).handlers[i].call) ==> CheckedUpdate(After(s, steps).handlers[i]);
      }
    } else {
      var i, j, id :| 0 <= i < |s.handlers| && 0 <= j < |s.handlers| && IsUpdate(s.handlers[i].call)
                      && id in ChangedIds(s.handlers[i].call) && Deletes(s.handlers[j].call, id);
      var steps := UpdateRevivesDeleted(s, i, j, id);
      assert Enabled(After(s, steps), Write(i)) && id in ChangedIds(After(s, steps).handlers[i].call);
    }
  }

  lemma DeletesAlone(store: Store, request: Request) returns (steps: seq<Step>)
    requires request.DeletePets?
    ensures var s := State(store, 0, [Handler(Change(request), Begin)]);
            && Runs(s, steps)
            && After(s, steps) == State(Erase(store, request.ids), 0, [Handler(Change(request), Returned(Done))])
  {
    var s := State(store, 0, [Handler(Change(request), Begin)]);
    MayBegin(s, 0);
    hide Erase, Runs, After, Enabled, Do;
    steps := WriteOut(s, [], 0);
  }

  lemma MayBegin(s: State, i: nat)
    requires Fresh(s) && i < |s.handlers|
    ensures Runs(s, []) && After(s, []) == s
    ensures Enabled(s, if ReadsFirst(s.handlers[i].call) then RLock(i) else Announce(i))
  {
  }

  lemma LookedAlone(store: Store, request: Request)
    requires !request.DeletePets?
    ensures var bad := FirstBad(store, request.pets, request.UpdatePets?);
            AfterLook(State(store, 1, [Handler(Change(request), Reading(store))]), 0)
            == if bad < |request.pets|
               then State(store, 1, [Handler(Change(request), Returned(Rejected(request.pets[bad].id)))])
               else State(store, 0, [Handler(Change(request), Checked)])
  {
    hide FirstBad;
    var h := Handler(Change(request), Reading(store));
    assert forall phase :: [h][0 := h.(phase := phase)] == [h.(phase := phase)];
  }

  lemma ChecksAlone(store: Store, request: Request) returns (steps: seq<Step>)
    requires !request.DeletePets?
    ensures var s := State(store, 0, [Handler(Change(request), Begin)]);
            var bad := FirstBad(store, request.pets, request.UpdatePets?);
            && Runs(s, steps)
            && After(s, steps) ==
                 if bad < |request.pets|
                 then State(store, 1, [Handler(Change(request), Returned(Rejected(request.pets[bad].id)))])
                 else State(store, 0, [Handler(Change(request), Checked)])
  {
    var s := State(store, 0, [Handler(Change(request), Begin)]);
    MayBegin(s, 0);
    hide FirstBad, Runs, After, Enabled, Do, AfterLook, NoWriter;
    steps := LookOut(s, [], 0);
    LookedAlone(store, request);
  }

  /** A change that runs alone on an unlocked store is the request of the store as a value. */
  lemma AloneIsServe(store: Store, request: Request) returns (steps: seq<Step>)
    ensures var s := State(store, 0, [Handler(Change(request), Begin)]);
            var (after, outcome) := Serve(Server(store, Free), request);
            && Runs(s, steps)
            && After(s, steps).handlers[0].phase == Returned(outcome)
            && After(s, steps).store == after.store
            && (After(s, steps).readers > 0 <==> after.lock == ReadLeaked)
  {
    var s := State(store, 0, [Handler(Change(request), Begin)]);
    hide Populate, Erase, FirstBad, Runs, After;
    if request.DeletePets? {
      steps := DeletesAlone(store, request);
    } else {
      steps := ChecksAlone(store, request);
      if FirstBad(store, request.pets, request.UpdatePets?) == |request.pets| {
        assert Enabled(After(s, steps), Announce(0));
        hide Enabled, Do;
        steps := WriteOut(s, steps, 0);
      }
    }
  }
}
