/** What the contents of the emergency-stop file, read after read, mean for subscribers. */
module EsFiles {
  import opened EmergencyStop
  import opened EsPromise

  /** The reads of a run, in order. */
  function Loads(steps: seq<Step>): seq<Load> {
    if steps == [] then []
    else
      var last := steps[|steps| - 1];
      Loads(steps[..|steps| - 1]) + (if last.Read? then [last.load] else [])
  }

  /** Whether a name that was or was not on go is so after a read. */
  predicate GoAfterLoad(go: bool, load: Load, name: string) {
    match load
    case Loaded(infos) => IsGo(infos, name)
    case CannotOpen => go
    case Malformed => false
  }

  predicate GoAfter(infos: map<string, Status>, loads: seq<Load>, name: string) {
    if loads == [] then IsGo(infos, name)
    else GoAfterLoad(GoAfter(infos, loads[..|loads| - 1], name), loads[|loads| - 1], name)
  }

  /** Some read takes the name from go to not on go. */
  predicate TakenOff(infos: map<string, Status>, loads: seq<Load>, name: string) {
    loads != [] &&
    var front := loads[..|loads| - 1];
    TakenOff(infos, front, name) || (GoAfter(infos, front, name) && !GoAfter(infos, loads, name))
  }

  lemma {:induction false} TakenOffLasts(infos: map<string, Status>, some: seq<Load>, loads: seq<Load>, name: string)
    requires some <= loads && TakenOff(infos, some, name)
    ensures TakenOff(infos, loads, name)
    decreases |loads|
  {
    if |some| < |loads| {
      TakenOffLasts(infos, some, loads[..|loads| - 1], name);
    } else {
      assert some == loads;
    }
  }

  // ---- No read takes the name off go: every registration is covered ----

  /** `go` says whether the name is on go after the reads so far. Whoever asks for it has seen it on
      go, and it still is and stays so in the file being applied. */
  predicate GoOk(s: State, go: bool, name: string) {
    && (name in s.asking ==> IsGo(s.entries, name))
    && match s.loop
       case Ranging(infos, _) => AppliesGo(s, infos, go, name)
       case Locking(_, ToEntries(infos, _)) => AppliesGo(s, infos, go, name)
       case Sending(_, _, _, ToEntries(infos, _)) => AppliesGo(s, infos, go, name)
       case _ => IsGo(s.entries, name) == go
  }

  predicate AppliesGo(s: State, infos: map<string, Status>, go: bool, name: string) {
    IsGo(infos, name) == go && (IsGo(s.entries, name) ==> go)
  }

  lemma AskKeepsGoOk(s: State, n: string, go: bool, name: string)
    requires GoOk(s, go, name) && Enabled(s, Ask(n))
    ensures GoOk(Do(s, Ask(n)), go, name)
  {
    hide MustStop;
  }

  lemma ClientKeepsGoOk(s: State, step: Step, go: bool, name: string)
    requires Safe(s) && GoOk(s, go, name) && Enabled(s, step) && !step.Read? && !step.Ask? && !IsLoopStep(step)
    ensures GoOk(Do(s, step), go, name)
  {
    ClientsLeaveLoop(s, step);
    assert Do(s, step).asking <= s.asking;
    hide Safe, Do, Enabled;
  }

  lemma RangeKeepsGoOk(s: State, step: Step, go: bool, name: string)
    requires PhaseOk(s) && GoOk(s, go, name) && Enabled(s, step) && (step.Visit? || step.EndRange?)
    ensures GoOk(Do(s, step), go, name)
  {
    hide MustStop;
  }

  lemma LockKeepsGoOk(s: State, step: Step, go: bool, name: string)
    requires PhaseOk(s) && GoOk(s, go, name) && Enabled(s, step) && (step.Lock? || step.Unlock?)
    ensures GoOk(Do(s, step), go, name)
  {
    hide MustStop, IsGo;
  }

  lemma SendKeepsBack(s: State)
    requires Enabled(s, Send)
    ensures var t := Do(s, Send);
            t.entries == s.entries && t.asking == s.asking && t.loop.Sending? && t.loop.back == s.loop.back
  {
    assert Do(s, Send) == AfterSend(s);
    hide Do, Enabled;
  }

  lemma SendKeepsGoOk(s: State, go: bool, name: string)
    requires GoOk(s, go, name) && Enabled(s, Send)
    ensures GoOk(Do(s, Send), go, name)
  {
    SendKeepsBack(s);
    assert s.loop.Sending?;
    hide Do, Enabled, IsGo;
  }

  lemma StepKeepsGoOk(s: State, step: Step, go: bool, name: string)
    requires Safe(s) && GoOk(s, go, name) && Enabled(s, step) && !step.Read?
    ensures GoOk(Do(s, step), go, name)
  {
    hide GoOk, Do, Enabled, RegistryOk, LeftOk, PhaseOk, ChansOk, Accounted;
    if step.Visit? || step.EndRange? {
      RangeKeepsGoOk(s, step, go, name);
    } else if step.Send? {
      SendKeepsGoOk(s, go, name);
    } else if IsLoopStep(step) {
      LockKeepsGoOk(s, step, go, name);
    } else if step.Ask? {
      AskKeepsGoOk(s, step.name, go, name);
    } else {
      ClientKeepsGoOk(s, step, go, name);
    }
  }

  lemma ReadKeepsGoOk(s: State, load: Load, go: bool, name: string)
    requires Safe(s) && GoOk(s, go, name) && Enabled(s, Read(load))
    requires go ==> GoAfterLoad(go, load, name)
    ensures GoOk(Do(s, Read(load)), GoAfterLoad(go, load, name), name)
  {
  }

  lemma GoOkCovers(s: State, go: bool, name: string)
    requires Safe(s) && GoOk(s, go, name) && Enabled(s, Register(name))
    ensures Covered(s, name)
  {
  }

  lemma {:induction false} NeverOffCovers(infos: map<string, Status>, steps: seq<Step>, name: string)
    requires Runs(Start(infos), steps) && !TakenOff(infos, Loads(steps), name)
    ensures GoOk(After(Start(infos), steps), GoAfter(infos, Loads(steps), name), name)
    ensures RegistersCovered(Start(infos), steps, name)
  {
    if steps != [] {
      var front, last := steps[..|steps| - 1], steps[|steps| - 1];
      var s := After(Start(infos), front);
      if last.Read? {
        assert Loads(steps)[..|Loads(steps)| - 1] == Loads(front);
      } else {
        assert Loads(steps) == Loads(front);
      }
      NeverOffCovers(infos, front, name);
      StartSafe(infos);
      EveryRunSafe(Start(infos), front);
      hide Safe, GoOk, Covered, Enabled, Do, TakenOff;
      var go := GoAfter(infos, Loads(front), name);
      if last.Read? {
        assert go ==> GoAfter(infos, Loads(steps), name) by {
          NotJustTaken(infos, Loads(steps), name);
        }
        ReadKeepsGoOk(s, last.load, go, name);
      } else {
        assert Loads(steps) == Loads(front);
        StepKeepsGoOk(s, last, go, name);
        if last == Register(name) {
          GoOkCovers(s, go, name);
        }
      }
    }
  }

  lemma NotJustTaken(infos: map<string, Status>, loads: seq<Load>, name: string)
    requires loads != [] && !TakenOff(infos, loads, name)
    ensures GoAfter(infos, loads[..|loads| - 1], name) ==> GoAfter(infos, loads, name)
  {
  }

  // ---- Passes that nobody subscribes to ----

  /** A run that has led to `s`, after these reads. */
  predicate Reached(start: State, steps: seq<Step>, loads: seq<Load>, s: State) {
    Runs(start, steps) && After(start, steps) == s && Loads(steps) == loads
  }

  lemma Take(start: State, steps: seq<Step>, loads: seq<Load>, s: State, step: Step)
    requires Reached(start, steps, loads, s) && Enabled(s, step)
    ensures Reached(start, steps + [step], if step.Read? then loads + [step.load] else loads, Do(s, step))
  {
    Extend(start, steps, step);
    assert (steps + [step])[..|steps|] == steps;
  }

  /** Nobody is registered and the mutex is free. */
  predicate Quiet(s: State) {
    s.subscribers == map[] && !s.locked && !s.crashed
  }

  /** The range over the old entries, to its end. */
  lemma QuietRange(start: State, before: seq<Step>, loads: seq<Load>, s: State) returns (steps: seq<Step>)
    requires Reached(start, before, loads, s) && Quiet(s) && s.loop.Ranging?
    ensures Reached(start, steps, loads, s.(loop := Ranging(s.loop.infos, {})))
    decreases |s.loop.todo|
  {
    steps := before;
    if s.loop.todo != {} {
      var name :| name in s.loop.todo;
      var t;
      steps, t := QuietVisit(start, steps, loads, s, name);
      assert |s.loop.todo - {name}| < |s.loop.todo|;
      steps := QuietRange(start, steps, loads, t);
    } else {
      assert s.(loop := Ranging(s.loop.infos, {})) == s;
    }
  }

  lemma QuietVisit(start: State, before: seq<Step>, loads: seq<Load>, s: State, name: string)
    returns (steps: seq<Step>, t: State)
    requires Reached(start, before, loads, s) && Quiet(s) && s.loop.Ranging? && name in s.loop.todo
    ensures Reached(start, steps, loads, t) && t == s.(loop := Ranging(s.loop.infos, s.loop.todo - {name}))
  {
    hide Reached, MustStop;
    Take(start, before, loads, s, Visit(name));
    steps, t := before + [Visit(name)], Do(s, Visit(name));
    if t.loop.Locking? {
      Take(start, steps, loads, t, Lock);
      steps, t := steps + [Lock], Do(t, Lock);
      Take(start, steps, loads, t, Unlock);
      steps, t := steps + [Unlock], Do(t, Unlock);
    }
  }

  /** A whole pass. */
  lemma QuietPass(start: State, before: seq<Step>, loads: seq<Load>, s: State, load: Load)
    returns (steps: seq<Step>, t: State)
    requires Reached(start, before, loads, s) && Quiet(s) && s.loop.Resting?
    ensures Reached(start, steps, loads + [load], t)
    ensures t == s.(entries := match load
                               case Loaded(infos) => infos
                               case CannotOpen => s.entries
                               case Malformed => map[])
  {
    hide Reached;
    Take(start, before, loads, s, Read(load));
    steps, t := before + [Read(load)], Do(s, Read(load));
    if load.Loaded? {
      steps := QuietRange(start, steps, loads + [load], t);
      t := t.(loop := Ranging(load.infos, {}));
    } else {
      Take(start, steps, loads + [load], t, Lock);
      steps, t := steps + [Lock], Do(t, Lock);
    }
    Take(start, steps, loads + [load], t, EndRange);
    steps, t := steps + [EndRange], Do(t, EndRange);
  }

  lemma {:induction false} QuietPasses(infos: map<string, Status>, loads: seq<Load>, name: string)
    returns (steps: seq<Step>, s: State)
    ensures Reached(Start(infos), steps, loads, s) && s == Start(infos).(entries := s.entries)
    ensures IsGo(s.entries, name) == GoAfter(infos, loads, name)
  {
    if loads == [] {
      steps, s := [], Start(infos);
    } else {
      var front, last := loads[..|loads| - 1], loads[|loads| - 1];
      steps, s := QuietPasses(infos, front, name);
      hide Reached;
      steps, s := QuietPass(Start(infos), steps, front, s, last);
      assert front + [last] == loads;
    }
  }

  // ---- Every file has the name on go: nobody is stopped ----

  predicate AllHaveGo(loads: seq<Load>, name: string) {
    forall load | load in loads && load.Loaded? :: IsGo(load.infos, name)
  }

  /** The file being applied has the name on go, and none of its channels is closed. */
  predicate LeftAlone(s: State, name: string) {
    && (match s.loop
        case Ranging(infos, _) => IsGo(infos, name)
        case Locking(_, ToEntries(infos, _)) => IsGo(infos, name)
        case Sending(_, _, _, ToEntries(infos, _)) => IsGo(infos, name)
        case _ => true)
    && forall ch | ch in s.chans && s.chans[ch].name == name && s.chans[ch].born == Go :: !s.chans[ch].closed
  }

  lemma StepLeavesAlone(s: State, step: Step, name: string)
    requires Safe(s) && LeftAlone(s, name) && Enabled(s, step)
    requires step.Read? && step.load.Loaded? ==> IsGo(step.load.infos, name)
    ensures LeftAlone(Do(s, step), name)
  {
    var t := Do(s, step);
    StepAppliesGo(s, step, name);
    hide Safe, Do, Enabled, StopSent;
    forall ch | ch in t.chans && t.chans[ch].name == name && t.chans[ch].born == Go ensures !t.chans[ch].closed {
      StepKeepsName(s, step, ch);
      if ch in s.chans {
        OnlyDueAreClosed(s, step, ch);
      }
    }
  }

  lemma StepAppliesGo(s: State, step: Step, name: string)
    requires Safe(s) && LeftAlone(s, name) && Enabled(s, step)
    requires step.Read? && step.load.Loaded? ==> IsGo(step.load.infos, name)
    ensures match Do(s, step).loop
            case Ranging(infos, _) => IsGo(infos, name)
            case Locking(_, ToEntries(infos, _)) => IsGo(infos, name)
            case Sending(_, _, _, ToEntries(infos, _)) => IsGo(infos, name)
            case _ => true
  {
    if step.Send? {
      SendKeepsBack(s);
      hide PhaseOk, IsGo, Do, Enabled;
    } else if step.Read? || IsLoopStep(step) {
      hide IsGo, MustStop, AskFor, RegisterFor, Cancelled, AfterSend, Received, CanReceive, Subscribers;
      match step
      case Read(_) =>
      case Visit(_) =>
      case EndRange =>
      case Lock =>
      case Unlock =>
    } else {
      ClientsLeaveLoop(s, step);
      hide PhaseOk, IsGo, Do, Enabled;
    }
  }

  lemma StepKeepsName(s: State, step: Step, ch: nat)
    requires Safe(s) && Enabled(s, step) && ch in Do(s, step).chans
    ensures var c := Do(s, step).chans[ch];
            if ch in s.chans then c.name == s.chans[ch].name && c.born == s.chans[ch].born
            else c.born == Go ==> !c.closed
  {
    if step.Send? {
      SendKeepsName(s, ch);
    } else if step.Read? || IsLoopStep(step) {
      OthersCloseNothing(s, step);
      hide Do, Enabled;
    } else {
      assert forall c | c in s.chans :: c < s.next;
      hide Safe, IsGo, Others, Subscribers;
      match step
      case Ask(_) =>
      case Register(_) =>
      case Cancelling(_) =>
      case Receiving(_) =>
    }
  }

  lemma SendKeepsName(s: State, ch: nat)
    requires Enabled(s, Send) && ch in Do(s, Send).chans
    ensures ch in s.chans && Do(s, Send).chans[ch].name == s.chans[ch].name
    ensures Do(s, Send).chans[ch].born == s.chans[ch].born
  {
    var head := s.loop.left[0];
    var c := s.chans[head];
    NewSlot(s.chans, head, c.(slot := Full(Stop)), ch);
    NewSlot(s.chans, head, c.(slot := Empty), ch);
    NewSlot(s.chans, head, c.(closed := true), ch);
    assert Do(s, Send).chans in {s.chans, s.chans[head := c.(slot := Full(Stop))], s.chans[head := c.(slot := Empty)],
                                 s.chans[head := c.(closed := true)]};
    hide *;
  }

  lemma NewSlot(chans: map<nat, Chan>, head: nat, c: Chan, ch: nat)
    requires head in chans && c.name == chans[head].name && c.born == chans[head].born
    ensures ch in chans[head := c] ==>
              ch in chans && chans[head := c][ch].name == chans[ch].name && chans[head := c][ch].born == chans[ch].born
  {
  }

  lemma {:induction false} RunLeavesAlone(infos: map<string, Status>, steps: seq<Step>, name: string)
    requires Runs(Start(infos), steps) && AllHaveGo(Loads(steps), name)
    ensures LeftAlone(After(Start(infos), steps), name)
  {
    if steps != [] {
      var front, last := steps[..|steps| - 1], steps[|steps| - 1];
      assert forall load | load in Loads(front) :: load in Loads(steps);
      assert last.Read? ==> last.load in Loads(steps);
      RunLeavesAlone(infos, front, name);
      StartSafe(infos);
      EveryRunSafe(Start(infos), front);
      hide Safe, LeftAlone, Enabled, Do;
      StepLeavesAlone(After(Start(infos), front), last, name);
    }
  }

  /** As long as every file that loads has the name on go, whatever was there before and whatever
      reads fail, no subscriber of it that was let through is ever stopped: its channel stays open,
      and no Stop is in it or has been received from it. */
  lemma GoIsNeverStopped(infos: map<string, Status>, steps: seq<Step>, name: string, ch: nat)
    requires Runs(Start(infos), steps) && AllHaveGo(Loads(steps), name)
    requires ch in After(Start(infos), steps).chans
    requires var c := After(Start(infos), steps).chans[ch]; c.name == name && c.born == Go
    ensures var c := After(Start(infos), steps).chans[ch];
            !c.closed && c.slot != Full(Stop) && Got(Stop) !in c.seen
  {
    var s := After(Start(infos), steps);
    RunLeavesAlone(infos, steps, name);
    StartSafe(infos);
    EveryRunSafe(Start(infos), steps);
    NotHead(s, name, ch);
    assert ChanAt(s, ch);
  }

  lemma NotHead(s: State, name: string, ch: nat)
    requires Safe(s) && LeftAlone(s, name) && ch in s.chans && s.chans[ch].name == name
    ensures !IsHead(s, ch)
  {
    assert s.loop.Sending? && s.loop.left != [] ==> OpenFor(s, s.loop.left[0], s.loop.name) by {
      assert s.loop.Sending? && s.loop.left != [] ==> s.loop.left[0] in s.loop.left;
    }
  }

  // ---- A read takes the name off go: a registration may come too late ----

  /** Subscribe sees the name on go, a pass takes it off, and only then Subscribe gets the mutex. */
  lemma OffAfter(infos: map<string, Status>, front: seq<Load>, last: Load, name: string) returns (steps: seq<Step>)
    requires GoAfter(infos, front, name) && !GoAfterLoad(true, last, name)
    ensures Runs(Start(infos), steps) && Loads(steps) == front + [last]
    ensures Enabled(After(Start(infos), steps), Register(name)) && !Covered(After(Start(infos), steps), name)
  {
    var s, t;
    steps, s := QuietPasses(infos, front, name);
    t := AskedFor(s, name);
    Take(Start(infos), steps, front, s, Ask(name));
    steps := steps + [Ask(name)];
    assert Quiet(t) && t.loop.Resting?;
    hide Reached;
    steps, t := QuietPass(Start(infos), steps, front, t, last);
    ReachedIs(Start(infos), steps, front + [last], t);
  }

  lemma AskedFor(s: State, name: string) returns (t: State)
    requires Enabled(s, Ask(name)) && IsGo(s.entries, name)
    ensures t == Do(s, Ask(name)) && t == s.(asking := s.asking + multiset{name})
  {
    t := Do(s, Ask(name));
  }

  lemma ReachedIs(start: State, steps: seq<Step>, loads: seq<Load>, s: State)
    requires Reached(start, steps, loads, s)
    ensures Runs(start, steps) && After(start, steps) == s && Loads(steps) == loads
  {
  }

  lemma {:induction false} OffMayMiss(infos: map<string, Status>, loads: seq<Load>, name: string)
    returns (steps: seq<Step>)
    requires TakenOff(infos, loads, name)
    ensures Runs(Start(infos), steps) && Loads(steps) <= loads
    ensures Enabled(After(Start(infos), steps), Register(name)) && !Covered(After(Start(infos), steps), name)
    decreases |loads|
  {
    hide Runs, After, Covered, Enabled;
    var front, last := loads[..|loads| - 1], loads[|loads| - 1];
    if TakenOff(infos, front, name) {
      steps := OffMayMiss(infos, front, name);
    } else {
      steps := OffAfter(infos, front, last, name);
      assert front + [last] == loads;
    }
  }

  /** Whatever the file will hold, read after read: every registration of a name in every run is
      covered exactly when no read takes the name off go. So Subscribe can be relied on only for
      names for which there is never a stop to deliver. */
  lemma EveryRunCoversIff(infos: map<string, Status>, loads: seq<Load>, name: string)
    ensures (forall steps | Runs(Start(infos), steps) && Loads(steps) <= loads ::
               RegistersCovered(Start(infos), steps, name))
       <==> !TakenOff(infos, loads, name)
  {
    if TakenOff(infos, loads, name) {
      var steps := OffMayMiss(infos, loads, name);
      Extend(Start(infos), steps, Register(name));
      var more := steps + [Register(name)];
      assert more[..|steps|] == steps;
      assert Loads(more) == Loads(steps) && !RegistersCovered(Start(infos), more, name);
    } else {
      forall steps | Runs(Start(infos), steps) && Loads(steps) <= loads
        ensures RegistersCovered(Start(infos), steps, name)
      {
        if TakenOff(infos, Loads(steps), name) {
          TakenOffLasts(infos, Loads(steps), loads, name);
        }
        NeverOffCovers(infos, steps, name);
      }
    }
  }

  /** Nor does it help that nothing comes between the halves of Subscribe: on any two files of which
      the second takes the name off go, the whole of it may come between the sendStop of the pass
      and its store of the new entries. */
  lemma SubscribeDuringPass(old1: map<string, Status>, new1: map<string, Status>, name: string)
    returns (steps: seq<Step>)
    requires IsGo(old1, name) && !IsGo(new1, name)
    ensures Runs(Start(old1), steps) && steps != [] && steps[|steps| - 1] == Ask(name)
    ensures var s := After(Start(old1), steps);
            Enabled(s, Register(name)) && !Covered(s, name) && s.loop.Ranging? && IsGo(s.entries, name)
  {
    var s := Start(old1);
    assert Reached(s, [], [], s);
    Take(s, [], [], s, Read(Loaded(new1)));
    steps := QuietRange(s, [] + [Read(Loaded(new1))], [] + [Loaded(new1)], Do(s, Read(Loaded(new1))));
    var t := s.(loop := Ranging(new1, {}));
    Take(s, steps, [] + [Loaded(new1)], t, Ask(name));
    steps := steps + [Ask(name)];
  }

  /** A file that cannot be opened is meant to stop all work. With no name in the map the pass ends
      and leaves everything as it was: a name on go stays so, and a later Subscribe gets Go. */
  lemma FailedOpenChangesNothing(start: State, before: seq<Step>, s: State) returns (steps: seq<Step>)
    requires Runs(start, before) && After(start, before) == s && Quiet(s) && s.loop.Resting?
    ensures Runs(start, steps) && After(start, steps) == s && Loads(steps) == Loads(before) + [CannotOpen]
    ensures forall name | IsGo(s.entries, name) :: Enabled(Do(s, Ask(name)), Register(name)) && Covered(s, name)
  {
    var t;
    steps, t := QuietPass(start, before, Loads(before), s, CannotOpen);
  }
}
