/** What the emergency stop promises its subscribers: that sendStop ends, what a failed load
    does, and when everyone whose name goes off go is stopped. */
module EsPromise {
  import opened EmergencyStop

  // ---- sendStop ends, and the loop gets on ----

  predicate IsLoopStep(step: Step) {
    step.Visit? || step.EndRange? || step.Lock? || step.Send? || step.Unlock?
  }

  /** What sendStop has left: at most three operations and a close for each channel. */
  function SendRank(s: State): nat
    requires s.loop.Sending?
  {
    if s.loop.left == [] then 0
    else
      4 * (|s.loop.left| - 1)
      + match s.loop.op
        case Close => 1
        case Drain => 3
        case Try => if s.loop.left[0] in s.chans && s.chans[s.loop.left[0]].slot.Full? then 4 else 2
  }

  /** sendStop ends within four operations a channel, whether or not slots are full and however
      its receivers take from them meanwhile: nobody else adds to its work. */
  lemma SendStopEnds(s: State, step: Step)
    requires Safe(s) && Enabled(s, step) && s.loop.Sending?
    ensures SendRank(s) <= 4 * |s.loop.left|
    ensures var t := Do(s, step);
            if IsLoopStep(step) then t.loop.Sending? ==> SendRank(t) < SendRank(s)
            else t.loop == s.loop && SendRank(t) <= SendRank(s)
  {
    if step.Send? {
      SendLowersRank(s);
    } else if !step.Unlock? {
      ClientsKeepRank(s, step);
    }
    hide RegistryOk, LeftOk, ChansOk, Accounted, SendRank;
    SendRankBound(s);
  }

  lemma SendRankBound(s: State)
    requires s.loop.Sending?
    ensures SendRank(s) <= 4 * |s.loop.left|
  {
  }

  lemma SendLowersRank(s: State)
    requires Safe(s) && Enabled(s, Send)
    ensures Do(s, Send).loop.Sending? && SendRank(Do(s, Send)) < SendRank(s)
  {
    assert s.loop.left[0] in s.loop.left;
    hide RegistryOk, PhaseOk, ChansOk, Accounted, NoRepeats;
  }

  lemma ClientsKeepRank(s: State, step: Step)
    requires Safe(s) && Enabled(s, step) && s.loop.Sending? && !IsLoopStep(step)
    ensures Do(s, step).loop == s.loop && SendRank(Do(s, step)) <= SendRank(s)
  {
    assert s.loop.left != [] ==> s.loop.left[0] in s.loop.left;
    ClientsLeaveLoop(s, step);
    hide RegistryOk, PhaseOk, ChansOk, Accounted, NoRepeats;
  }

  /** The loop waits for the mutex while it holds it. */
  predicate Stuck(s: State) {
    s.locked && s.loop.Locking?
  }

  /** What the steps of subscribers leave alone: the loop, the mutex, the entries; they forget no
      name, and close no channel. */
  predicate LeavesLoop(s: State, t: State) {
    && t.loop == s.loop && t.locked == s.locked && t.entries == s.entries
    && s.subscribers.Keys <= t.subscribers.Keys
    && forall ch | ch in s.chans ::
         ch in t.chans && t.chans[ch].closed == s.chans[ch].closed && t.chans[ch].name == s.chans[ch].name
  }

  lemma NewChanLeavesLoop(s: State, name: string, status: Status)
    requires s.next !in s.chans
    ensures LeavesLoop(s, NewChan(s, name, status))
  {
  }

  lemma AskLeavesLoop(s: State, name: string)
    requires s.next !in s.chans
    ensures LeavesLoop(s, AskFor(s, name))
  {
    hide IsGo, NewChan;
    NewChanLeavesLoop(s, name, Stop);
  }

  lemma RegisterLeavesLoop(s: State, name: string)
    requires s.next !in s.chans
    ensures LeavesLoop(s, RegisterFor(s, name))
  {
    hide NewChan;
    NewChanLeavesLoop(s, name, Go);
  }

  lemma CancelLeavesLoop(s: State, ch: nat)
    requires ch in s.chans
    ensures LeavesLoop(s, Cancelled(s, ch))
  {
    hide Others;
  }

  lemma ClientsLeaveLoop(s: State, step: Step)
    requires Safe(s) && Enabled(s, step) && !step.Read? && !IsLoopStep(step)
    ensures LeavesLoop(s, Do(s, step))
  {
    assert s.next !in s.chans;
    hide RegistryOk, LeftOk, PhaseOk, ChansOk, Accounted, AskFor, RegisterFor, Cancelled;
    match step
    case Ask(name) => AskLeavesLoop(s, name);
    case Register(name) => RegisterLeavesLoop(s, name);
    case Cancelling(ch) => CancelLeavesLoop(s, ch);
    case Receiving(ch) =>
  }

  /** Between the start and the end of a pass the loop can always go on, unless it waits for itself. */
  lemma LoopCanStep(s: State)
    requires Safe(s) && !s.crashed && !s.loop.Resting? && !Stuck(s)
    ensures exists step :: IsLoopStep(step) && Enabled(s, step)
  {
    hide ChansOk, Accounted, NoRepeats;
    match s.loop
    case LoadFailed => assert Enabled(s, Lock);
    case Locking(_, _) => assert Enabled(s, Lock);
    case Sending(name, left, op, back) =>
      if left == [] {
        assert Enabled(s, Unlock);
      } else {
        assert left[0] in left;
        assert Enabled(s, Send);
      }
    case Ranging(_, todo) => RangeCanStep(s);
    case RangingSubscribed(todo) => RangeCanStep(s);
    case Resting =>
  }

  lemma RangeCanStep(s: State)
    requires !s.crashed && (s.loop.Ranging? || s.loop.RangingSubscribed?)
    ensures exists step :: IsLoopStep(step) && Enabled(s, step)
  {
    if s.loop.todo == {} {
      assert Enabled(s, EndRange);
    } else {
      var name :| name in s.loop.todo;
      assert Enabled(s, Visit(name));
    }
  }

  // ---- A failed load ----

  /** A failed load has taken the mutex with names in the map. */
  predicate Trapped(s: State) {
    && s.locked
    && ((s.loop.RangingSubscribed? && s.loop.todo != {}) || (s.loop.Locking? && s.loop.back.ToSubscribed?))
  }

  lemma StaysTrapped(s: State, step: Step)
    requires Safe(s) && Trapped(s) && Enabled(s, step)
    ensures Trapped(Do(s, step)) && (Stuck(s) ==> Stuck(Do(s, step)))
    ensures forall ch | ch in s.chans :: ch in Do(s, step).chans && Do(s, step).chans[ch].closed == s.chans[ch].closed
  {
    hide LeftOk, ChansOk, Accounted, NoRepeats;
  }

  lemma {:induction false} TrappedForEver(s: State, steps: seq<Step>)
    requires Safe(s) && Trapped(s) && Runs(s, steps)
    ensures Trapped(After(s, steps))
    ensures forall ch | ch in s.chans ::
              ch in After(s, steps).chans && After(s, steps).chans[ch].closed == s.chans[ch].closed
  {
    hide Safe, Trapped, Enabled, Do;
    if steps != [] {
      EveryRunSafe(s, steps[..|steps| - 1]);
      TrappedForEver(s, steps[..|steps| - 1]);
      StaysTrapped(After(s, steps[..|steps| - 1]), steps[|steps| - 1]);
    }
  }

  /** A failed load takes the mutex a second time for each subscribed name. The pass comes to an
      end exactly when no name is in the map. With a name there it never does, whatever else
      happens, and its second attempt waits for ever. */
  lemma FailedLoadEndsIff(s: State)
    requires Safe(s) && s.loop.LoadFailed? && !s.crashed
    ensures Enabled(s, Lock)
    ensures (exists steps :: Runs(Do(s, Lock), steps) && After(Do(s, Lock), steps).loop.Resting?)
       <==> s.subscribers == map[]
    ensures forall name | name in s.subscribers ::
              Enabled(Do(s, Lock), Visit(name)) && Stuck(Do(Do(s, Lock), Visit(name)))
  {
    var t := Do(s, Lock);
    if s.subscribers == map[] {
      assert Runs(t, []) && After(t, []) == t;
      Extend(t, [], EndRange);
      assert After(t, [] + [EndRange]).loop.Resting?;
    } else {
      assert t.loop.todo != {} by {
        var name :| name in s.subscribers;
        assert name in t.loop.todo;
      }
      LockSafe(s);
      forall steps | Runs(t, steps) ensures !After(t, steps).loop.Resting? {
        TrappedForEver(t, steps);
      }
    }
  }

  /** From then on nobody is stopped: every open channel stays open and no Stop arrives. */
  lemma TrappedMeansNoStop(s: State, steps: seq<Step>, ch: nat)
    requires Safe(s) && Trapped(s) && ch in s.chans && !s.chans[ch].closed && Runs(s, steps)
    ensures var t := After(s, steps);
            ch in t.chans && !t.chans[ch].closed && Got(Stop) !in t.chans[ch].seen
  {
    EveryRunSafe(s, steps);
    TrappedForEver(s, steps);
    assert ChanAt(After(s, steps), ch);
  }

  // ---- Subscribers on go ----

  /** The name is on go, or the pass under way has still to stop it. A failed load is to stop
      everyone. */
  predicate Due(s: State, infos: map<string, Status>, todo: set<string>, name: string) {
    IsGo(infos, name) || (name in todo && MustStop(s.entries, infos, name))
  }

  predicate Covered(s: State, name: string) {
    match s.loop
    case Resting => IsGo(s.entries, name)
    case Ranging(infos, todo) => Due(s, infos, todo, name)
    case LoadFailed => true
    case RangingSubscribed(todo) => name in todo
    case Locking(n, ToEntries(infos, todo)) => name == n || Due(s, infos, todo, name)
    case Sending(n, _, _, ToEntries(infos, todo)) => name == n || Due(s, infos, todo, name)
    case Locking(n, ToSubscribed(todo)) => name == n || name in todo
    case Sending(n, _, _, ToSubscribed(todo)) => name == n || name in todo
  }

  /** Whoever is registered for the name is on go, or will be stopped before the loop rests. */
  predicate Promise(s: State, name: string) {
    Subscribers(s, name) != [] ==> Covered(s, name)
  }

  lemma RangeKeepsPromise(s: State, step: Step, name: string)
    requires Safe(s) && Promise(s, name) && Enabled(s, step)
    requires step.Read? || step.Visit? || step.EndRange?
    ensures Promise(Do(s, step), name)
  {
    hide RegistryOk, LeftOk, ChansOk, Accounted;
  }

  lemma StoppingKeepsPromise(s: State, step: Step, name: string)
    requires Safe(s) && Promise(s, name) && Enabled(s, step)
    requires step.Lock? || step.Send? || step.Unlock?
    ensures Promise(Do(s, step), name)
  {
    hide RegistryOk, ChansOk, Accounted, NoRepeats, OpenFor, MustStop, IsGo;
  }

  lemma CoveredByLoop(s: State, t: State, name: string)
    requires t.loop == s.loop && t.entries == s.entries
    ensures Covered(t, name) == Covered(s, name)
  {
    hide MustStop, IsGo;
  }

  /** Subscribers add channels to a name only by registering it. */
  lemma ClientKeepsSubscribers(s: State, step: Step, name: string)
    requires Enabled(s, step)
    requires step.Ask? || step.Cancelling? || step.Receiving? || (step.Register? && step.name != name)
    ensures Subscribers(s, name) == [] ==> Subscribers(Do(s, step), name) == []
  {
    hide IsGo;
  }

  lemma ClientKeepsPromise(s: State, step: Step, name: string)
    requires Safe(s) && Promise(s, name) && Enabled(s, step)
    requires step.Ask? || step.Cancelling? || step.Receiving? || (step.Register? && step.name != name)
    ensures Promise(Do(s, step), name)
  {
    hide Safe, Enabled, Do, Subscribers, Covered;
    ClientsLeaveLoop(s, step);
    ClientKeepsSubscribers(s, step, name);
    CoveredByLoop(s, Do(s, step), name);
  }

  /** Of all steps only a registration can break the promise to a name, and it does so exactly
      when, at the moment the mutex is taken, the name is neither on go in the file being
      applied nor still to be stopped by the pass under way. Subscribe looks at the old entries
      instead, and before. */
  lemma StepKeepsPromiseIff(s: State, step: Step, name: string)
    requires Safe(s) && Promise(s, name) && Enabled(s, step)
    ensures Promise(Do(s, step), name) <==> (step == Register(name) ==> Covered(s, name))
  {
    if step == Register(name) {
      hide RegistryOk, LeftOk, ChansOk, Accounted, NoRepeats;
    } else if step.Read? || step.Visit? || step.EndRange? {
      RangeKeepsPromise(s, step, name);
    } else if IsLoopStep(step) {
      StoppingKeepsPromise(s, step, name);
    } else {
      ClientKeepsPromise(s, step, name);
    }
  }

  // ---- Whole runs ----

  /** Every registration of the name in a run is made while the name is covered. */
  predicate RegistersCovered(s: State, steps: seq<Step>, name: string)
    requires Runs(s, steps)
  {
    steps == [] ||
    var front, last := steps[..|steps| - 1], steps[|steps| - 1];
    RegistersCovered(s, front, name) && (last == Register(name) ==> Covered(After(s, front), name))
  }

  predicate PromiseThroughout(s: State, steps: seq<Step>, name: string)
    requires Runs(s, steps)
  {
    Promise(After(s, steps), name) && (steps == [] || PromiseThroughout(s, steps[..|steps| - 1], name))
  }

  /** The promise to a name holds in every state of a run exactly when every registration of it is
      covered. */
  lemma {:induction false} RunKeepsPromiseIff(s: State, steps: seq<Step>, name: string)
    requires Safe(s) && Promise(s, name) && Runs(s, steps)
    ensures PromiseThroughout(s, steps, name) <==> RegistersCovered(s, steps, name)
  {
    hide Safe, Promise, Covered, Enabled, Do;
    if steps != [] {
      var front, last := steps[..|steps| - 1], steps[|steps| - 1];
      RunKeepsPromiseIff(s, front, name);
      EveryRunSafe(s, front);
      if RegistersCovered(s, front, name) {
        StepKeepsPromiseIff(After(s, front), last, name);
      }
    }
  }

  /** Between passes, a name with a subscriber that has not cancelled and whose channel is still
      open is on go, in every run whose registrations of that name are covered. So every change
      from go to stop, every removal and every failed load that a pass got over was delivered. */
  lemma LiveSubscribersAreOnGo(infos: map<string, Status>, steps: seq<Step>, ch: nat)
    requires Runs(Start(infos), steps) && After(Start(infos), steps).loop.Resting?
    requires var s := After(Start(infos), steps);
             && ch in s.chans && !s.chans[ch].closed && ch !in s.cancelled
             && RegistersCovered(Start(infos), steps, s.chans[ch].name)
    ensures IsGo(After(Start(infos), steps).entries, After(Start(infos), steps).chans[ch].name)
  {
    var s := After(Start(infos), steps);
    StartSafe(infos);
    EveryRunSafe(Start(infos), steps);
    RunKeepsPromiseIff(Start(infos), steps, s.chans[ch].name);
    assert ChanAt(s, ch) && !IsHead(s, ch);
    assert ch in Subscribers(s, s.chans[ch].name);
  }

  lemma SendClosesDue(s: State, ch: nat)
    requires PhaseOk(s) && LeftOk(s) && Enabled(s, Send) && ch in s.chans && !s.chans[ch].closed && ChanAt(s, ch)
    ensures Do(s, Send).chans[ch].closed ==>
              && s.loop.back.ToEntries? && MustStop(s.entries, s.loop.back.infos, s.chans[ch].name)
              && StopSent(Do(s, Send).chans[ch])
  {
    assert s.loop.left[0] in s.loop.left;
    hide IsStream, NoRepeats, Untouched;
  }

  /** The loop closes only channels whose name is in the old entries and either gone from the file
      being applied, or on go there before and no longer; and every channel it closes has had Stop
      sent. */
  lemma OnlyDueAreClosed(s: State, step: Step, ch: nat)
    requires Safe(s) && Enabled(s, step) && ch in s.chans && !s.chans[ch].closed && ch in Do(s, step).chans
    ensures Do(s, step).chans[ch].closed ==>
              && s.loop.Sending? && s.loop.back.ToEntries? && s.chans[ch].name in s.entries
              && (|| s.chans[ch].name !in s.loop.back.infos
                  || (s.entries[s.chans[ch].name] == Go && s.loop.back.infos[s.chans[ch].name] == Stop))
              && StopSent(Do(s, step).chans[ch])
  {
    hide RegistryOk, LeftOk, PhaseOk, ChanAt, Accounted, StopSent, Do;
    if step.Send? {
      SendClosesDue(s, ch);
    } else if step.Read? || IsLoopStep(step) {
      OthersCloseNothing(s, step);
    } else {
      ClientsLeaveLoop(s, step);
    }
  }

  lemma OthersCloseNothing(s: State, step: Step)
    requires Enabled(s, step) && (step.Read? || (IsLoopStep(step) && !step.Send?))
    ensures Do(s, step).chans == s.chans
  {
    hide MustStop, AskFor, RegisterFor, Cancelled, AfterSend, Received, CanReceive, Subscribers;
    match step
    case Read(_) =>
    case Visit(_) =>
    case EndRange =>
    case Lock =>
    case Unlock =>
  }

  // ---- The two races of Subscribe ----

  /** Even when nothing comes between its two halves, Subscribe keeps the promise during a pass
      exactly when the new file has the name on go or the pass has not yet dealt with it. */
  lemma AtomicSubscribeIsCoveredIff(s: State, name: string)
    requires Safe(s) && !s.crashed && !s.locked && IsGo(s.entries, name)
    requires s.loop.Resting? || s.loop.Ranging?
    ensures Enabled(s, Ask(name)) && Enabled(Do(s, Ask(name)), Register(name))
    ensures Covered(Do(s, Ask(name)), name) <==>
              s.loop.Ranging? ==> IsGo(s.loop.infos, name) || name in s.loop.todo
  {
    hide RegistryOk, LeftOk, ChansOk, Accounted;
  }

  /** An open channel whose name is off go, and that no pass will stop as things stand. */
  predicate Missed(s: State, ch: nat) {
    && ch in s.chans && !s.chans[ch].closed && s.chans[ch].name in s.subscribers
    && match s.loop
       case Resting => !Covered(s, s.chans[ch].name)
       case Ranging(_, _) => !Covered(s, s.chans[ch].name)
       case LoadFailed => true
       case RangingSubscribed(_) => Trapped(s)
       case Locking(_, ToEntries(_, _)) => !Covered(s, s.chans[ch].name)
       case Locking(_, ToSubscribed(_)) => Trapped(s)
       case Sending(_, _, _, ToEntries(_, _)) => !Covered(s, s.chans[ch].name)
       case Sending(_, _, _, ToSubscribed(_)) => false
  }

  /** A load that does not put the name on go and does not drop it from the file. */
  predicate LeavesOff(s: State, step: Step, name: string) {
    step.Read? && step.load.Loaded? ==>
      !IsGo(step.load.infos, name) && (name in s.entries ==> name in step.load.infos)
  }

  predicate AllLeaveOff(s: State, steps: seq<Step>, name: string)
    requires Runs(s, steps)
  {
    steps == [] ||
    var front, last := steps[..|steps| - 1], steps[|steps| - 1];
    AllLeaveOff(s, front, name) && LeavesOff(After(s, front), last, name)
  }

  lemma RangeLeavesMissed(s: State, step: Step, ch: nat)
    requires PhaseOk(s) && Missed(s, ch) && Enabled(s, step) && LeavesOff(s, step, s.chans[ch].name)
    requires step.Read? || step.Visit? || step.EndRange?
    ensures Missed(Do(s, step), ch) && Do(s, step).chans[ch].name == s.chans[ch].name
  {
  }

  lemma LockLeavesMissed(s: State, step: Step, ch: nat)
    requires PhaseOk(s) && Missed(s, ch) && Enabled(s, step) && (step.Lock? || step.Unlock?)
    ensures Missed(Do(s, step), ch) && Do(s, step).chans[ch].name == s.chans[ch].name
  {
    hide MustStop, IsGo;
  }

  lemma SendLeavesMissed(s: State, ch: nat)
    requires PhaseOk(s) && LeftOk(s) && Missed(s, ch) && Enabled(s, Send)
    ensures Missed(Do(s, Send), ch) && Do(s, Send).chans[ch].name == s.chans[ch].name
  {
    assert s.loop.left[0] in s.loop.left;
    hide MustStop, IsGo, NoRepeats;
  }

  lemma ClientsLeaveMissed(s: State, step: Step, ch: nat)
    requires Safe(s) && Missed(s, ch) && Enabled(s, step) && !step.Read? && !IsLoopStep(step)
    ensures Missed(Do(s, step), ch) && Do(s, step).chans[ch].name == s.chans[ch].name
  {
    ClientsLeaveLoop(s, step);
    hide Safe, Do, Enabled, MustStop;
  }

  lemma StaysMissed(s: State, step: Step, ch: nat)
    requires Safe(s) && Missed(s, ch) && Enabled(s, step) && LeavesOff(s, step, s.chans[ch].name)
    ensures Missed(Do(s, step), ch) && Do(s, step).chans[ch].name == s.chans[ch].name
  {
    hide RegistryOk, LeftOk, PhaseOk, ChansOk, Accounted, Missed, Enabled, Do, LeavesOff;
    if step.Read? || step.Visit? || step.EndRange? {
      RangeLeavesMissed(s, step, ch);
    } else if step.Send? {
      SendLeavesMissed(s, ch);
    } else if IsLoopStep(step) {
      LockLeavesMissed(s, step, ch);
    } else {
      ClientsLeaveMissed(s, step, ch);
    }
  }

  /** A channel registered while its name is not covered is missed, and from then on, for as long
      as the file keeps the name off go and does not drop it, it is never stopped: not by later
      passes, and not by loads that fail. */
  lemma {:induction false} UncoveredIsMissed(s: State, name: string, steps: seq<Step>)
    requires Safe(s) && Enabled(s, Register(name)) && !Covered(s, name)
    requires Runs(Do(s, Register(name)), steps) && AllLeaveOff(Do(s, Register(name)), steps, name)
    ensures var t := After(Do(s, Register(name)), steps);
            && Safe(t) && Missed(t, s.next) && t.chans[s.next].name == name
            && Got(Stop) !in t.chans[s.next].seen
  {
    var t := Do(s, Register(name));
    if steps == [] {
      RegisterSafe(s, name);
      assert ChanAt(t, s.next);
    } else {
      var front, last := steps[..|steps| - 1], steps[|steps| - 1];
      hide Safe, Missed, LeavesOff, Enabled, Do;
      UncoveredIsMissed(s, name, front);
      StaysMissed(After(t, front), last, s.next);
      StepSafe(After(t, front), last);
      MissedHasNoStop(After(t, steps), s.next);
    }
  }

  lemma MissedHasNoStop(s: State, ch: nat)
    requires Safe(s) && Missed(s, ch)
    ensures Got(Stop) !in s.chans[ch].seen
  {
    assert ChanAt(s, ch);
    assert s.loop.Sending? && s.loop.left != [] ==> s.loop.left[0] in s.loop.left;
  }
}
