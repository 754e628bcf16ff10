/** A rollout: the canary loop, the launcher with its counting semaphore and failure cut-off,
    the workers with their actions, and the load balancer's pool, as one step relation. */
module Rollout {
  import opened Actions
  import opened Pool
  import opened Counts
  import opened Precondition
  import Retry

  datatype Config = Config(backends: seq<string>, canaryNum: nat, maxFailures: nat, concurrency: nat)

  datatype EndState = Success | PreconditionFailure | CanaryFailure | MaxFailures

  /** The main goroutine: about to look at canary `pos`, running it, waiting for a slot,
      holding a slot before and after reading the failure counter, in wg.Wait, or returned. */
  datatype Launcher = Canary | CanaryRuns | Acquiring | Checking | Launching | Waiting | Ended(state: EndState)

  /** One action: not run, opening the binary, about to enter a state function, or returned. */
  datatype Act = Idle | Opening | At(fn: Fn) | Succeeded | Failed

  /** One worker: its action is running, it is about to count a failure, about to call wg.Done,
      about to give its slot back, or gone. */
  datatype Worker = NotLaunched | Working | Counting | Leaving | Releasing | Gone

  datatype State = State(
    launcher: Launcher,
    pos: nat,
    broke: bool,
    acts: seq<Act>,
    runs: seq<nat>,
    workers: seq<Worker>,
    slots: nat,
    failures: nat,
    pool: Lists,
    wrappers: nat)

  /** The reply to one step of an action. A remote call that fails may still have been applied. */
  datatype Reply = Okay | Fails(applied: bool)

  datatype Step =
    | StartCanary | EndCanary | EndCanaries
    | TakeSlot | ReadFailures | Launch
    | ActStep(i: nat, reply: Reply)
    | ActReturned(i: nat) | CountFailure(i: nat) | WgDone(i: nat) | ReleaseSlot(i: nat)
    | Return
    | Sicken(b: Backend) | Recover(b: Backend)

  predicate Running(a: Act) {
    a.Opening? || a.At?
  }

  predicate Returned(a: Act) {
    a.Succeeded? || a.Failed?
  }

  /** AddBackend on the server makes a new wrapper for the address. */
  function ServerAdd(cfg: Config, s: State, i: nat): (Lists, bool)
    requires i < |cfg.backends|
  {
    Added(s.pool, Backend(cfg.backends[i], s.wrappers))
  }

  predicate Sized(cfg: Config, s: State) {
    |s.acts| == |s.runs| == |s.workers| == |cfg.backends|
  }

  predicate Enabled(cfg: Config, s: State, step: Step) {
    && Sized(cfg, s)
    && match step
       case StartCanary => s.launcher.Canary? && s.pos < |s.acts| && s.pos < cfg.canaryNum
       case EndCanary => s.launcher.CanaryRuns? && s.pos < |s.acts| && Returned(s.acts[s.pos])
       case EndCanaries => s.launcher.Canary? && !(s.pos < |s.acts| && s.pos < cfg.canaryNum)
       case TakeSlot => s.launcher.Acquiring? && s.slots < cfg.concurrency
       case ReadFailures => s.launcher.Checking?
       case Launch => s.launcher.Launching? && s.pos < |s.acts|
       case ActStep(i, reply) =>
         && i < |s.acts| && Running(s.acts[i])
         && (s.acts[i] == At(AddBackend) && reply.Okay? ==> ServerAdd(cfg, s, i).1)
       case ActReturned(i) => i < |s.acts| && s.workers[i].Working? && Returned(s.acts[i])
       case CountFailure(i) => i < |s.acts| && s.workers[i].Counting?
       case WgDone(i) => i < |s.acts| && s.workers[i].Leaving?
       case ReleaseSlot(i) => i < |s.acts| && s.workers[i].Releasing? && s.slots > 0
       case Return => s.launcher.Waiting? && forall i | 0 <= i < |s.acts| ::
                        s.workers[i].NotLaunched? || s.workers[i].Releasing? || s.workers[i].Gone?
       case Sicken(b) => b in s.pool.healthy && ToSick(s.pool, b).Ok?
       case Recover(b) => b in s.pool.sick && ToHealthy(s.pool, b).Ok?
  }

  /** The head of the launch loop with its variable at `pos`. */
  function LoopHead(s: State, pos: nat): State {
    s.(pos := pos, launcher := if pos < |s.acts| then Acquiring else Waiting)
  }

  function SetAct(s: State, i: nat, a: Act): State
    requires i < |s.acts|
  {
    s.(acts := s.acts[i := a])
  }

  function SetWorker(s: State, i: nat, w: Worker): State
    requires i < |s.workers|
  {
    s.(workers := s.workers[i := w])
  }

  function StartAct(s: State, i: nat): State
    requires i < |s.acts| && i < |s.runs|
  {
    SetAct(s, i, Opening).(runs := s.runs[i := s.runs[i] + 1])
  }

  /** One step of action i, through the chain of state functions. */
  function DoAct(cfg: Config, s: State, i: nat, reply: Reply): State
    requires Sized(cfg, s) && i < |s.acts| && Running(s.acts[i])
  {
    var next := if reply.Fails? then Failed
                else if s.acts[i].Opening? then At(FindAppLocal)
                else if Next(s.acts[i].fn) == None then Succeeded
                else At(Next(s.acts[i].fn).value);
    var applied := reply.Okay? || reply.applied;
    var t := SetAct(s, i, next);
    if s.acts[i] == At(RmBackend) && applied then t.(pool := Removed(s.pool, cfg.backends[i]))
    else if s.acts[i] == At(AddBackend) && applied then
      t.(pool := ServerAdd(cfg, s, i).0, wrappers := s.wrappers + 1)
    else t
  }

  function Do(cfg: Config, s: State, step: Step): (t: State)
    requires Enabled(cfg, s, step)
    ensures Sized(cfg, t)
  {
    match step
    case StartCanary => StartAct(s, s.pos).(launcher := CanaryRuns)
    case EndCanary =>
      if s.acts[s.pos].Failed? then s.(launcher := Ended(CanaryFailure))
      else s.(launcher := Canary, pos := s.pos + 1)
    case EndCanaries => LoopHead(s, cfg.canaryNum)
    case TakeSlot => s.(launcher := Checking, slots := s.slots + 1)
    case ReadFailures =>
      if s.failures > cfg.maxFailures then s.(launcher := Waiting, broke := true)
      else s.(launcher := Launching)
    case Launch => LoopHead(SetWorker(StartAct(s, s.pos), s.pos, Working), s.pos + 1)
    case ActStep(i, reply) => DoAct(cfg, s, i, reply)
    case ActReturned(i) => SetWorker(s, i, if s.acts[i].Failed? then Counting else Leaving)
    case CountFailure(i) => SetWorker(s, i, Leaving).(failures := s.failures + 1)
    case WgDone(i) => SetWorker(s, i, Releasing)
    case ReleaseSlot(i) => SetWorker(s, i, Gone).(slots := s.slots - 1)
    case Return => s.(launcher := Ended(if s.failures > cfg.maxFailures then MaxFailures else Success))
    case Sicken(b) => s.(pool := ToSick(s.pool, b).lists)
    case Recover(b) => s.(pool := ToHealthy(s.pool, b).lists)
  }

  /** Where Run stands after its precondition check of the pool; `answered` is whether the load
      balancer answers it. */
  function Start(cfg: Config, pool: Lists, answered: bool): State {
    var n := |cfg.backends|;
    State(
      if CheckPasses(cfg.backends, if answered then Answer(HealthOf(pool)) else NoReply) then Canary
      else Ended(PreconditionFailure),
      0, false, seq(n, _ => Idle), seq(n, _ => 0), seq(n, _ => NotLaunched), 0, 0, pool, 0)
  }

  predicate Runs(cfg: Config, s: State, steps: seq<Step>)
    decreases steps
  {
    steps == [] || (Enabled(cfg, s, steps[0]) && Runs(cfg, Do(cfg, s, steps[0]), steps[1..]))
  }

  function After(cfg: Config, s: State, steps: seq<Step>): State
    requires Runs(cfg, s, steps)
    decreases steps
  {
    if steps == [] then s else After(cfg, Do(cfg, s, steps[0]), steps[1..])
  }

  // ---- Counting ----

  /** Configured backends that the pool does not have. */
  function Out(cfg: Config, s: State): set<nat> {
    set i | 0 <= i < |cfg.backends| && !InPool(s.pool, cfg.backends[i])
  }

  predicate MayStillCount(w: Worker) {
    w.Working? || w.Counting?
  }

  predicate HoldsSlot(w: Worker) {
    w.Working? || w.Counting? || w.Leaving? || w.Releasing?
  }

  predicate IsCounted(a: Act, w: Worker) {
    a.Failed? && (w.Leaving? || w.Releasing? || w.Gone?)
  }

  function UncountedIn(workers: seq<Worker>): set<nat> {
    set i | 0 <= i < |workers| && MayStillCount(workers[i])
  }

  function HoldersIn(workers: seq<Worker>): set<nat> {
    set i | 0 <= i < |workers| && HoldsSlot(workers[i])
  }

  function CountedIn(acts: seq<Act>, workers: seq<Worker>): set<nat>
    requires |acts| == |workers|
  {
    set i | 0 <= i < |acts| && IsCounted(acts[i], workers[i])
  }

  /** Launched actions that have not failed into the counter and may still do so, counted from
      the launch to the increment. */
  function Uncounted(s: State): set<nat> {
    UncountedIn(s.workers)
  }

  function Counted(s: State): set<nat>
    requires |s.acts| == |s.workers|
  {
    CountedIn(s.acts, s.workers)
  }

  function Holders(s: State): set<nat> {
    HoldersIn(s.workers)
  }

  /** The launcher's own slot: taken before the counter is read, and kept for good on a break. */
  function LauncherSlots(s: State): nat {
    if s.launcher.Checking? || s.launcher.Launching? || s.broke then 1 else 0
  }

  // ---- Invariants ----

  predicate InCanaries(s: State) {
    s.launcher.Canary? || s.launcher.CanaryRuns? || s.launcher == Ended(CanaryFailure)
      || s.launcher == Ended(PreconditionFailure)
  }

  predicate CanaryShape(cfg: Config, s: State)
    requires |s.acts| == |s.runs| == |s.workers|
  {
    && s.slots == 0 && s.failures == 0 && !s.broke && s.pos <= cfg.canaryNum
    && (s.launcher.CanaryRuns? ==> s.pos < |s.acts| && s.pos < cfg.canaryNum && !s.acts[s.pos].Idle?)
    && (s.launcher == Ended(CanaryFailure) ==> s.pos < |s.acts| && s.acts[s.pos].Failed?)
    && forall i | 0 <= i < |s.acts| ::
         && s.workers[i].NotLaunched?
         && (i < s.pos ==> s.acts[i].Succeeded?)
         && (i > s.pos ==> s.acts[i].Idle?)
         && (i == s.pos && (s.launcher.Canary? || s.launcher == Ended(PreconditionFailure)) ==> s.acts[i].Idle?)
  }

  predicate LaunchShape(cfg: Config, s: State)
    requires |s.acts| == |s.runs| == |s.workers|
  {
    && cfg.canaryNum <= s.pos
    && (s.launcher.Acquiring? || s.launcher.Checking? || s.launcher.Launching? ==> s.pos < |s.acts| && !s.broke)
    && (s.launcher.Waiting? || s.launcher.Ended? ==> s.broke || s.pos >= |s.acts|)
    && (s.broke ==> s.failures > cfg.maxFailures)
    && (s.launcher == Ended(Success) ==> s.failures <= cfg.maxFailures)
    && (s.launcher == Ended(MaxFailures) ==> s.failures > cfg.maxFailures)
    && forall i | 0 <= i < |s.acts| ::
         && (s.workers[i].NotLaunched? <==> i < cfg.canaryNum || i >= s.pos)
         && (i < cfg.canaryNum ==> s.acts[i].Succeeded?)
         && (s.launcher.Ended? ==> s.workers[i].NotLaunched? || s.workers[i].Releasing? || s.workers[i].Gone?)
  }

  /** Which action may be where, for each position of the launcher. */
  predicate Shape(cfg: Config, s: State) {
    && Sized(cfg, s)
    && (if InCanaries(s) then CanaryShape(cfg, s) else LaunchShape(cfg, s))
    && forall i | 0 <= i < |s.acts| ::
         && (s.acts[i].Idle? <==> s.runs[i] == 0) && s.runs[i] <= 1
         && (s.workers[i].NotLaunched? && !InCanaries(s) && i >= cfg.canaryNum ==> s.acts[i].Idle?)
         && (s.workers[i].Working? ==> !s.acts[i].Idle?)
         && (s.workers[i].Counting? ==> s.acts[i].Failed?)
         && (s.workers[i].Leaving? || s.workers[i].Releasing? || s.workers[i].Gone? ==> Returned(s.acts[i]))
  }

  /** The failure counter, the slots in use, and the cut-off. */
  predicate Tally(cfg: Config, s: State)
    requires |s.acts| == |s.workers|
  {
    && s.failures == |Counted(s)|
    && s.slots == |Holders(s)| + LauncherSlots(s)
    && s.slots <= cfg.concurrency
    && s.failures + |Uncounted(s)| + (if s.launcher.Launching? then 1 else 0) <= cfg.maxFailures + cfg.concurrency
  }

  /** Past the removal and not yet past the addition, or failed. */
  predicate MayBeOut(a: Act) {
    a.Failed? || (a.At? && Place(a.fn) > Place(RmBackend))
  }

  /** A backend out of the pool belongs to an action that took it out, and an action past its
      removal keeps its backend out until it adds it back. */
  predicate PoolOk(cfg: Config, s: State)
    requires |s.acts| == |cfg.backends|
  {
    && Good(s.pool) && Unique(cfg.backends)
    && forall i | 0 <= i < |s.acts| ::
         && (!InPool(s.pool, cfg.backends[i]) ==> MayBeOut(s.acts[i]))
         && (s.acts[i].At? && Place(s.acts[i].fn) > Place(RmBackend) ==> !InPool(s.pool, cfg.backends[i]))
  }

  // ---- Each step keeps the invariants ----

  lemma CanaryKeepsShape(cfg: Config, s: State, step: Step)
    requires Shape(cfg, s) && Enabled(cfg, s, step)
    requires step.StartCanary? || step.EndCanary? || step.EndCanaries?
    ensures Shape(cfg, Do(cfg, s, step))
  {
  }

  lemma LauncherKeepsShape(cfg: Config, s: State, step: Step)
    requires Shape(cfg, s) && Enabled(cfg, s, step)
    requires step.TakeSlot? || step.ReadFailures? || step.Return? || step.Sicken? || step.Recover?
    ensures Shape(cfg, Do(cfg, s, step))
  {
  }

  lemma LaunchKeepsShape(cfg: Config, s: State)
    requires Shape(cfg, s) && Enabled(cfg, s, Launch)
    ensures Shape(cfg, Do(cfg, s, Launch))
  {
  }

  /** Steps that an action has left. */
  function ActLeft(a: Act): nat {
    match a
    case Idle => 8
    case Opening => 7
    case At(fn) => LENGTH - Place(fn)
    case Succeeded => 0
    case Failed => 0
  }

  lemma ActAdvances(cfg: Config, s: State, i: nat, reply: Reply)
    requires Enabled(cfg, s, ActStep(i, reply))
    ensures var t := Do(cfg, s, ActStep(i, reply));
            && t == s.(acts := s.acts[i := t.acts[i]], pool := t.pool, wrappers := t.wrappers)
            && ActLeft(t.acts[i]) < ActLeft(s.acts[i]) && !t.acts[i].Idle?
  {
    hide Added, Removed;
  }

  lemma ActKeepsShape(cfg: Config, s: State, i: nat, reply: Reply)
    requires Shape(cfg, s) && Enabled(cfg, s, ActStep(i, reply))
    ensures Shape(cfg, Do(cfg, s, ActStep(i, reply)))
  {
    ActAdvances(cfg, s, i, reply);
    hide Do, ActLeft;
  }

  predicate IsWorkerStep(step: Step) {
    step.ActReturned? || step.CountFailure? || step.WgDone? || step.ReleaseSlot?
  }

  lemma WorkerAdvances(cfg: Config, s: State, step: Step)
    requires Enabled(cfg, s, step) && IsWorkerStep(step)
    ensures var t, v, w := Do(cfg, s, step), s.workers[step.i], Do(cfg, s, step).workers[step.i];
            && t == s.(workers := s.workers[step.i := w], slots := t.slots, failures := t.failures)
            && !v.NotLaunched? && !v.Gone? && !w.NotLaunched? && !w.Working?
            && (v.Releasing? ==> w.Gone?)
            && (v.Working? ==> Returned(s.acts[step.i]) && (w.Counting? ==> s.acts[step.i].Failed?))
            && (!v.Working? ==> !w.Counting?)
            && s.failures <= t.failures && (!v.Counting? ==> t.failures == s.failures)
  {
  }

  lemma WorkerKeepsShape(cfg: Config, s: State, step: Step)
    requires Shape(cfg, s) && Enabled(cfg, s, step) && IsWorkerStep(step)
    ensures Shape(cfg, Do(cfg, s, step))
  {
    WorkerAdvances(cfg, s, step);
    hide Do, Enabled;
  }

  lemma StepKeepsShape(cfg: Config, s: State, step: Step)
    requires Shape(cfg, s) && Enabled(cfg, s, step)
    ensures Shape(cfg, Do(cfg, s, step))
  {
    hide Shape, Do;
    match step
    case StartCanary => CanaryKeepsShape(cfg, s, step);
    case EndCanary => CanaryKeepsShape(cfg, s, step);
    case EndCanaries => CanaryKeepsShape(cfg, s, step);
    case Launch => LaunchKeepsShape(cfg, s);
    case ActStep(i, reply) => ActKeepsShape(cfg, s, i, reply);
    case ActReturned(_) => WorkerKeepsShape(cfg, s, step);
    case CountFailure(_) => WorkerKeepsShape(cfg, s, step);
    case WgDone(_) => WorkerKeepsShape(cfg, s, step);
    case ReleaseSlot(_) => WorkerKeepsShape(cfg, s, step);
    case _ => LauncherKeepsShape(cfg, s, step);
  }

  /** What one worker's move does to the three tallies. */
  lemma WorkerMoves(acts: seq<Act>, workers: seq<Worker>, i: nat, w: Worker)
    requires i < |acts| == |workers|
    ensures var after := workers[i := w];
            && |HoldersIn(after)| + One(HoldsSlot(workers[i])) == |HoldersIn(workers)| + One(HoldsSlot(w))
            && |UncountedIn(after)| + One(MayStillCount(workers[i]))
               == |UncountedIn(workers)| + One(MayStillCount(w))
            && |CountedIn(acts, after)| + One(IsCounted(acts[i], workers[i]))
               == |CountedIn(acts, workers)| + One(IsCounted(acts[i], w))
  {
    hide One;
    var after := workers[i := w];
    DiffersAt(HoldersIn(workers), HoldersIn(after), i);
    DiffersAt(UncountedIn(workers), UncountedIn(after), i);
    DiffersAt(CountedIn(acts, workers), CountedIn(acts, after), i);
  }

  /** The step of an action whose worker is not past it moves no tally. */
  lemma ActMoves(acts: seq<Act>, workers: seq<Worker>, i: nat, a: Act)
    requires i < |acts| == |workers|
    requires workers[i].NotLaunched? || workers[i].Working?
    ensures CountedIn(acts[i := a], workers) == CountedIn(acts, workers)
  {
  }

  lemma RunningIsWorking(cfg: Config, s: State, i: nat)
    requires Shape(cfg, s) && i < |s.acts| && (Running(s.acts[i]) || s.acts[i].Idle?)
    ensures s.workers[i].NotLaunched? || s.workers[i].Working?
  {
  }

  lemma LaunchKeepsTally(cfg: Config, s: State)
    requires Shape(cfg, s) && Tally(cfg, s) && Enabled(cfg, s, Launch)
    ensures Tally(cfg, Do(cfg, s, Launch))
  {
    var i := s.pos;
    assert s.workers[i].NotLaunched? && !s.broke;
    hide Shape, UncountedIn, HoldersIn, CountedIn;
    ActMoves(s.acts, s.workers, i, Opening);
    WorkerMoves(s.acts[i := Opening], s.workers, i, Working);
  }

  lemma ReadKeepsTally(cfg: Config, s: State)
    requires Shape(cfg, s) && Tally(cfg, s) && Enabled(cfg, s, ReadFailures)
    ensures Tally(cfg, Do(cfg, s, ReadFailures))
  {
    assert !s.broke;
    SubsetBound(Uncounted(s), Holders(s));
    hide Shape, UncountedIn, HoldersIn, CountedIn;
  }

  lemma ActKeepsTally(cfg: Config, s: State, i: nat, reply: Reply)
    requires Shape(cfg, s) && Tally(cfg, s) && Enabled(cfg, s, ActStep(i, reply))
    ensures Tally(cfg, Do(cfg, s, ActStep(i, reply)))
  {
    RunningIsWorking(cfg, s, i);
    ActAdvances(cfg, s, i, reply);
    hide Shape, UncountedIn, HoldersIn, CountedIn, Do, ActLeft;
    ActMoves(s.acts, s.workers, i, Do(cfg, s, ActStep(i, reply)).acts[i]);
  }

  /** A worker's own steps, from its action's return to the end of its slot. */
  lemma WorkerKeepsTally(cfg: Config, s: State, i: nat, step: Step)
    requires Shape(cfg, s) && Tally(cfg, s) && Enabled(cfg, s, step)
    requires step == ActReturned(i) || step == CountFailure(i) || step == WgDone(i) || step == ReleaseSlot(i)
    ensures Tally(cfg, Do(cfg, s, step))
  {
    assert s.workers[i].Counting? ==> s.acts[i].Failed?;
    hide Shape, UncountedIn, HoldersIn, CountedIn;
    WorkerMoves(s.acts, s.workers, i, Do(cfg, s, step).workers[i]);
  }

  /** A step that leaves the workers and the finished actions alone. */
  lemma OthersKeepTally(cfg: Config, s: State, step: Step)
    requires Shape(cfg, s) && Tally(cfg, s) && Enabled(cfg, s, step)
    requires step.EndCanary? || step.EndCanaries? || step.TakeSlot? || step.Return? || step.Sicken? || step.Recover?
    ensures Tally(cfg, Do(cfg, s, step))
  {
  }

  lemma CanaryKeepsTally(cfg: Config, s: State)
    requires Shape(cfg, s) && Tally(cfg, s) && Enabled(cfg, s, StartCanary)
    ensures Tally(cfg, Do(cfg, s, StartCanary))
  {
  }

  lemma StepKeepsTally(cfg: Config, s: State, step: Step)
    requires Shape(cfg, s) && Tally(cfg, s) && Enabled(cfg, s, step)
    ensures Tally(cfg, Do(cfg, s, step))
  {
    hide Shape, Tally, Enabled, Do;
    match step
    case StartCanary => CanaryKeepsTally(cfg, s);
    case Launch => LaunchKeepsTally(cfg, s);
    case ReadFailures => ReadKeepsTally(cfg, s);
    case ActStep(i, reply) => ActKeepsTally(cfg, s, i, reply);
    case ActReturned(i) => WorkerKeepsTally(cfg, s, i, step);
    case CountFailure(i) => WorkerKeepsTally(cfg, s, i, step);
    case WgDone(i) => WorkerKeepsTally(cfg, s, i, step);
    case ReleaseSlot(i) => WorkerKeepsTally(cfg, s, i, step);
    case _ => OthersKeepTally(cfg, s, step);
  }

  // ---- The pool ----

  /** A step that touches one configured backend and its action only. */
  lemma OneChangeKeepsPool(cfg: Config, s: State, t: State, i: nat)
    requires Sized(cfg, s) && PoolOk(cfg, s) && i < |s.acts| && |t.acts| == |s.acts| && Good(t.pool)
    requires forall j | 0 <= j < |s.acts| && j != i :: t.acts[j] == s.acts[j]
    requires forall other | other != cfg.backends[i] :: InPool(t.pool, other) <==> InPool(s.pool, other)
    requires !InPool(t.pool, cfg.backends[i]) ==> MayBeOut(t.acts[i])
    requires t.acts[i].At? && Place(t.acts[i].fn) > Place(RmBackend) ==> !InPool(t.pool, cfg.backends[i])
    ensures PoolOk(cfg, t)
  {
    hide Good, InPool, MayBeOut;
    assert forall j | 0 <= j < |s.acts| && j != i :: cfg.backends[j] != cfg.backends[i];
  }

  lemma ActKeepsPool(cfg: Config, s: State, i: nat, reply: Reply)
    requires Sized(cfg, s) && PoolOk(cfg, s) && Enabled(cfg, s, ActStep(i, reply))
    ensures PoolOk(cfg, Do(cfg, s, ActStep(i, reply)))
  {
    if s.acts[i] == At(RmBackend) {
      RemovedContent(s.pool, cfg.backends[i]);
    } else if s.acts[i] == At(AddBackend) {
      AddedContent(s.pool, Backend(cfg.backends[i], s.wrappers));
    }
    ActChangesPool(cfg, s, i, reply);
    hide Removed, Added, Good, InPool, Unique, Do;
    OneChangeKeepsPool(cfg, s, Do(cfg, s, ActStep(i, reply)), i);
  }

  lemma ActChangesPool(cfg: Config, s: State, i: nat, reply: Reply)
    requires Enabled(cfg, s, ActStep(i, reply))
    ensures var t := Do(cfg, s, ActStep(i, reply));
            var applied := reply.Okay? || reply.applied;
            && t.acts == s.acts[i := t.acts[i]]
            && t.pool == (if s.acts[i] == At(RmBackend) && applied then Removed(s.pool, cfg.backends[i])
                          else if s.acts[i] == At(AddBackend) && applied then ServerAdd(cfg, s, i).0
                          else s.pool)
            && (t.acts[i].Failed? <==> reply.Fails?)
            && (t.acts[i].At? && Place(t.acts[i].fn) > Place(RmBackend) ==>
                  s.acts[i].At? && s.acts[i].fn != AddBackend && Place(s.acts[i].fn) >= Place(RmBackend))
            && (MayBeOut(s.acts[i]) && s.acts[i] != At(AddBackend) ==> MayBeOut(t.acts[i]))
            && (s.acts[i] == At(RmBackend) ==> MayBeOut(t.acts[i]))
  {
    hide Added, Removed;
  }

  /** A health move changes which list a backend is in, not which addresses are in the pool. */
  lemma MoveKeepsAddresses(p: Lists, b: Backend)
    requires Good(p)
    ensures b in p.healthy ==>
              && ToSick(p, b).Ok? && Good(ToSick(p, b).lists)
              && forall a :: InPool(ToSick(p, b).lists, a) <==> InPool(p, a)
    ensures b in p.sick ==>
              && ToHealthy(p, b).Ok? && Good(ToHealthy(p, b).lists)
              && forall a :: InPool(ToHealthy(p, b).lists, a) <==> InPool(p, a)
  {
    MovesAreClean(p, b);
    if b in p.healthy {
      SameMembersSameAddresses(p, ToSick(p, b).lists);
    }
    if b in p.sick {
      SameMembersSameAddresses(p, ToHealthy(p, b).lists);
    }
  }

  lemma SameMembersSameAddresses(p: Lists, q: Lists)
    requires forall c :: c in p.healthy || c in p.sick <==> c in q.healthy || c in q.sick
    ensures forall a :: InPool(p, a) <==> InPool(q, a)
  {
    forall a ensures InPool(p, a) <==> InPool(q, a) {
      HasAddrIn(p.healthy, a);
      HasAddrIn(p.sick, a);
      HasAddrIn(q.healthy, a);
      HasAddrIn(q.sick, a);
    }
  }

  lemma StepKeepsPool(cfg: Config, s: State, step: Step)
    requires Shape(cfg, s) && PoolOk(cfg, s) && Enabled(cfg, s, step)
    ensures PoolOk(cfg, Do(cfg, s, step))
  {
    match step
    case ActStep(i, reply) => ActKeepsPool(cfg, s, i, reply);
    case Sicken(b) => MoveKeepsAddresses(s.pool, b);
    case Recover(b) => MoveKeepsAddresses(s.pool, b);
    case _ =>
  }

  // ---- Whole runs ----

  ghost predicate Inv(cfg: Config, s: State) {
    Shape(cfg, s) && Tally(cfg, s) && PoolOk(cfg, s)
  }

  lemma PassedStartOk(cfg: Config, pool: Lists)
    requires Good(pool) && CheckPasses(cfg.backends, Answer(HealthOf(pool)))
    ensures Inv(cfg, Start(cfg, pool, true))
  {
    CheckIsBijection(cfg.backends, pool);
    var s := Start(cfg, pool, true);
    assert Counted(s) == {} && Holders(s) == {} && Uncounted(s) == {};
    forall i | 0 <= i < |cfg.backends| ensures InPool(pool, cfg.backends[i]) {
      assert cfg.backends[i] in cfg.backends;
    }
  }

  lemma StepKeepsInv(cfg: Config, s: State, step: Step)
    requires Inv(cfg, s) && Enabled(cfg, s, step)
    ensures Inv(cfg, Do(cfg, s, step))
  {
    hide Shape, Tally, PoolOk, Enabled, Do;
    StepKeepsShape(cfg, s, step);
    StepKeepsTally(cfg, s, step);
    StepKeepsPool(cfg, s, step);
  }

  lemma {:induction false} EveryRun(cfg: Config, s: State, steps: seq<Step>)
    requires Inv(cfg, s) && Runs(cfg, s, steps)
    ensures Inv(cfg, After(cfg, s, steps))
    decreases steps
  {
    hide Shape, Tally, PoolOk, Enabled, Do;
    if steps != [] {
      StepKeepsInv(cfg, s, steps[0]);
      EveryRun(cfg, Do(cfg, s, steps[0]), steps[1..]);
    }
  }

  /** Whoever is out of the pool is the one canary, or is counted as failed or still uncounted. */
  lemma OutIsAccounted(cfg: Config, s: State)
    requires Inv(cfg, s)
    ensures InCanaries(s) ==> Out(cfg, s) <= {s.pos}
    ensures !InCanaries(s) ==> Out(cfg, s) <= Counted(s) + Uncounted(s)
  {
  }

  lemma CapacityInState(cfg: Config, s: State)
    requires Inv(cfg, s) && cfg.concurrency >= 1
    ensures |Out(cfg, s)| <= cfg.maxFailures + cfg.concurrency
  {
    OutIsAccounted(cfg, s);
    if InCanaries(s) {
      SubsetBound(Out(cfg, s), {s.pos});
    } else {
      SubsetBound(Out(cfg, s), Counted(s) + Uncounted(s));
    }
  }

  /** In every state of a rollout at most MaxFailures + Concurrency configured backends are out
      of the pool, whatever fails or is half done, and while health checks move backends
      between the lists. The slots in use and the failures counted or still to be counted
      keep their bounds, and the lists stay free of duplicates, so no health move panics. */
  lemma RolloutKeepsCapacity(cfg: Config, pool: Lists, steps: seq<Step>)
    requires Good(pool) && CheckPasses(cfg.backends, Answer(HealthOf(pool))) && cfg.concurrency >= 1
    requires Runs(cfg, Start(cfg, pool, true), steps)
    ensures var s := After(cfg, Start(cfg, pool, true), steps);
            && |Out(cfg, s)| <= cfg.maxFailures + cfg.concurrency
            && s.failures + |Uncounted(s)| <= cfg.maxFailures + cfg.concurrency
            && |Holders(s)| + LauncherSlots(s) == s.slots <= cfg.concurrency
            && Good(s.pool)
  {
    PassedStartOk(cfg, pool);
    EveryRun(cfg, Start(cfg, pool, true), steps);
    CapacityInState(cfg, After(cfg, Start(cfg, pool, true), steps));
  }

  // ---- A failed precondition ----

  /** Nothing has been started, and the pool has the addresses it had. */
  ghost predicate Halted(cfg: Config, pool: Lists, s: State) {
    && Sized(cfg, s) && s.launcher == Ended(PreconditionFailure) && s.slots == 0 && s.failures == 0
    && (forall i | 0 <= i < |s.acts| :: s.acts[i].Idle? && s.runs[i] == 0 && s.workers[i].NotLaunched?)
    && Good(s.pool) && forall a :: InPool(s.pool, a) <==> InPool(pool, a)
  }

  lemma StaysHalted(cfg: Config, pool: Lists, s: State, step: Step)
    requires Halted(cfg, pool, s) && Enabled(cfg, s, step)
    ensures Halted(cfg, pool, Do(cfg, s, step))
  {
    hide ToSick, ToHealthy, Good, InPool;
    match step
    case Sicken(b) => MoveKeepsAddresses(s.pool, b);
    case Recover(b) => MoveKeepsAddresses(s.pool, b);
    case _ =>
  }

  lemma {:induction false} HaltedForEver(cfg: Config, pool: Lists, s: State, steps: seq<Step>)
    requires Halted(cfg, pool, s) && Runs(cfg, s, steps)
    ensures Halted(cfg, pool, After(cfg, s, steps))
    decreases steps
  {
    hide Halted, Enabled, Do;
    if steps != [] {
      StaysHalted(cfg, pool, s, steps[0]);
      HaltedForEver(cfg, pool, Do(cfg, s, steps[0]), steps[1..]);
    }
  }

  lemma {:induction false} NeverFailsLater(cfg: Config, s: State, steps: seq<Step>)
    requires s.launcher != Ended(PreconditionFailure) && Runs(cfg, s, steps)
    ensures After(cfg, s, steps).launcher != Ended(PreconditionFailure)
    decreases steps
  {
    if steps != [] {
      assert Do(cfg, s, steps[0]).launcher != Ended(PreconditionFailure) by {
        hide ToSick, ToHealthy, Added, Removed;
      }
      hide Enabled, Do;
      NeverFailsLater(cfg, Do(cfg, s, steps[0]), steps[1..]);
    }
  }

  /** Run touches nothing unless the load balancer answers, no backend is sick, and the
      configuration names each healthy backend once and nothing else: otherwise it ends in a
      precondition failure with no action started and the addresses of the pool as they were,
      and with all that it never does. */
  lemma PreconditionGates(cfg: Config, pool: Lists, answered: bool, steps: seq<Step>)
    requires Good(pool) && Runs(cfg, Start(cfg, pool, answered), steps)
    ensures var s := After(cfg, Start(cfg, pool, answered), steps);
            if && answered && pool.sick == []
               && (forall i, j | 0 <= i < j < |cfg.backends| :: cfg.backends[i] != cfg.backends[j])
               && (forall a :: a in cfg.backends <==> exists b :: b in pool.healthy && b.addr == a)
            then s.launcher != Ended(PreconditionFailure)
            else
              && s.launcher == Ended(PreconditionFailure) && Sized(cfg, s)
              && (forall i | 0 <= i < |s.acts| :: s.acts[i].Idle? && s.runs[i] == 0 && s.workers[i].NotLaunched?)
              && forall a :: InPool(s.pool, a) <==> InPool(pool, a)
  {
    CheckIsBijection(cfg.backends, pool);
    forall a ensures HasAddr(pool.healthy, a) <==> exists b :: b in pool.healthy && b.addr == a {
      HasAddrIn(pool.healthy, a);
    }
    var s := Start(cfg, pool, answered);
    if CheckPasses(cfg.backends, if answered then Answer(HealthOf(pool)) else NoReply) {
      NeverFailsLater(cfg, s, steps);
    } else {
      HaltedForEver(cfg, pool, s, steps);
    }
  }

  // ---- What a finished rollout means ----

  function FailedActs(s: State): set<nat> {
    set i | 0 <= i < |s.acts| && s.acts[i].Failed?
  }

  /** Which actions have an error, as Status reads them. */
  function Errors(s: State): seq<bool> {
    seq(|s.acts|, i requires 0 <= i < |s.acts| => s.acts[i].Failed?)
  }

  lemma StatusCounts(s: State)
    ensures |Retry.FailedList(Errors(s))| == |FailedActs(s)|
  {
    Retry.FailedListLength(Errors(s));
    assert Retry.Failing(Errors(s)) == FailedActs(s);
  }

  lemma SuccessInState(cfg: Config, s: State)
    requires Inv(cfg, s) && s.launcher == Ended(Success)
    ensures !s.broke
    ensures forall i | 0 <= i < |cfg.backends| :: s.runs[i] == 1 && Returned(s.acts[i])
    ensures |Retry.FailedList(Errors(s))| == s.failures <= cfg.maxFailures
    ensures forall i | 0 <= i < |cfg.backends| && s.acts[i].Succeeded? :: InPool(s.pool, cfg.backends[i])
  {
    StatusCounts(s);
    assert FailedActs(s) == Counted(s);
  }

  /** If Run ends in success the launch loop never broke, every action ran exactly once, Status
      lists as many failures as the counter says and at most MaxFailures, and the backend of
      every action that succeeded is in the pool. */
  lemma SuccessAccounts(cfg: Config, pool: Lists, steps: seq<Step>)
    requires Good(pool) && CheckPasses(cfg.backends, Answer(HealthOf(pool)))
    requires Runs(cfg, Start(cfg, pool, true), steps)
    requires After(cfg, Start(cfg, pool, true), steps).launcher == Ended(Success)
    ensures var s := After(cfg, Start(cfg, pool, true), steps);
            && !s.broke && Sized(cfg, s)
            && (forall i | 0 <= i < |cfg.backends| :: s.runs[i] == 1 && Returned(s.acts[i]))
            && |Retry.FailedList(Errors(s))| == s.failures <= cfg.maxFailures
            && forall i | 0 <= i < |cfg.backends| && s.acts[i].Succeeded? :: InPool(s.pool, cfg.backends[i])
  {
    PassedStartOk(cfg, pool);
    EveryRun(cfg, Start(cfg, pool, true), steps);
    SuccessInState(cfg, After(cfg, Start(cfg, pool, true), steps));
  }

  /** If Run ends because of too many failures there are more than MaxFailures of them, and Status
      lists as many as were counted. */
  lemma MaxFailuresAccounts(cfg: Config, pool: Lists, steps: seq<Step>)
    requires Good(pool) && CheckPasses(cfg.backends, Answer(HealthOf(pool)))
    requires Runs(cfg, Start(cfg, pool, true), steps)
    requires After(cfg, Start(cfg, pool, true), steps).launcher == Ended(MaxFailures)
    ensures var s := After(cfg, Start(cfg, pool, true), steps);
            |Retry.FailedList(Errors(s))| == s.failures > cfg.maxFailures
  {
    PassedStartOk(cfg, pool);
    EveryRun(cfg, Start(cfg, pool, true), steps);
    FailuresInState(cfg, After(cfg, Start(cfg, pool, true), steps));
  }

  lemma FailuresInState(cfg: Config, s: State)
    requires Inv(cfg, s) && s.launcher == Ended(MaxFailures)
    ensures |Retry.FailedList(Errors(s))| == s.failures > cfg.maxFailures
  {
    StatusCounts(s);
    assert FailedActs(s) == Counted(s);
  }

  /** No action is ever run twice by Run, and a canary failure is the only failure. */
  lemma RunsAtMostOnce(cfg: Config, pool: Lists, steps: seq<Step>)
    requires Good(pool) && CheckPasses(cfg.backends, Answer(HealthOf(pool)))
    requires Runs(cfg, Start(cfg, pool, true), steps)
    ensures var s := After(cfg, Start(cfg, pool, true), steps);
            && Sized(cfg, s)
            && (forall i | 0 <= i < |cfg.backends| :: s.runs[i] <= 1)
            && (s.launcher == Ended(CanaryFailure) ==> FailedActs(s) == {s.pos})
  {
    PassedStartOk(cfg, pool);
    EveryRun(cfg, Start(cfg, pool, true), steps);
  }

  // ---- Run returns ----

  /** A step of Run's own goroutines, not of the pool's health checks. */
  predicate IsOwn(step: Step) {
    !step.Sicken? && !step.Recover?
  }

  /** Steps that a worker and the launcher have left. */
  function WorkerLeft(w: Worker): nat {
    match w
    case NotLaunched => 5
    case Working => 4
    case Counting => 3
    case Leaving => 2
    case Releasing => 1
    case Gone => 0
  }

  function LauncherLeft(s: State): nat {
    var ahead := if s.pos < |s.acts| then 4 * (|s.acts| - s.pos) else 0;
    match s.launcher
    case Canary => ahead + 6
    case CanaryRuns => ahead + 5
    case Acquiring => ahead + 4
    case Checking => ahead + 3
    case Launching => ahead + 2
    case Waiting => 1
    case Ended(_) => 0
  }

  function ActsLeft(acts: seq<Act>): nat {
    if acts == [] then 0 else ActsLeft(acts[..|acts| - 1]) + ActLeft(acts[|acts| - 1])
  }

  function WorkersLeft(workers: seq<Worker>): nat {
    if workers == [] then 0 else WorkersLeft(workers[..|workers| - 1]) + WorkerLeft(workers[|workers| - 1])
  }

  function Rank(s: State): nat {
    LauncherLeft(s) + ActsLeft(s.acts) + WorkersLeft(s.workers)
  }

  lemma {:induction false} ActsLeftMoves(acts: seq<Act>, i: nat, a: Act)
    requires i < |acts|
    ensures ActsLeft(acts[i := a]) + ActLeft(acts[i]) == ActsLeft(acts) + ActLeft(a)
  {
    var n := |acts| - 1;
    if i < n {
      assert acts[i := a][..n] == acts[..n][i := a];
      ActsLeftMoves(acts[..n], i, a);
    } else {
      assert acts[i := a][..n] == acts[..n];
    }
  }

  lemma {:induction false} WorkersLeftMoves(workers: seq<Worker>, i: nat, w: Worker)
    requires i < |workers|
    ensures WorkersLeft(workers[i := w]) + WorkerLeft(workers[i]) == WorkersLeft(workers) + WorkerLeft(w)
  {
    var n := |workers| - 1;
    if i < n {
      assert workers[i := w][..n] == workers[..n][i := w];
      WorkersLeftMoves(workers[..n], i, w);
    } else {
      assert workers[i := w][..n] == workers[..n];
    }
  }

  lemma LauncherStepRanks(cfg: Config, s: State, step: Step)
    requires Shape(cfg, s) && Enabled(cfg, s, step)
    requires step.EndCanary? || step.EndCanaries? || step.TakeSlot? || step.ReadFailures? || step.Return?
    ensures Rank(Do(cfg, s, step)) < Rank(s)
  {
    hide ActsLeft, WorkersLeft;
  }

  lemma StartCanaryRanks(cfg: Config, s: State)
    requires Shape(cfg, s) && Enabled(cfg, s, StartCanary)
    ensures Rank(Do(cfg, s, StartCanary)) < Rank(s)
  {
    assert s.acts[s.pos].Idle?;
    hide ActsLeft, WorkersLeft, Shape;
    ActsLeftMoves(s.acts, s.pos, Opening);
  }

  lemma LaunchRanks(cfg: Config, s: State)
    requires Shape(cfg, s) && Enabled(cfg, s, Launch)
    ensures Rank(Do(cfg, s, Launch)) < Rank(s)
  {
    assert s.acts[s.pos].Idle? && s.workers[s.pos].NotLaunched?;
    hide ActsLeft, WorkersLeft, Shape;
    ActsLeftMoves(s.acts, s.pos, Opening);
    WorkersLeftMoves(s.workers, s.pos, Working);
  }

  lemma ActStepRanks(cfg: Config, s: State, i: nat, reply: Reply)
    requires Enabled(cfg, s, ActStep(i, reply))
    ensures Rank(Do(cfg, s, ActStep(i, reply))) < Rank(s)
  {
    ActAdvances(cfg, s, i, reply);
    hide ActsLeft, WorkersLeft, ActLeft, Do;
    ActsLeftMoves(s.acts, i, Do(cfg, s, ActStep(i, reply)).acts[i]);
  }

  lemma WorkerStepRanks(cfg: Config, s: State, i: nat, step: Step)
    requires Enabled(cfg, s, step)
    requires step == ActReturned(i) || step == CountFailure(i) || step == WgDone(i) || step == ReleaseSlot(i)
    ensures Rank(Do(cfg, s, step)) < Rank(s)
  {
    hide ActsLeft, WorkersLeft;
    WorkersLeftMoves(s.workers, i, Do(cfg, s, step).workers[i]);
  }

  /** Every step of Run's own uses up something; a health move does not touch what is left. */
  lemma StepRanks(cfg: Config, s: State, step: Step)
    requires Shape(cfg, s) && Enabled(cfg, s, step)
    ensures Rank(Do(cfg, s, step)) + (if IsOwn(step) then 1 else 0) <= Rank(s)
  {
    hide Shape, Rank;
    match step
    case StartCanary => StartCanaryRanks(cfg, s);
    case Launch => LaunchRanks(cfg, s);
    case ActStep(i, reply) => ActStepRanks(cfg, s, i, reply);
    case ActReturned(i) => WorkerStepRanks(cfg, s, i, step);
    case CountFailure(i) => WorkerStepRanks(cfg, s, i, step);
    case WgDone(i) => WorkerStepRanks(cfg, s, i, step);
    case ReleaseSlot(i) => WorkerStepRanks(cfg, s, i, step);
    case Sicken(_) => SameRank(s, Do(cfg, s, step));
    case Recover(_) => SameRank(s, Do(cfg, s, step));
    case _ => LauncherStepRanks(cfg, s, step);
  }

  lemma SameRank(s: State, t: State)
    requires t == s.(pool := t.pool)
    ensures Rank(t) == Rank(s)
  {
  }

  function OwnSteps(steps: seq<Step>): nat {
    if steps == [] then 0 else (if IsOwn(steps[0]) then 1 else 0) + OwnSteps(steps[1..])
  }

  lemma {:induction false} OwnStepsBound(cfg: Config, s: State, steps: seq<Step>)
    requires Inv(cfg, s) && Runs(cfg, s, steps)
    ensures OwnSteps(steps) + Rank(After(cfg, s, steps)) <= Rank(s)
    decreases steps
  {
    hide Shape, Tally, PoolOk, Enabled, Do, Rank;
    if steps != [] {
      StepKeepsInv(cfg, s, steps[0]);
      StepRanks(cfg, s, steps[0]);
      OwnStepsBound(cfg, Do(cfg, s, steps[0]), steps[1..]);
    }
  }

  lemma WorkerCanStep(cfg: Config, s: State, i: nat)
    requires Shape(cfg, s) && Tally(cfg, s) && i < |s.acts|
    requires HoldsSlot(s.workers[i])
    ensures exists step :: IsOwn(step) && Enabled(cfg, s, step)
  {
    match s.workers[i]
    case Working =>
      if Running(s.acts[i]) {
        assert Enabled(cfg, s, ActStep(i, Fails(false)));
      } else {
        assert Enabled(cfg, s, ActReturned(i));
      }
    case Counting => assert Enabled(cfg, s, CountFailure(i));
    case Leaving => assert Enabled(cfg, s, WgDone(i));
    case Releasing =>
      assert i in Holders(s);
      assert Holders(s) != {};
      assert Enabled(cfg, s, ReleaseSlot(i));
    case _ =>
  }

  /** As long as Run has not returned, one of its own goroutines can step: a full semaphore
      always has a worker behind every slot. */
  lemma NoDeadlock(cfg: Config, s: State)
    requires Inv(cfg, s) && cfg.concurrency >= 1 && !s.launcher.Ended?
    ensures exists step :: IsOwn(step) && Enabled(cfg, s, step)
  {
    match s.launcher
    case Canary =>
      if s.pos < |s.acts| && s.pos < cfg.canaryNum {
        assert Enabled(cfg, s, StartCanary);
      } else {
        assert Enabled(cfg, s, EndCanaries);
      }
    case CanaryRuns =>
      if Running(s.acts[s.pos]) {
        assert Enabled(cfg, s, ActStep(s.pos, Fails(false)));
      } else {
        assert Enabled(cfg, s, EndCanary);
      }
    case Acquiring =>
      if s.slots < cfg.concurrency {
        assert Enabled(cfg, s, TakeSlot);
      } else {
        assert Holders(s) != {};
        var i :| i in Holders(s);
        WorkerCanStep(cfg, s, i);
      }
    case Checking => assert Enabled(cfg, s, ReadFailures);
    case Launching => assert Enabled(cfg, s, Launch);
    case Waiting =>
      if i :| 0 <= i < |s.acts| && (s.workers[i].Working? || s.workers[i].Counting? || s.workers[i].Leaving?) {
        WorkerCanStep(cfg, s, i);
      } else {
        assert Enabled(cfg, s, Return);
      }
    case _ =>
  }

  /** Whatever a step of a running action may reply, in every reachable state it can reply. */
  lemma EveryReplyIsPossible(cfg: Config, s: State, i: nat, reply: Reply)
    requires Inv(cfg, s) && i < |s.acts| && Running(s.acts[i])
    ensures Enabled(cfg, s, ActStep(i, reply))
  {
    if s.acts[i] == At(AddBackend) {
      assert !InPool(s.pool, cfg.backends[i]);
      AddedContent(s.pool, Backend(cfg.backends[i], s.wrappers));
    }
  }

  predicate IsOkay(step: Step) {
    step.ActStep? ==> step.reply.Okay?
  }

  lemma {:induction false} OkayRunsFailNothing(cfg: Config, s: State, steps: seq<Step>)
    requires Inv(cfg, s) && FailedActs(s) == {} && Runs(cfg, s, steps)
    requires forall k | 0 <= k < |steps| :: IsOkay(steps[k])
    ensures FailedActs(After(cfg, s, steps)) == {}
    decreases steps
  {
    if steps != [] {
      OkayStepFailsNothing(cfg, s, steps[0]);
      StepKeepsInv(cfg, s, steps[0]);
      hide Inv, Enabled, Do, FailedActs;
      OkayRunsFailNothing(cfg, Do(cfg, s, steps[0]), steps[1..]);
    }
  }

  lemma OkayStepFailsNothing(cfg: Config, s: State, step: Step)
    requires FailedActs(s) == {} && Enabled(cfg, s, step) && IsOkay(step)
    ensures FailedActs(Do(cfg, s, step)) == {}
  {
    var t := Do(cfg, s, step);
    forall i | 0 <= i < |t.acts| ensures !t.acts[i].Failed? {
      assert i !in FailedActs(s);
      if step.ActStep? {
        ActChangesPool(cfg, s, step.i, step.reply);
      }
    }
    hide Added, Removed, ToSick, ToHealthy;
  }

  /** When nothing fails, the rollout succeeds: if every step of every action goes well, Run can
      go on in that way until it has returned, and it returns success, with every backend back in
      the pool. */
  lemma OkayRunsSucceed(cfg: Config, pool: Lists, steps: seq<Step>)
    requires Good(pool) && CheckPasses(cfg.backends, Answer(HealthOf(pool))) && cfg.concurrency >= 1
    requires Runs(cfg, Start(cfg, pool, true), steps) && forall k | 0 <= k < |steps| :: IsOkay(steps[k])
    ensures var s := After(cfg, Start(cfg, pool, true), steps);
            if s.launcher.Ended?
            then s.launcher == Ended(Success) && Sized(cfg, s) && (forall i | 0 <= i < |s.acts| :: s.acts[i].Succeeded?)
                 && forall a | a in cfg.backends :: InPool(s.pool, a)
            else exists step :: IsOwn(step) && IsOkay(step) && Enabled(cfg, s, step)
  {
    var s := Start(cfg, pool, true);
    PassedStartOk(cfg, pool);
    OkayRunsFailNothing(cfg, s, steps);
    EveryRun(cfg, s, steps);
    var t := After(cfg, s, steps);
    if t.launcher.Ended? {
      NeverFailsLater(cfg, s, steps);
      OkayEnd(cfg, t);
    } else {
      NoDeadlock(cfg, t);
      var step :| IsOwn(step) && Enabled(cfg, t, step);
      if step.ActStep? {
        EveryReplyIsPossible(cfg, t, step.i, Okay);
        assert IsOwn(ActStep(step.i, Okay)) && IsOkay(ActStep(step.i, Okay));
      }
    }
  }

  lemma OkayEnd(cfg: Config, s: State)
    requires Inv(cfg, s) && FailedActs(s) == {} && s.launcher.Ended? && s.launcher != Ended(PreconditionFailure)
    ensures s.launcher == Ended(Success)
    ensures forall i | 0 <= i < |s.acts| :: s.acts[i].Succeeded?
    ensures forall a | a in cfg.backends :: InPool(s.pool, a)
  {
    forall i | 0 <= i < |s.acts| ensures !s.acts[i].Failed? {
      assert i !in FailedActs(s);
    }
    assert Counted(s) == {};
    assert s.failures == 0 && s.launcher != Ended(CanaryFailure) && s.launcher != Ended(MaxFailures);
    assert s.launcher.state.Success?;
    SuccessInState(cfg, s);
    forall a | a in cfg.backends ensures InPool(s.pool, a) {
      var i :| 0 <= i < |cfg.backends| && cfg.backends[i] == a;
      assert s.acts[i].Succeeded?;
    }
  }

  lemma {:induction false} StartRank(acts: seq<Act>, workers: seq<Worker>)
    requires |acts| == |workers| && forall i | 0 <= i < |acts| :: acts[i] == Idle && workers[i] == NotLaunched
    ensures ActsLeft(acts) + WorkersLeft(workers) == 13 * |acts|
  {
    if acts != [] {
      StartRank(acts[..|acts| - 1], workers[..|workers| - 1]);
    }
  }

  /** Run returns: its goroutines take at most 17 steps for each backend and 6 more, however
      many health checks come between, and one of them can always step until it has returned. */
  lemma RunReturns(cfg: Config, pool: Lists, steps: seq<Step>)
    requires Good(pool) && CheckPasses(cfg.backends, Answer(HealthOf(pool))) && cfg.concurrency >= 1
    requires Runs(cfg, Start(cfg, pool, true), steps)
    ensures OwnSteps(steps) <= 17 * |cfg.backends| + 6
    ensures var s := After(cfg, Start(cfg, pool, true), steps);
            s.launcher.Ended? || exists step :: IsOwn(step) && Enabled(cfg, s, step)
  {
    var s := Start(cfg, pool, true);
    PassedStartOk(cfg, pool);
    EveryRun(cfg, s, steps);
    OwnStepsBound(cfg, s, steps);
    StartRank(s.acts, s.workers);
    if !After(cfg, s, steps).launcher.Ended? {
      NoDeadlock(cfg, After(cfg, s, steps));
    }
  }
}
