/** The scan as a pipeline of goroutines: a generator of addresses, a stage that pings each
    address, a stage that runs uname on the reachable ones, and a printer. Channels have one
    slot; each stage reads in one goroutine and spawns a worker per item under a limit of 100. */
module ScanPipeline {
  import opened HostRange

  type Host = nat

  datatype Record = Record(host: Host, reachable: bool, loginSSH: bool, uname: string)

  datatype Reply = NoLogin | Text(text: string)

  /** Whether a host answers a ping, and what uname over ssh gives. */
  datatype World = World(alive: Host -> bool, uname: Host -> Reply)

  function Pinged(w: World, h: Host): Record {
    Record(h, w.alive(h), false, "")
  }

  function AfterUname(w: World, r: Record): Record {
    match w.uname(r.host)
    case NoLogin => r
    case Text(text) => r.(loginSSH := true, uname := text)
  }

  /** The one record that the scan should print for a host. */
  function Expected(w: World, h: Host): Record {
    if w.alive(h) then AfterUname(w, Pinged(w, h)) else Pinged(w, h)
  }

  /** What a record should say, field by field. */
  predicate IsRight(w: World, r: Record) {
    && r.reachable == w.alive(r.host)
    && (r.loginSSH <==> w.alive(r.host) && w.uname(r.host).Text?)
    && (if r.loginSSH then r.uname == w.uname(r.host).text else r.uname == "")
  }

  /** Only the right record of a host is the one expected for it. */
  lemma ExpectedIsRight(w: World, r: Record)
    ensures r == Expected(w, r.host) <==> IsRight(w, r)
  {
  }

  const LIMIT := 100

  // ---- One stage ----

  /** Its job: which items get a worker, what a worker sends, and what is passed on as it is. */
  datatype Job<!A> = Job(host: A -> Host, spawns: A -> bool, work: A -> Record, pass: A -> Record)

  datatype Chan<T> = Chan(buf: seq<T>, closed: bool)

  /** The reading goroutine: in the range loop, about to send an item on unworked, holding an
      item for which it has no slot yet, in wg.Wait, or returned with its channel closed. */
  datatype Reader<A> = Reading | Passing(record: Record) | Holding(item: A) | Waiting | Returned

  /** A worker: working, about to send, sent, or past wg.Done and still holding its slot. */
  datatype Worker<A> = Busy(item: A) | Sending(record: Record) | Sent | Leaving

  datatype Stage<A> = Stage(reader: Reader<A>, workers: seq<Worker<A>>)

  datatype StageStep =
    | Read | EndOfInput | Pass | Spawn | Close
    | Work(i: nat) | Send(i: nat) | WgDone(i: nat) | Release(i: nat)

  predicate CanSend<T>(c: Chan<T>) {
    |c.buf| < 1
  }

  predicate Enabled<A>(st: Stage<A>, input: Chan<A>, output: Chan<Record>, step: StageStep) {
    match step
    case Read => st.reader.Reading? && input.buf != []
    case EndOfInput => st.reader.Reading? && input.buf == [] && input.closed
    case Pass => st.reader.Passing? && CanSend(output)
    case Spawn => st.reader.Holding? && |st.workers| < LIMIT
    case Close => st.reader.Waiting? && forall i | 0 <= i < |st.workers| :: st.workers[i].Leaving?
    case Work(i) => i < |st.workers| && st.workers[i].Busy?
    case Send(i) => i < |st.workers| && st.workers[i].Sending? && CanSend(output)
    case WgDone(i) => i < |st.workers| && st.workers[i].Sent?
    case Release(i) => i < |st.workers| && st.workers[i].Leaving?
  }

  datatype Effect<A> = Effect(stage: Stage<A>, input: Chan<A>, output: Chan<Record>)

  function Step<A>(job: Job<A>, st: Stage<A>, input: Chan<A>, output: Chan<Record>, step: StageStep): Effect<A>
    requires Enabled(st, input, output, step)
  {
    match step
    case Read =>
      var item := input.buf[0];
      var reader := if job.spawns(item) then Holding(item) else Passing(job.pass(item));
      Effect(st.(reader := reader), input.(buf := input.buf[1..]), output)
    case EndOfInput => Effect(st.(reader := Waiting), input, output)
    case Pass => Effect(st.(reader := Reading), input, output.(buf := output.buf + [st.reader.record]))
    case Spawn => Effect(Stage(Reading, st.workers + [Busy(st.reader.item)]), input, output)
    case Close => Effect(st.(reader := Returned), input, output.(closed := true))
    case Work(i) =>
      Effect(st.(workers := st.workers[i := Sending(job.work(st.workers[i].item))]), input, output)
    case Send(i) =>
      Effect(st.(workers := st.workers[i := Sent]), input, output.(buf := output.buf + [st.workers[i].record]))
    case WgDone(i) => Effect(st.(workers := st.workers[i := Leaving]), input, output)
    case Release(i) => Effect(st.(workers := st.workers[..i] + st.workers[i + 1..]), input, output)
  }

  /** About to put a record on the output channel. */
  predicate Sends<A>(st: Stage<A>, step: StageStep) {
    match step
    case Pass => st.reader.Passing?
    case Send(i) => i < |st.workers| && st.workers[i].Sending?
    case _ => false
  }

  /** What holds of a stage throughout: items and records are the right ones, the limit is
      kept, and the output is closed exactly when the reader has returned, by which time
      every worker is past wg.Done. */
  ghost predicate StageOk<A>(job: Job<A>, good: A -> bool, want: Host -> Record,
                             st: Stage<A>, input: Chan<A>, output: Chan<Record>)
  {
    && |st.workers| <= LIMIT
    && (forall k | 0 <= k < |input.buf| :: good(input.buf[k]))
    && (st.reader.Holding? ==> good(st.reader.item) && job.spawns(st.reader.item))
    && (st.reader.Passing? ==> st.reader.record == want(st.reader.record.host))
    && (forall k | 0 <= k < |st.workers| ::
          && (st.workers[k].Busy? ==> good(st.workers[k].item) && job.spawns(st.workers[k].item))
          && (st.workers[k].Sending? ==> st.workers[k].record == want(st.workers[k].record.host))
          && (st.reader.Returned? ==> st.workers[k].Leaving?))
    && (st.reader.Waiting? || st.reader.Returned? ==> input.closed && input.buf == [])
    && (output.closed <==> st.reader.Returned?)
    && |output.buf| <= 1
    && (forall k | 0 <= k < |output.buf| :: output.buf[k] == want(output.buf[k].host))
  }

  ghost predicate JobOk<A(!new)>(job: Job<A>, good: A -> bool, want: Host -> Record) {
    forall a | good(a) ::
      && (job.spawns(a) ==> job.work(a) == want(job.host(a)))
      && (!job.spawns(a) ==> job.pass(a) == want(job.host(a)))
      && want(job.host(a)).host == job.host(a)
  }

  lemma StepKeepsStageOk<A(!new)>(job: Job<A>, good: A -> bool, want: Host -> Record,
                                  st: Stage<A>, input: Chan<A>, output: Chan<Record>, step: StageStep)
    requires JobOk(job, good, want) && StageOk(job, good, want, st, input, output)
    requires Enabled(st, input, output, step)
    ensures var e := Step(job, st, input, output, step);
            StageOk(job, good, want, e.stage, e.input, e.output)
    ensures Sends(st, step) ==> !output.closed
  {
  }

  // ---- Where a host is, and how much work is left, inside a stage ----

  function HostOf(r: Record): Host { r.host }

  /** How often a host occurs among the items of a list. */
  function Count<A>(items: seq<A>, host: A -> Host, h: Host): nat {
    if items == [] then 0
    else Count(items[..|items| - 1], host, h) + (if host(items[|items| - 1]) == h then 1 else 0)
  }

  function InWorker<A>(x: Worker<A>, host: A -> Host, h: Host): nat {
    match x
    case Busy(item) => if host(item) == h then 1 else 0
    case Sending(r) => if r.host == h then 1 else 0
    case _ => 0
  }

  function InReader<A>(x: Reader<A>, host: A -> Host, h: Host): nat {
    match x
    case Holding(item) => if host(item) == h then 1 else 0
    case Passing(r) => if r.host == h then 1 else 0
    case _ => 0
  }

  function InWorkers<A>(ws: seq<Worker<A>>, host: A -> Host, h: Host): nat {
    if ws == [] then 0
    else InWorkers(ws[..|ws| - 1], host, h) + InWorker(ws[|ws| - 1], host, h)
  }

  /** Steps that a worker has left, counting a record it will send as 1. */
  function Weight<A>(x: Worker<A>): nat {
    match x
    case Busy(_) => 5
    case Sending(_) => 4
    case Sent => 2
    case Leaving => 1
  }

  function Remaining<A>(ws: seq<Worker<A>>): nat {
    if ws == [] then 0 else Remaining(ws[..|ws| - 1]) + Weight(ws[|ws| - 1])
  }

  /** Steps that a stage has left, counting an item of its input as 7 and a record of its
      output as 1. */
  function StageRank<A>(st: Stage<A>): nat {
    (match st.reader
     case Reading => 2
     case Passing(_) => 8
     case Holding(_) => 8
     case Waiting => 1
     case Returned => 0)
    + Remaining(st.workers)
  }

  function WorkLeft<A>(st: Stage<A>, input: Chan<A>, output: Chan<Record>): nat {
    7 * |input.buf| + StageRank(st) + |output.buf|
  }

  function InStage<A>(st: Stage<A>, host: A -> Host, h: Host): nat {
    InReader(st.reader, host, h) + InWorkers(st.workers, host, h)
  }

  /** How often a host is in a stage or on a channel beside it. */
  function Around<A>(job: Job<A>, st: Stage<A>, input: Chan<A>, output: Chan<Record>, h: Host): nat {
    Count(input.buf, job.host, h) + InStage(st, job.host, h) + Count(output.buf, HostOf, h)
  }

  lemma {:induction false} CountSplit<A>(a: seq<A>, b: seq<A>, host: A -> Host, h: Host)
    ensures Count(a + b, host, h) == Count(a, host, h) + Count(b, host, h)
  {
    if b == [] {
      assert a + b == a;
    } else {
      assert (a + b)[..|a + b| - 1] == a + b[..|b| - 1];
      CountSplit(a, b[..|b| - 1], host, h);
    }
  }

  lemma CountAppend<A>(a: seq<A>, x: A, host: A -> Host, h: Host)
    ensures Count(a + [x], host, h) == Count(a, host, h) + (if host(x) == h then 1 else 0)
  {
  }

  lemma CountFront<A>(a: seq<A>, host: A -> Host, h: Host)
    requires a != []
    ensures Count(a, host, h) == (if host(a[0]) == h then 1 else 0) + Count(a[1..], host, h)
  {
    assert a == [a[0]] + a[1..];
    CountSplit([a[0]], a[1..], host, h);
    CountAppend([], a[0], host, h);
    assert [] + [a[0]] == [a[0]];
  }

  lemma {:induction false} WorkersSplit<A>(a: seq<Worker<A>>, b: seq<Worker<A>>, host: A -> Host, h: Host)
    ensures InWorkers(a + b, host, h) == InWorkers(a, host, h) + InWorkers(b, host, h)
    ensures Remaining(a + b) == Remaining(a) + Remaining(b)
  {
    if b == [] {
      assert a + b == a;
    } else {
      assert (a + b)[..|a + b| - 1] == a + b[..|b| - 1];
      WorkersSplit(a, b[..|b| - 1], host, h);
    }
  }

  lemma OneWorker<A>(x: Worker<A>, host: A -> Host, h: Host)
    ensures InWorkers([x], host, h) == InWorker(x, host, h)
    ensures Remaining([x]) == Weight(x)
  {
  }

  lemma WorkerOut<A>(ws: seq<Worker<A>>, i: nat, host: A -> Host, h: Host)
    requires i < |ws|
    ensures InWorkers(ws, host, h) == InWorkers(ws[..i] + ws[i + 1..], host, h) + InWorker(ws[i], host, h)
    ensures Remaining(ws) == Remaining(ws[..i] + ws[i + 1..]) + Weight(ws[i])
  {
    hide InWorkers, Remaining, InWorker, Weight;
    OneWorker(ws[i], host, h);
    WorkersSplit(ws[..i], ws[i + 1..], host, h);
    WorkersSplit(ws[..i] + [ws[i]], ws[i + 1..], host, h);
    WorkersSplit(ws[..i], [ws[i]], host, h);
    assert ws == ws[..i] + [ws[i]] + ws[i + 1..];
  }

  /** A worker that moves on, among the others. */
  lemma WorkerMoves<A>(ws: seq<Worker<A>>, i: nat, x: Worker<A>, host: A -> Host, h: Host)
    requires i < |ws|
    ensures InWorkers(ws[i := x], host, h) + InWorker(ws[i], host, h) == InWorkers(ws, host, h) + InWorker(x, host, h)
    ensures Remaining(ws[i := x]) + Weight(ws[i]) == Remaining(ws) + Weight(x)
  {
    hide InWorkers, Remaining, InWorker, Weight;
    WorkerOut(ws, i, host, h);
    WorkerOut(ws[i := x], i, host, h);
    assert ws[i := x][..i] == ws[..i] && ws[i := x][i + 1..] == ws[i + 1..];
  }

  /** No stage step creates, loses or copies a host, and each one uses up remaining work. */
  lemma StepConserves<A(!new)>(job: Job<A>, good: A -> bool, want: Host -> Record,
                               st: Stage<A>, input: Chan<A>, output: Chan<Record>, step: StageStep, h: Host)
    requires JobOk(job, good, want) && StageOk(job, good, want, st, input, output)
    requires Enabled(st, input, output, step)
    ensures var e := Step(job, st, input, output, step);
            && Around(job, e.stage, e.input, e.output, h) == Around(job, st, input, output, h)
            && WorkLeft(e.stage, e.input, e.output) < WorkLeft(st, input, output)
  {
    StageItems(job, good, want, st, input, output);
    hide StageOk, JobOk;
    match step
    case Work(i) => WorkConserves(job, st, input, output, i, h);
    case Send(i) => SendConserves(job, st, input, output, i, h);
    case WgDone(i) => WorkerMoves(st.workers, i, Leaving, job.host, h);
    case Release(i) => WorkerOut(st.workers, i, job.host, h);
    case _ => ReaderConserves(job, st, input, output, step, h);
  }

  lemma ReaderConserves<A>(job: Job<A>, st: Stage<A>, input: Chan<A>, output: Chan<Record>, step: StageStep, h: Host)
    requires Enabled(st, input, output, step)
    requires step.Read? || step.EndOfInput? || step.Pass? || step.Spawn? || step.Close?
    requires step.Read? && !job.spawns(input.buf[0]) ==> job.pass(input.buf[0]).host == job.host(input.buf[0])
    ensures var e := Step(job, st, input, output, step);
            && Around(job, e.stage, e.input, e.output, h) == Around(job, st, input, output, h)
            && WorkLeft(e.stage, e.input, e.output) < WorkLeft(st, input, output)
  {
    hide Count, InWorkers, Remaining;
    match step
    case Read =>
      CountFront(input.buf, job.host, h);
    case Pass =>
      CountAppend(output.buf, st.reader.record, HostOf, h);
    case Spawn =>
      WorkersSplit(st.workers, [Busy(st.reader.item)], job.host, h);
      OneWorker(Busy(st.reader.item), job.host, h);
    case _ =>
  }

  lemma WorkConserves<A>(job: Job<A>, st: Stage<A>, input: Chan<A>, output: Chan<Record>, i: nat, h: Host)
    requires Enabled(st, input, output, Work(i))
    requires job.work(st.workers[i].item).host == job.host(st.workers[i].item)
    ensures var e := Step(job, st, input, output, Work(i));
            && Around(job, e.stage, e.input, e.output, h) == Around(job, st, input, output, h)
            && WorkLeft(e.stage, e.input, e.output) < WorkLeft(st, input, output)
  {
    hide Count, InWorkers, Remaining;
    WorkerMoves(st.workers, i, Sending(job.work(st.workers[i].item)), job.host, h);
  }

  lemma SendConserves<A>(job: Job<A>, st: Stage<A>, input: Chan<A>, output: Chan<Record>, i: nat, h: Host)
    requires Enabled(st, input, output, Send(i))
    ensures var e := Step(job, st, input, output, Send(i));
            && Around(job, e.stage, e.input, e.output, h) == Around(job, st, input, output, h)
            && WorkLeft(e.stage, e.input, e.output) < WorkLeft(st, input, output)
  {
    hide Count, InWorkers, Remaining;
    WorkerMoves(st.workers, i, Sent, job.host, h);
    CountAppend(output.buf, st.workers[i].record, HostOf, h);
  }

  lemma StageItems<A(!new)>(job: Job<A>, good: A -> bool, want: Host -> Record,
                            st: Stage<A>, input: Chan<A>, output: Chan<Record>)
    requires JobOk(job, good, want) && StageOk(job, good, want, st, input, output)
    ensures forall k | 0 <= k < |input.buf| && !job.spawns(input.buf[k]) ::
              job.pass(input.buf[k]).host == job.host(input.buf[k])
    ensures forall k | 0 <= k < |st.workers| && st.workers[k].Busy? ::
              job.work(st.workers[k].item).host == job.host(st.workers[k].item)
  {
  }

  /** A stage that has not returned can step unless its input is empty and still open or its
      output is full. */
  lemma StageCanStep<A>(st: Stage<A>, input: Chan<A>, output: Chan<Record>)
    requires !st.reader.Returned? && |st.workers| <= LIMIT && CanSend(output)
    requires input.buf != [] || input.closed || !st.reader.Reading?
    ensures exists step :: Enabled(st, input, output, step)
  {
    if i :| 0 <= i < |st.workers| && st.workers[i].Busy? {
      assert Enabled(st, input, output, Work(i));
    } else if i :| 0 <= i < |st.workers| && st.workers[i].Sending? {
      assert Enabled(st, input, output, Send(i));
    } else if i :| 0 <= i < |st.workers| && st.workers[i].Sent? {
      assert Enabled(st, input, output, WgDone(i));
    } else if st.reader.Waiting? {
      assert Enabled(st, input, output, Close);
    } else if st.workers != [] {
      assert Enabled(st, input, output, Release(0));
    } else {
      match st.reader
      case Passing(_) => assert Enabled(st, input, output, Pass);
      case Holding(_) => assert Enabled(st, input, output, Spawn);
      case Reading =>
        if input.buf != [] {
          assert Enabled(st, input, output, Read);
        } else {
          assert Enabled(st, input, output, EndOfInput);
        }
    }
  }

  // ---- The pipeline ----

  function ScanJob(w: World): Job<Host> {
    Job((h: Host) => h, (h: Host) => true, (h: Host) => Pinged(w, h), (h: Host) => Pinged(w, h))
  }

  function UnameJob(w: World): Job<Record> {
    Job(HostOf, (r: Record) => r.reachable, (r: Record) => AfterUname(w, r), (r: Record) => r)
  }

  datatype State = State(
    todo: seq<Host>,
    ips: Chan<Host>,
    scan: Stage<Host>,
    recs: Chan<Record>,
    uname: Stage<Record>,
    results: Chan<Record>,
    printed: seq<Record>)

  datatype Action = Generate | CloseIps | Scan(step: StageStep) | Uname(step: StageStep) | Print

  function Start(hosts: seq<Host>): State {
    State(hosts, Chan([], false), Stage(Reading, []), Chan([], false), Stage(Reading, []), Chan([], false), [])
  }

  predicate CanAct(s: State, a: Action) {
    match a
    case Generate => s.todo != [] && CanSend(s.ips)
    case CloseIps => s.todo == [] && !s.ips.closed
    case Scan(step) => Enabled(s.scan, s.ips, s.recs, step)
    case Uname(step) => Enabled(s.uname, s.recs, s.results, step)
    case Print => s.results.buf != []
  }

  function Act(w: World, s: State, a: Action): State
    requires CanAct(s, a)
  {
    match a
    case Generate => s.(todo := s.todo[1..], ips := s.ips.(buf := s.ips.buf + [s.todo[0]]))
    case CloseIps => s.(ips := s.ips.(closed := true))
    case Scan(step) =>
      var e := Step(ScanJob(w), s.scan, s.ips, s.recs, step);
      s.(scan := e.stage, ips := e.input, recs := e.output)
    case Uname(step) =>
      var e := Step(UnameJob(w), s.uname, s.recs, s.results, step);
      s.(uname := e.stage, recs := e.input, results := e.output)
    case Print => s.(results := s.results.(buf := s.results.buf[1..]), printed := s.printed + [s.results.buf[0]])
  }

  predicate Runs(w: World, s: State, actions: seq<Action>)
    decreases actions
  {
    actions == [] || (CanAct(s, actions[0]) && Runs(w, Act(w, s, actions[0]), actions[1..]))
  }

  function After(w: World, s: State, actions: seq<Action>): State
    requires Runs(w, s, actions)
    decreases actions
  {
    if actions == [] then s else After(w, Act(w, s, actions[0]), actions[1..])
  }

  /** The printer's range loop ends: the last channel is closed and drained. */
  predicate Finished(s: State) {
    s.results.closed && s.results.buf == []
  }

  function AnyHost(w: World): Host -> bool {
    (h: Host) => true
  }

  function PingedBy(w: World): Host -> Record {
    (h: Host) => Pinged(w, h)
  }

  function FreshPing(w: World): Record -> bool {
    (r: Record) => r == Pinged(w, r.host)
  }

  function ExpectedBy(w: World): Host -> Record {
    (h: Host) => Expected(w, h)
  }

  lemma JobsOk(w: World)
    ensures JobOk(ScanJob(w), AnyHost(w), PingedBy(w))
    ensures JobOk(UnameJob(w), FreshPing(w), ExpectedBy(w))
  {
  }

  /** How often a host is anywhere in the pipeline. */
  function Everywhere(w: World, s: State, h: Host): nat {
    Count(s.todo, ScanJob(w).host, h) + Around(ScanJob(w), s.scan, s.ips, s.recs, h)
    + InStage(s.uname, HostOf, h) + Count(s.results.buf, HostOf, h) + Count(s.printed, HostOf, h)
  }

  /** Work left in the whole pipeline. */
  function Rank(s: State): nat {
    50 * |s.todo| + (if s.ips.closed then 0 else 1)
    + 7 * WorkLeft(s.scan, s.ips, s.recs) + StageRank(s.uname) + |s.results.buf|
  }

  /** Both stages are in order, and a closed channel comes after everything upstream. */
  ghost predicate Inv(w: World, s: State) {
    && StageOk(ScanJob(w), AnyHost(w), PingedBy(w), s.scan, s.ips, s.recs)
    && StageOk(UnameJob(w), FreshPing(w), ExpectedBy(w), s.uname, s.recs, s.results)
    && |s.ips.buf| <= 1 && (s.ips.closed ==> s.todo == [])
    && (forall k | 0 <= k < |s.printed| :: s.printed[k] == Expected(w, s.printed[k].host))
  }

  lemma ActKeepsInv(w: World, s: State, a: Action)
    requires Inv(w, s) && CanAct(s, a)
    ensures Inv(w, Act(w, s, a))
  {
    JobsOk(w);
    hide JobOk;
    match a
    case Scan(step) => StepKeepsStageOk(ScanJob(w), AnyHost(w), PingedBy(w), s.scan, s.ips, s.recs, step);
    case Uname(step) => StepKeepsStageOk(UnameJob(w), FreshPing(w), ExpectedBy(w), s.uname, s.recs, s.results, step);
    case _ =>
  }

  lemma ActConserves(w: World, s: State, a: Action, h: Host)
    requires Inv(w, s) && CanAct(s, a)
    ensures Everywhere(w, Act(w, s, a), h) == Everywhere(w, s, h)
    ensures Rank(Act(w, s, a)) < Rank(s)
  {
    JobsOk(w);
    hide JobOk, StageOk, Count, InWorkers, Remaining;
    match a
    case Generate =>
      CountFront(s.todo, ScanJob(w).host, h);
      CountAppend(s.ips.buf, s.todo[0], ScanJob(w).host, h);
    case CloseIps =>
    case Scan(step) =>
      StepConserves(ScanJob(w), AnyHost(w), PingedBy(w), s.scan, s.ips, s.recs, step, h);
    case Uname(step) =>
      StepConserves(UnameJob(w), FreshPing(w), ExpectedBy(w), s.uname, s.recs, s.results, step, h);
    case Print =>
      CountFront(s.results.buf, HostOf, h);
      CountAppend(s.printed, s.results.buf[0], HostOf, h);
  }

  /** A send about to happen, and the channel it goes to. */
  predicate SendsOnClosed(s: State, a: Action) {
    match a
    case Generate => s.ips.closed
    case Scan(step) => Sends(s.scan, step) && s.recs.closed
    case Uname(step) => Sends(s.uname, step) && s.results.closed
    case _ => false
  }

  lemma {:induction false} EveryRun(w: World, s: State, actions: seq<Action>, h: Host)
    requires Inv(w, s) && Runs(w, s, actions)
    ensures Inv(w, After(w, s, actions))
    ensures Everywhere(w, After(w, s, actions), h) == Everywhere(w, s, h)
    ensures Rank(After(w, s, actions)) + |actions| <= Rank(s)
    decreases actions
  {
    hide Inv, Everywhere, Rank, Act, CanAct;
    if actions != [] {
      ActKeepsInv(w, s, actions[0]);
      ActConserves(w, s, actions[0], h);
      EveryRun(w, Act(w, s, actions[0]), actions[1..], h);
    }
  }

  lemma StartOk(w: World, hosts: seq<Host>, h: Host)
    ensures Inv(w, Start(hosts))
    ensures Everywhere(w, Start(hosts), h) == Count(hosts, ScanJob(w).host, h)
    ensures Rank(Start(hosts)) == 50 * |hosts| + 17
  {
  }

  /** In every run at most 100 workers hold a slot in either stage, a channel holds one item at
      most, and no goroutine is about to send on a closed channel. */
  lemma LimitsAndOpenChannels(w: World, hosts: seq<Host>, actions: seq<Action>)
    requires Runs(w, Start(hosts), actions)
    ensures var s := After(w, Start(hosts), actions);
            && |s.scan.workers| <= 100 && |s.uname.workers| <= 100
            && |s.ips.buf| <= 1 && |s.recs.buf| <= 1 && |s.results.buf| <= 1
            && forall a | CanAct(s, a) :: !SendsOnClosed(s, a)
  {
    StartOk(w, hosts, 0);
    EveryRun(w, Start(hosts), actions, 0);
  }

  /** A run never gets stuck before the printer's loop ends. */
  lemma NoDeadlock(w: World, s: State)
    requires Inv(w, s) && !Finished(s)
    ensures exists a :: CanAct(s, a)
  {
    if s.results.buf != [] {
      assert CanAct(s, Print);
    } else if s.recs.buf != [] || s.recs.closed || !s.uname.reader.Reading? {
      StageCanStep(s.uname, s.recs, s.results);
      var step :| Enabled(s.uname, s.recs, s.results, step);
      assert CanAct(s, Uname(step));
    } else if s.ips.buf != [] || s.ips.closed || !s.scan.reader.Reading? {
      StageCanStep(s.scan, s.ips, s.recs);
      var step :| Enabled(s.scan, s.ips, s.recs, step);
      assert CanAct(s, Scan(step));
    } else if s.todo != [] {
      assert CanAct(s, Generate);
    } else {
      assert CanAct(s, CloseIps);
    }
  }

  lemma {:induction false} NothingInLeaving<A>(ws: seq<Worker<A>>, host: A -> Host, h: Host)
    requires forall k | 0 <= k < |ws| :: ws[k].Leaving?
    ensures InWorkers(ws, host, h) == 0
  {
    if ws != [] {
      NothingInLeaving(ws[..|ws| - 1], host, h);
    }
  }

  /** Once the printer's loop has ended, nothing is left anywhere else. */
  lemma FinishedIsEmpty(w: World, s: State, h: Host)
    requires Inv(w, s) && Finished(s)
    ensures Everywhere(w, s, h) == Count(s.printed, HostOf, h)
  {
    NothingInLeaving(s.scan.workers, ScanJob(w).host, h);
    NothingInLeaving(s.uname.workers, HostOf, h);
  }

  lemma {:induction false} ExpectedRecords(w: World, records: seq<Record>, r: Record)
    requires forall k | 0 <= k < |records| :: records[k] == Expected(w, records[k].host)
    ensures multiset(records)[r] == if r == Expected(w, r.host) then Count(records, HostOf, r.host) else 0
  {
    if records != [] {
      var front, last := records[..|records| - 1], records[|records| - 1];
      ExpectedRecords(w, front, r);
      assert records == front + [last];
    }
  }

  lemma {:induction false} CountDistinct(hosts: seq<Host>, host: Host -> Host, h: Host)
    requires forall x :: host(x) == x
    requires forall i, j | 0 <= i < j < |hosts| :: hosts[i] != hosts[j]
    ensures Count(hosts, host, h) == if h in hosts then 1 else 0
  {
    if hosts != [] {
      var front := hosts[..|hosts| - 1];
      CountDistinct(front, host, h);
      assert hosts == front + [hosts[|hosts| - 1]];
    }
  }

  /** Every run of the scan of distinct hosts is finite and can go on until the printer's loop
      ends, and then of each host one record has been printed, and that one is right: whether it
      answers, whether uname could be run, and what it gave. */
  lemma ScanPrintsEachHostOnce(w: World, hosts: seq<Host>, actions: seq<Action>)
    requires forall i, j | 0 <= i < j < |hosts| :: hosts[i] != hosts[j]
    requires Runs(w, Start(hosts), actions)
    ensures |actions| <= 50 * |hosts| + 17
    ensures var s := After(w, Start(hosts), actions);
            Finished(s) || exists a :: CanAct(s, a)
    ensures var s := After(w, Start(hosts), actions);
            Finished(s) ==> (forall r ::
              multiset(s.printed)[r] == if r.host in hosts && IsRight(w, r) then 1 else 0)
  {
    var s := After(w, Start(hosts), actions);
    StartOk(w, hosts, 0);
    EveryRun(w, Start(hosts), actions, 0);
    if !Finished(s) {
      NoDeadlock(w, s);
    } else {
      forall r ensures multiset(s.printed)[r] == if r.host in hosts && IsRight(w, r) then 1 else 0 {
        StartOk(w, hosts, r.host);
        EveryRun(w, Start(hosts), actions, r.host);
        FinishedIsEmpty(w, s, r.host);
        ExpectedRecords(w, s.printed, r);
        ExpectedIsRight(w, r);
        CountDistinct(hosts, ScanJob(w).host, r.host);
      }
    }
  }

  function Mapped<A>(items: seq<A>, host: A -> Host): seq<Host> {
    seq(|items|, i requires 0 <= i < |items| => host(items[i]))
  }

  lemma {:induction false} CountIsMultiplicity<A>(items: seq<A>, host: A -> Host, h: Host)
    ensures Count(items, host, h) == multiset(Mapped(items, host))[h]
  {
    if items != [] {
      var n := |items| - 1;
      CountIsMultiplicity(items[..n], host, h);
      assert Mapped(items, host) == Mapped(items[..n], host) + [host(items[n])];
    }
  }

  /** A finished scan has printed as many records as there were hosts. */
  lemma AsManyAsHosts(w: World, hosts: seq<Host>, actions: seq<Action>)
    requires Runs(w, Start(hosts), actions) && Finished(After(w, Start(hosts), actions))
    ensures |After(w, Start(hosts), actions).printed| == |hosts|
  {
    var s := After(w, Start(hosts), actions);
    var host := ScanJob(w).host;
    forall h ensures multiset(Mapped(s.printed, HostOf))[h] == multiset(Mapped(hosts, host))[h] {
      StartOk(w, hosts, h);
      EveryRun(w, Start(hosts), actions, h);
      FinishedIsEmpty(w, s, h);
      CountIsMultiplicity(s.printed, HostOf, h);
      CountIsMultiplicity(hosts, host, h);
    }
    assert multiset(Mapped(s.printed, HostOf)) == multiset(Mapped(hosts, host));
    assert |multiset(Mapped(s.printed, HostOf))| == |multiset(Mapped(hosts, host))|;
  }

  /** The whole program on a prefix with zero host bits, at least two of them: a finished scan has
      printed 2^(bits-n) - 2 records, the right one for each address strictly between network
      and broadcast, and nothing else. */
  lemma ScanOfPrefix(w: World, bits: nat, ip: nat, n: nat, actions: seq<Action>)
    requires ip < Pow2(bits) && n + 2 <= bits && ip % BlockSize(bits, n) == 0
    requires Runs(w, Start(HostList(bits, ip, n)), actions)
    requires Finished(After(w, Start(HostList(bits, ip, n)), actions))
    ensures var printed := After(w, Start(HostList(bits, ip, n)), actions).printed;
            && |printed| == Pow2(bits - n) - 2
            && forall r :: multiset(printed)[r] ==
                 if IsHost(bits, ip, n, r.host) && IsRight(w, r) then 1 else 0
  {
    var hosts := HostList(bits, ip, n);
    EveryHostOnce(bits, ip, n);
    hide HostList, IsHost, Pow2;
    ScanPrintsEachHostOnce(w, hosts, actions);
    AsManyAsHosts(w, hosts, actions);
  }
}
