/** Request dispatch and backend weights, with every load and every counter change a step of
    its own, interleaved with changes of the pool. */
module PoolWeights {
  import opened Pool

  /** Where a request is: it has loaded the healthy list; it has drawn two positions and read
      the first weight; it has chosen a backend; it is between call and done; it is over. */
  datatype Phase =
    | Loaded(backs: seq<Backend>)
    | Compared(x: Backend, y: Backend, weightX: int)
    | Chosen(b: Backend)
    | InFlight(b: Backend)
    | Over

  /** `next` is the identity of the next wrapper that Add makes. `negative` records the panic
      of done on a negative weight, `duplicate` the panic of a move onto a present URL. */
  datatype State = State(
    lists: Lists,
    weight: map<nat, int>,
    requests: map<nat, Phase>,
    next: nat,
    negative: bool,
    duplicate: bool)

  datatype Step =
    | Arrive(r: nat)
    | Sample(r: nat, x: nat, y: nat)
    | Choose(r: nat)
    | Call(r: nat)
    | Finish(r: nat)
    | Add(addr: string)
    | Remove(addr: string)
    | Sicken(b: Backend)
    | Recover(b: Backend)

  const START := State(Lists([], []), map[], map[], 0, false, false)

  predicate Enabled(s: State, step: Step) {
    match step
    case Arrive(r) => r !in s.requests
    case Sample(r, x, y) =>
      && r in s.requests && s.requests[r].Loaded?
      && x < |s.requests[r].backs| && y < |s.requests[r].backs|
      && s.requests[r].backs[x].obj in s.weight
    case Choose(r) => r in s.requests && s.requests[r].Compared? && s.requests[r].y.obj in s.weight
    case Call(r) => r in s.requests && s.requests[r].Chosen? && s.requests[r].b.obj in s.weight
    case Finish(r) => r in s.requests && s.requests[r].InFlight? && s.requests[r].b.obj in s.weight
    case _ => true
  }

  function To(s: State, r: nat, phase: Phase): State {
    s.(requests := s.requests[r := phase])
  }

  function Moves(s: State, m: Moved): State {
    match m
    case Ok(p) => s.(lists := p)
    case Panic => s.(duplicate := true)
  }

  function Next(s: State, step: Step): State
    requires Enabled(s, step)
  {
    match step
    case Arrive(r) => To(s, r, if s.lists.healthy == [] then Over else Loaded(s.lists.healthy))
    case Sample(r, x, y) =>
      var backs := s.requests[r].backs;
      To(s, r, Compared(backs[x], backs[y], s.weight[backs[x].obj]))
    case Choose(r) =>
      var p := s.requests[r];
      To(s, r, Chosen(if p.weightX < s.weight[p.y.obj] then p.x else p.y))
    case Call(r) =>
      var b := s.requests[r].b;
      To(s, r, InFlight(b)).(weight := s.weight[b.obj := s.weight[b.obj] + 1])
    case Finish(r) =>
      var b := s.requests[r].b;
      var left := s.weight[b.obj] - 1;
      To(s, r, Over).(weight := s.weight[b.obj := left], negative := s.negative || left < 0)
    case Add(addr) =>
      var (p, ok) := Added(s.lists, Backend(addr, s.next));
      s.(lists := p, weight := s.weight[s.next := 0], next := s.next + 1)
    case Remove(addr) => s.(lists := Removed(s.lists, addr))
    case Sicken(b) => if b in s.lists.healthy then Moves(s, ToSick(s.lists, b)) else s
    case Recover(b) => if b in s.lists.sick then Moves(s, ToHealthy(s.lists, b)) else s
  }

  /** The requests between call and done on one wrapper. */
  function OnBackend(s: State, obj: nat): set<nat> {
    set r | r in s.requests && s.requests[r].InFlight? && s.requests[r].b.obj == obj
  }

  predicate Known(s: State, list: seq<Backend>) {
    forall b | b in list :: b.obj in s.weight
  }

  /** Every wrapper that a list or a request refers to has a weight. */
  ghost predicate AllKnown(s: State) {
    && Known(s, s.lists.healthy) && Known(s, s.lists.sick)
    && (forall obj | obj in s.weight :: obj < s.next)
    && (forall r | r in s.requests ::
          match s.requests[r]
          case Loaded(backs) => Known(s, backs)
          case Compared(x, y, _) => x.obj in s.weight && y.obj in s.weight
          case Chosen(b) => b.obj in s.weight
          case InFlight(b) => b.obj in s.weight
          case Over => true)
  }

  ghost predicate Tallies(s: State) {
    forall obj | obj in s.weight :: s.weight[obj] == |OnBackend(s, obj)|
  }

  ghost predicate Inv(s: State) {
    AllKnown(s) && Tallies(s)
  }

  /** A request that enters flight is one more on its backend, and on no other. */
  lemma EntersFlight(s: State, t: State, r: nat, b: Backend, obj: nat)
    requires r in s.requests && !s.requests[r].InFlight?
    requires t.requests == s.requests[r := InFlight(b)]
    ensures |OnBackend(t, obj)| == |OnBackend(s, obj)| + if obj == b.obj then 1 else 0
  {
    if obj == b.obj {
      assert OnBackend(t, obj) == OnBackend(s, obj) + {r};
    } else {
      assert OnBackend(t, obj) == OnBackend(s, obj);
    }
  }

  lemma LeavesFlight(s: State, t: State, r: nat, obj: nat)
    requires r in s.requests && s.requests[r].InFlight?
    requires t.requests == s.requests[r := Over]
    ensures |OnBackend(s, obj)| == |OnBackend(t, obj)| + if obj == s.requests[r].b.obj then 1 else 0
  {
    if obj == s.requests[r].b.obj {
      assert OnBackend(s, obj) == OnBackend(t, obj) + {r};
    } else {
      assert OnBackend(t, obj) == OnBackend(s, obj);
    }
  }

  lemma CallTallies(s: State, r: nat)
    requires Tallies(s) && Enabled(s, Call(r))
    ensures Tallies(Next(s, Call(r)))
  {
    hide OnBackend;
    var t := Next(s, Call(r));
    forall obj | obj in t.weight ensures t.weight[obj] == |OnBackend(t, obj)| {
      EntersFlight(s, t, r, s.requests[r].b, obj);
    }
  }

  lemma FinishTallies(s: State, r: nat)
    requires Tallies(s) && Enabled(s, Finish(r))
    ensures Tallies(Next(s, Finish(r))) && Next(s, Finish(r)).negative == s.negative
  {
    hide OnBackend;
    var t := Next(s, Finish(r));
    forall obj | obj in t.weight ensures t.weight[obj] == |OnBackend(t, obj)| {
      LeavesFlight(s, t, r, obj);
    }
    assert t.weight[s.requests[r].b.obj] >= 0;
  }

  lemma ChoiceTallies(s: State, step: Step)
    requires Tallies(s) && Enabled(s, step)
    requires step.Arrive? || step.Sample? || step.Choose?
    ensures Tallies(Next(s, step))
  {
    var t := Next(s, step);
    forall obj | obj in t.weight ensures OnBackend(t, obj) == OnBackend(s, obj) {}
  }

  lemma RequestsKeepKnown(s: State, step: Step)
    requires AllKnown(s) && Enabled(s, step)
    requires step.Arrive? || step.Sample? || step.Choose? || step.Call? || step.Finish?
    ensures AllKnown(Next(s, step))
  {
  }

  lemma SameRequests(s: State, t: State)
    requires t.requests == s.requests
    ensures forall obj :: OnBackend(t, obj) == OnBackend(s, obj)
  {
  }

  lemma AddStep(s: State, addr: string)
    requires Inv(s)
    ensures Inv(Next(s, Add(addr)))
    ensures forall obj | obj in s.weight :: Next(s, Add(addr)).weight[obj] == s.weight[obj]
  {
  }

  /** No step on the lists brings in a wrapper from outside. */
  lemma NoNewMembers(s: State, step: Step)
    requires step.Remove? || step.Sicken? || step.Recover?
    ensures forall c | c in Next(s, step).lists.healthy || c in Next(s, step).lists.sick ::
              c in s.lists.healthy || c in s.lists.sick
  {
    match step
    case Remove(addr) =>
      ListWithout(s.lists.healthy, addr);
      ListWithout(s.lists.sick, addr);
    case Sicken(b) => MoveMembers(s.lists, b);
    case Recover(b) => MoveMembers(s.lists, b);
  }

  lemma ListsKeepKnown(s: State, step: Step)
    requires AllKnown(s) && (step.Remove? || step.Sicken? || step.Recover?)
    ensures AllKnown(Next(s, step))
  {
    NoNewMembers(s, step);
    var t := Next(s, step);
    assert t.weight == s.weight && t.requests == s.requests && t.next == s.next;
    hide Next;
  }

  lemma MoveMembers(p: Lists, b: Backend)
    ensures ToSick(p, b).Ok? ==>
              && (forall c | c in ToSick(p, b).lists.healthy :: c in p.healthy)
              && (forall c | c in ToSick(p, b).lists.sick :: c in p.sick || c == b)
    ensures ToHealthy(p, b).Ok? ==>
              && (forall c | c in ToHealthy(p, b).lists.sick :: c in p.sick)
              && (forall c | c in ToHealthy(p, b).lists.healthy :: c in p.healthy || c == b)
  {
    ListWithout(p.healthy, b.addr);
    ListWithout(p.sick, b.addr);
  }

  predicate Runs(s: State, steps: seq<Step>)
    decreases steps
  {
    steps == [] || (Enabled(s, steps[0]) && Runs(Next(s, steps[0]), steps[1..]))
  }

  function After(s: State, steps: seq<Step>): State
    requires Runs(s, steps)
    decreases steps
  {
    if steps == [] then s else After(Next(s, steps[0]), steps[1..])
  }

  lemma StepKeepsInv(s: State, step: Step)
    requires Inv(s) && Enabled(s, step)
    ensures Inv(Next(s, step)) && Next(s, step).negative == s.negative
  {
    hide AllKnown, Tallies;
    match step
    case Call(r) =>
      RequestsKeepKnown(s, step);
      CallTallies(s, r);
    case Finish(r) =>
      RequestsKeepKnown(s, step);
      FinishTallies(s, r);
    case Add(addr) => AddStep(s, addr);
    case Remove(_) => ListStep(s, step);
    case Sicken(_) => ListStep(s, step);
    case Recover(_) => ListStep(s, step);
    case _ =>
      RequestsKeepKnown(s, step);
      ChoiceTallies(s, step);
  }

  lemma ListStep(s: State, step: Step)
    requires Inv(s) && (step.Remove? || step.Sicken? || step.Recover?)
    ensures Inv(Next(s, step)) && Next(s, step).negative == s.negative
  {
    ListsKeepKnown(s, step);
    SameRequests(s, Next(s, step));
  }

  lemma {:induction false} EveryRun(s: State, steps: seq<Step>)
    requires Inv(s) && Runs(s, steps)
    ensures Inv(After(s, steps)) && After(s, steps).negative == s.negative
    decreases steps
  {
    hide Inv, Next, Enabled;
    if steps != [] {
      StepKeepsInv(s, steps[0]);
      EveryRun(Next(s, steps[0]), steps[1..]);
    }
  }

  /** In every interleaving of requests, adds, removes and health moves, the weight of every
      wrapper, in a list or not, is the number of its requests in flight, so the panic on a
      negative weight is unreachable. */
  lemma WeightIsInFlight(steps: seq<Step>)
    requires Runs(START, steps)
    ensures var s := After(START, steps);
            && (forall obj | obj in s.weight :: s.weight[obj] == |OnBackend(s, obj)|)
            && (forall b | b in s.lists.healthy || b in s.lists.sick :: b.obj in s.weight)
            && !s.negative
  {
    EveryRun(START, steps);
  }

  /** Add searches only the healthy list; this is the add that it should have refused. */
  predicate AddsSickDuplicate(s: State, step: Step) {
    step.Add? && HasAddr(s.lists.sick, step.addr)
  }

  predicate NeverAddsSickDuplicate(s: State, steps: seq<Step>)
    requires Runs(s, steps)
    decreases steps
  {
    steps == [] ||
    (!AddsSickDuplicate(s, steps[0]) && NeverAddsSickDuplicate(Next(s, steps[0]), steps[1..]))
  }

  lemma StepKeepsGood(s: State, step: Step)
    requires Good(s.lists) && Enabled(s, step) && !AddsSickDuplicate(s, step)
    ensures Good(Next(s, step).lists) && Next(s, step).duplicate == s.duplicate
  {
    match step
    case Add(addr) =>
      if !HasAddr(s.lists.healthy, addr) {
        AddedContent(s.lists, Backend(addr, s.next));
      }
    case Remove(addr) => RemovedContent(s.lists, addr);
    case Sicken(b) => MovesAreClean(s.lists, b);
    case Recover(b) => MovesAreClean(s.lists, b);
    case _ =>
  }

  /** As long as no backend is added whose URL is in the sick list, no URL is listed twice and
      no health move panics. */
  lemma {:induction false} NoDuplicatePanic(s: State, steps: seq<Step>)
    requires Good(s.lists) && !s.duplicate && Runs(s, steps) && NeverAddsSickDuplicate(s, steps)
    ensures Good(After(s, steps).lists) && !After(s, steps).duplicate
    decreases steps
  {
    hide Good, Next, Enabled, AddsSickDuplicate;
    if steps != [] {
      StepKeepsGood(s, steps[0]);
      NoDuplicatePanic(Next(s, steps[0]), steps[1..]);
    }
  }

  /** One such add, while the URL has no healthy backend, and the recovery of the sick backend
      panics. In a good pool the add is the exact cause: recovery panics after an add exactly
      when the sick list had the URL. */
  lemma RecoveryPanicsIffSickDuplicate(s: State, addr: string, b: Backend)
    requires Good(s.lists) && !HasAddr(s.lists.healthy, addr) && !s.duplicate
    requires b.addr == addr && (HasAddr(s.lists.sick, addr) ==> b in s.lists.sick)
    ensures Next(Next(s, Add(addr)), Recover(b)).duplicate <==> AddsSickDuplicate(s, Add(addr))
  {
    var t := Next(s, Add(addr));
    assert t.lists.healthy[|s.lists.healthy|].addr == addr;
    HasAddrIn(s.lists.sick, addr);
    HasAddrIn(t.lists.healthy, addr);
  }

  /** A health move takes the wrapper along with its weight. */
  lemma WeightSurvivesMove(s: State, b: Backend)
    requires Good(s.lists) && b in s.lists.healthy
    ensures var t := Next(s, Sicken(b));
            b in t.lists.sick && t.weight == s.weight && b in Next(t, Recover(b)).lists.healthy
            && Next(t, Recover(b)).weight == s.weight
  {
    MovesAreClean(s.lists, b);
    MovesAreClean(ToSick(s.lists, b).lists, b);
    hide Good, ToSick, ToHealthy;
  }

  // ---- Two choices ----

  /** The highest weight of the backends of a list. */
  ghost predicate IsPeak(s: State, backs: seq<Backend>, peak: int) {
    && Known(s, backs)
    && (exists b :: b in backs && s.weight[b.obj] == peak)
    && forall b | b in backs :: s.weight[b.obj] <= peak
  }

  lemma FourSteps(s: State, a: Step, b: Step, c: Step, d: Step)
    requires Enabled(s, a) && Enabled(Next(s, a), b) && Enabled(Next(Next(s, a), b), c)
    requires Enabled(Next(Next(Next(s, a), b), c), d)
    ensures Runs(s, [a, b, c, d])
    ensures After(s, [a, b, c, d]) == Next(Next(Next(Next(s, a), b), c), d)
  {
    hide Enabled, Next;
    var s1 := Next(s, a);
    var s2 := Next(s1, b);
    var s3 := Next(s2, c);
    OneStep(s3, d, []);
    OneStep(s2, c, [d]);
    OneStep(s1, b, [c, d]);
    OneStep(s, a, [b, c, d]);
    assert [d] == [d] + [] && [c, d] == [c] + [d] && [b, c, d] == [b] + [c, d] && [a, b, c, d] == [a] + [b, c, d];
  }

  lemma OneStep(s: State, first: Step, rest: seq<Step>)
    requires Enabled(s, first) && Runs(Next(s, first), rest)
    ensures Runs(s, [first] + rest) && After(s, [first] + rest) == After(Next(s, first), rest)
  {
  }

  /** A request that runs from its arrival to the call without another step in between raises
      the highest weight of its list exactly when both sampled backends already had it. */
  lemma PeakRisesIffBothAtPeak(s: State, r: nat, x: nat, y: nat, peak: int)
    requires r !in s.requests && x < |s.lists.healthy| && y < |s.lists.healthy|
    requires IsPeak(s, s.lists.healthy, peak)
    ensures var steps, backs := [Arrive(r), Sample(r, x, y), Choose(r), Call(r)], s.lists.healthy;
            && Runs(s, steps)
            && if s.weight[backs[x].obj] == peak && s.weight[backs[y].obj] == peak
               then IsPeak(After(s, steps), backs, peak + 1)
               else IsPeak(After(s, steps), backs, peak)
  {
    var backs := s.lists.healthy;
    FourSteps(s, Arrive(r), Sample(r, x, y), Choose(r), Call(r));
    var t := Next(Next(Next(Next(s, Arrive(r)), Sample(r, x, y)), Choose(r)), Call(r));
    var c := if s.weight[backs[x].obj] < s.weight[backs[y].obj] then backs[x] else backs[y];
    assert t.weight == s.weight[c.obj := s.weight[c.obj] + 1];
    hide Next, Runs, After;
    if s.weight[c.obj] == peak {
      assert c in backs && t.weight[c.obj] == peak + 1;
    } else {
      var b :| b in backs && s.weight[b.obj] == peak;
      assert b in backs && t.weight[b.obj] == peak;
    }
  }
}
