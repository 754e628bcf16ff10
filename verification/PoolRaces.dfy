/** Health transitions as they really run: the goroutines of a round share the lists without
    a lock between them, so the load and the store of each edit may interleave. */
module PoolRaces {
  import opened Pool

  /** A transition of one backend, between its four accesses to the lists: load the list it
      leaves, store it without the backend, load the list it joins, store it with the backend. */
  datatype Phase =
    | Begin
    | Leaving(loaded: seq<Backend>)
    | Left
    | Joining(loaded: seq<Backend>)
    | Done
    | Panicked

  /** `toSick` says which way the transition goes. */
  datatype Transition = Transition(b: Backend, toSick: bool, phase: Phase)

  datatype State = State(lists: Lists, transitions: seq<Transition>)

  function Source(p: Lists, toSick: bool): seq<Backend> {
    if toSick then p.healthy else p.sick
  }

  function StoreIn(p: Lists, healthy: bool, list: seq<Backend>): Lists {
    if healthy then p.(healthy := list) else p.(sick := list)
  }

  /** The next access of one transition: the lists after it and where the transition is then. */
  function Advance(p: Lists, t: Transition): (Lists, Phase) {
    match t.phase
    case Begin => (p, Leaving(Source(p, t.toSick)))
    case Leaving(loaded) =>
      (match RemoveFrom(t.b.addr, loaded)
       case Error => (p, Done)
       case Nothing => (p, Left)
       case Store(list) => (StoreIn(p, t.toSick, list), Left))
    case Left => (p, Joining(Source(p, !t.toSick)))
    case Joining(loaded) =>
      (match AddTo(t.b, loaded)
       case Store(list) => (StoreIn(p, !t.toSick, list), Done)
       case _ => (p, Panicked))
    case _ => (p, t.phase)
  }

  function Access(s: State, i: nat): State
    requires i < |s.transitions|
  {
    var (p, phase) := Advance(s.lists, s.transitions[i]);
    State(p, s.transitions[i := s.transitions[i].(phase := phase)])
  }

  /** The state after the accesses of a schedule, which names a transition for each access. */
  function Accesses(s: State, schedule: seq<nat>): State
    requires IsSchedule(|s.transitions|, schedule)
    ensures |Accesses(s, schedule).transitions| == |s.transitions|
  {
    if schedule == [] then s
    else Access(Accesses(s, schedule[..|schedule| - 1]), schedule[|schedule| - 1])
  }

  predicate IsSchedule(n: nat, schedule: seq<nat>) {
    forall k | 0 <= k < |schedule| :: schedule[k] < n
  }

  /** The lists, and every list some transition has loaded, hold no URL twice. */
  predicate AllDupFree(s: State) {
    && DupFree(s.lists.healthy) && DupFree(s.lists.sick)
    && forall i | 0 <= i < |s.transitions| ::
         var phase := s.transitions[i].phase;
         (phase.Leaving? ==> DupFree(phase.loaded)) && (phase.Joining? ==> DupFree(phase.loaded))
  }

  lemma AccessKeepsDupFree(s: State, i: nat)
    requires AllDupFree(s) && i < |s.transitions|
    ensures AllDupFree(Access(s, i))
  {
    var t := s.transitions[i];
    if t.phase.Leaving? {
      WithoutDupFree(t.phase.loaded, t.b.addr);
    }
  }

  /** However the accesses of any transitions interleave, and whatever updates are lost, the
      healthy list and the sick list each never hold two backends with one URL. */
  lemma {:induction false} NoDuplicatesUnderRaces(s: State, schedule: seq<nat>)
    requires AllDupFree(s) && IsSchedule(|s.transitions|, schedule)
    ensures AllDupFree(Accesses(s, schedule))
  {
    if schedule != [] {
      var front := schedule[..|schedule| - 1];
      NoDuplicatesUnderRaces(s, front);
      AccessKeepsDupFree(Accesses(s, front), schedule[|schedule| - 1]);
    }
  }

  /** Taken as a whole, a transition is the one of the pool. */
  lemma UninterruptedTransition(s: State, i: nat)
    requires i < |s.transitions| && s.transitions[i].phase == Begin
    ensures var t := s.transitions[i];
            var after := Access(Access(Access(Access(s, i), i), i), i);
            match if t.toSick then ToSick(s.lists, t.b) else ToHealthy(s.lists, t.b)
            case Panic => after.transitions[i].phase == Panicked
            case Ok(p) => after == State(p, s.transitions[i := t.(phase := Done)])
  {
  }

  // ---- A round ----

  /** The transitions that a round starts on one list: a healthy backend that fails its check
      turns sick, a sick one that passes turns healthy. */
  function Turns(list: seq<Backend>, check: string -> bool, toSick: bool): seq<Transition> {
    if list == [] then []
    else
      var b := list[|list| - 1];
      Turns(list[..|list| - 1], check, toSick)
      + (if check(b.addr) != toSick then [Transition(b, toSick, Begin)] else [])
  }

  function Changing(p: Lists, check: string -> bool): seq<Transition> {
    Turns(p.healthy, check, true) + Turns(p.sick, check, false)
  }

  function RoundStart(p: Lists, check: string -> bool): State {
    State(p, Changing(p, check))
  }

  predicate Over(s: State) {
    forall i | 0 <= i < |s.transitions| :: s.transitions[i].phase == Done || s.transitions[i].phase == Panicked
  }

  /** However a round is scheduled, once its goroutines are done each backend is where its
      check says. */
  ghost predicate RoundIsSafe(p: Lists, check: string -> bool) {
    forall schedule | IsSchedule(|Changing(p, check)|, schedule) ::
      Over(Accesses(RoundStart(p, check), schedule)) ==>
        AsChecked(p, check, Accesses(RoundStart(p, check), schedule).lists)
  }

  lemma {:induction false} TurnsContent(list: seq<Backend>, check: string -> bool, toSick: bool)
    ensures forall t :: t in Turns(list, check, toSick) <==>
              t == Transition(t.b, toSick, Begin) && t.b in list && check(t.b.addr) != toSick
  {
    if list != [] {
      var front, last := list[..|list| - 1], list[|list| - 1];
      TurnsContent(front, check, toSick);
      assert list == front + [last];
    }
  }

  lemma {:induction false} TurnsDistinct(list: seq<Backend>, check: string -> bool, toSick: bool)
    requires DupFree(list)
    ensures Distinct(Turns(list, check, toSick))
  {
    if list != [] {
      var front, last := list[..|list| - 1], list[|list| - 1];
      TurnsDistinct(front, check, toSick);
      TurnsContent(front, check, toSick);
      var rest := Turns(front, check, toSick);
      forall i | 0 <= i < |rest| ensures rest[i].b.addr != last.addr {
        assert rest[i] in rest;
        var k :| 0 <= k < |front| && front[k] == rest[i].b;
        assert list[k].addr != last.addr;
      }
    }
  }

  /** Each transition of a round is about another backend, which is in the list it leaves. */
  predicate Ready(s: State, i: nat)
    requires i < |s.transitions|
  {
    s.transitions[i].phase == Begin && s.transitions[i].b in Source(s.lists, s.transitions[i].toSick)
  }

  predicate Distinct(ts: seq<Transition>) {
    forall i, j | 0 <= i < j < |ts| :: ts[i].b.addr != ts[j].b.addr
  }

  lemma ChangingContent(p: Lists, check: string -> bool)
    requires Good(p)
    ensures Distinct(Changing(p, check))
    ensures forall t :: t in Changing(p, check) <==>
              t == Transition(t.b, t.toSick, Begin) && t.b in Source(p, t.toSick) && check(t.b.addr) != t.toSick
  {
    TurnsContent(p.healthy, check, true);
    TurnsContent(p.sick, check, false);
    TurnsDistinct(p.healthy, check, true);
    TurnsDistinct(p.sick, check, false);
    hide Turns;
    var h, k := Turns(p.healthy, check, true), Turns(p.sick, check, false);
    forall i, j | 0 <= i < |h| && 0 <= j < |k| ensures h[i].b.addr != k[j].b.addr {
      assert h[i] in h && k[j] in k;
      HasAddrIn(p.sick, h[i].b.addr);
    }
    assert Distinct(h + k);
  }

  lemma Extend(s: State, schedule: seq<nat>, i: nat)
    requires IsSchedule(|s.transitions|, schedule) && i < |s.transitions|
    ensures IsSchedule(|s.transitions|, schedule + [i])
    ensures Accesses(s, schedule + [i]) == Access(Accesses(s, schedule), i)
  {
  }

  // ---- At most one change: safe ----

  function Alone(s: State, n: nat): State
    requires |s.transitions| == 1
    ensures |Alone(s, n).transitions| == 1
  {
    if n == 0 then s else Access(Alone(s, n - 1), 0)
  }

  lemma {:induction false} OnlyAlone(s: State, schedule: seq<nat>)
    requires |s.transitions| == 1 && IsSchedule(1, schedule)
    ensures Accesses(s, schedule) == Alone(s, |schedule|)
  {
    if schedule != [] {
      OnlyAlone(s, schedule[..|schedule| - 1]);
    }
  }

  lemma {:induction false} StaysOver(s: State, m: nat, n: nat)
    requires |s.transitions| == 1 && m <= n && Over(Alone(s, m))
    ensures Alone(s, n) == Alone(s, m)
    decreases n
  {
    if m < n {
      StaysOver(s, m, n - 1);
      var t := Alone(s, n - 1);
      assert t.transitions[0 := t.transitions[0]] == t.transitions;
    }
  }

  lemma FourIsAll(s: State, schedule: seq<nat>)
    requires |s.transitions| == 1 && s.transitions[0].phase == Begin && IsSchedule(1, schedule)
    requires Over(Accesses(s, schedule))
    ensures Accesses(s, schedule) == Access(Access(Access(Access(s, 0), 0), 0), 0)
  {
    OnlyAlone(s, schedule);
    FourAlone(s);
    hide Alone, Access, Accesses;
    if |schedule| <= 4 {
      StaysOver(s, |schedule|, 4);
    } else {
      UninterruptedTransition(s, 0);
      hide ToSick, ToHealthy;
      StaysOver(s, 4, |schedule|);
    }
  }

  lemma FourAlone(s: State)
    requires |s.transitions| == 1
    ensures Alone(s, 4) == Access(Access(Access(Access(s, 0), 0), 0), 0)
  {
    AloneStep(s, 0);
    AloneStep(s, 1);
    AloneStep(s, 2);
    AloneStep(s, 3);
    assert Alone(s, 0) == s;
    hide Alone, Access;
  }

  lemma AloneStep(s: State, n: nat)
    requires |s.transitions| == 1
    ensures Alone(s, n + 1) == Access(Alone(s, n), 0)
  {
    hide Access;
  }

  lemma OneMoveIsAsChecked(p: Lists, check: string -> bool, b: Backend)
    requires Good(p) && (b in p.healthy || b in p.sick)
    requires if b in p.healthy then !check(b.addr) else check(b.addr)
    requires forall c | c in p.healthy && c != b :: check(c.addr)
    requires forall c | c in p.sick && c != b :: !check(c.addr)
    ensures var m := if b in p.healthy then ToSick(p, b) else ToHealthy(p, b);
            m.Ok? && AsChecked(p, check, m.lists)
  {
    MovesAreClean(p, b);
    forall c | c in p.healthy ensures c !in p.sick {
      NotInBoth(p, c);
    }
    hide ToSick, ToHealthy, Good;
  }

  /** A round in which one backend changes is that backend's transition, however often its
      goroutine is interrupted by others that change nothing. */
  lemma OneChangeIsOneMove(p: Lists, check: string -> bool, schedule: seq<nat>)
    requires Good(p) && |Changing(p, check)| == 1 && IsSchedule(1, schedule)
    requires Over(Accesses(RoundStart(p, check), schedule))
    ensures var t := Changing(p, check)[0];
            && t.b in Source(p, t.toSick)
            && Ok(Accesses(RoundStart(p, check), schedule).lists)
               == if t.toSick then ToSick(p, t.b) else ToHealthy(p, t.b)
  {
    ChangingContent(p, check);
    var s := RoundStart(p, check);
    var t := s.transitions[0];
    assert t in s.transitions;
    MovesAreClean(p, t.b);
    hide Accesses, Changing, ToSick, ToHealthy, Good;
    FourIsAll(s, schedule);
    UninterruptedTransition(s, 0);
  }

  lemma OneChangeIsSafe(p: Lists, check: string -> bool, schedule: seq<nat>)
    requires Good(p) && |Changing(p, check)| == 1 && IsSchedule(1, schedule)
    requires Over(Accesses(RoundStart(p, check), schedule))
    ensures AsChecked(p, check, Accesses(RoundStart(p, check), schedule).lists)
  {
    OneChangeIsOneMove(p, check, schedule);
    hide Accesses, ToSick, ToHealthy, Good, AsChecked, Changing;
    var t := Changing(p, check)[0];
    OnlyChange(p, check);
    if t.b in p.healthy {
      NotInBoth(p, t.b);
    }
    OneMoveIsAsChecked(p, check, t.b);
  }

  lemma OnlyChange(p: Lists, check: string -> bool)
    requires Good(p) && |Changing(p, check)| == 1
    ensures var t := Changing(p, check)[0];
            && check(t.b.addr) != t.toSick
            && (forall c | c in p.healthy && c != t.b :: check(c.addr))
            && forall c | c in p.sick && c != t.b :: !check(c.addr)
  {
    var ts := Changing(p, check);
    assert ts == [ts[0]];
    IsChanging(p, check, ts[0]);
    hide Changing, Good;
    forall c | c in p.healthy && c != ts[0].b ensures check(c.addr) {
      IsChanging(p, check, Transition(c, true, Begin));
    }
    forall c | c in p.sick && c != ts[0].b ensures !check(c.addr) {
      IsChanging(p, check, Transition(c, false, Begin));
    }
  }

  lemma IsChanging(p: Lists, check: string -> bool, t: Transition)
    requires Good(p)
    ensures t in Changing(p, check)
       <==> t.phase == Begin && t.b in Source(p, t.toSick) && check(t.b.addr) != t.toSick
  {
    ChangingContent(p, check);
  }

  lemma NoChangeIsSafe(p: Lists, check: string -> bool)
    requires Good(p) && |Changing(p, check)| == 0
    ensures AsChecked(p, check, p)
  {
    ChangingContent(p, check);
    hide Changing;
    forall c | c in p.healthy ensures c !in p.sick && check(c.addr) {
      NotInBoth(p, c);
      assert Transition(c, true, Begin) !in Changing(p, check);
    }
    forall c | c in p.sick ensures !check(c.addr) {
      assert Transition(c, false, Begin) !in Changing(p, check);
    }
  }

  // ---- Two changes: a schedule that goes wrong ----

  /** A schedule and the state it leads to. */
  ghost predicate Reach(start: State, schedule: seq<nat>, s: State) {
    IsSchedule(|start.transitions|, schedule) && Accesses(start, schedule) == s
  }

  /** The first two transitions at the phases given, the others as they are. */
  function At(base: seq<Transition>, p: Lists, x: Phase, y: Phase): State
    requires |base| >= 2
  {
    State(p, base[0 := base[0].(phase := x)][1 := base[1].(phase := y)])
  }

  lemma FirstMoves(start: State, schedule: seq<nat>, base: seq<Transition>, p: Lists, x: Phase, y: Phase)
    returns (next: seq<nat>)
    requires |base| >= 2 && Reach(start, schedule, At(base, p, x, y))
    ensures var (q, z) := Advance(p, base[0].(phase := x)); Reach(start, next, At(base, q, z, y))
  {
    Extend(start, schedule, 0);
    next := schedule + [0];
    var (q, z) := Advance(p, base[0].(phase := x));
    assert Access(At(base, p, x, y), 0).transitions == At(base, q, z, y).transitions;
  }

  lemma SecondMoves(start: State, schedule: seq<nat>, base: seq<Transition>, p: Lists, x: Phase, y: Phase)
    returns (next: seq<nat>)
    requires |base| >= 2 && Reach(start, schedule, At(base, p, x, y))
    ensures var (q, z) := Advance(p, base[1].(phase := y)); Reach(start, next, At(base, q, x, z))
  {
    Extend(start, schedule, 1);
    next := schedule + [1];
    var (q, z) := Advance(p, base[1].(phase := y));
    assert Access(At(base, p, x, y), 1).transitions == At(base, q, x, z).transitions;
  }

  /** The lists by the one that a transition leaves and the one that it joins. */
  function Sides(toSick: bool, from: seq<Backend>, to: seq<Backend>): Lists {
    if toSick then Lists(from, to) else Lists(to, from)
  }

  /** Both load the list they leave and store it in turn, then both load the other list before
      either stores it: the second store wins. */
  lemma LosingSchedule(start: State, schedule: seq<nat>, base: seq<Transition>, from: seq<Backend>,
                       less: seq<Backend>, least: seq<Backend>, to: seq<Backend>)
    returns (next: seq<nat>)
    requires |base| >= 2 && base[0].toSick == base[1].toSick
    requires Reach(start, schedule, At(base, Sides(base[0].toSick, from, to), Begin, Begin))
    requires RemoveFrom(base[0].b.addr, from) == Store(less) && RemoveFrom(base[1].b.addr, less) == Store(least)
    requires AddTo(base[0].b, to) == Store(to + [base[0].b]) && AddTo(base[1].b, to) == Store(to + [base[1].b])
    ensures Reach(start, next, At(base, Sides(base[0].toSick, least, to + [base[1].b]), Done, Done))
  {
    hide Reach, At, RemoveFrom, AddTo;
    var d := base[0].toSick;
    next := FirstMoves(start, schedule, base, Sides(d, from, to), Begin, Begin);
    next := FirstMoves(start, next, base, Sides(d, from, to), Leaving(from), Begin);
    next := SecondMoves(start, next, base, Sides(d, less, to), Left, Begin);
    next := SecondMoves(start, next, base, Sides(d, less, to), Left, Leaving(less));
    next := FirstMoves(start, next, base, Sides(d, least, to), Left, Left);
    next := SecondMoves(start, next, base, Sides(d, least, to), Joining(to), Left);
    next := FirstMoves(start, next, base, Sides(d, least, to), Joining(to), Joining(to));
    next := SecondMoves(start, next, base, Sides(d, least, to + [base[0].b]), Done, Joining(to));
  }

  /** Both load the list they leave before either stores it: the second store brings the first
      backend back. */
  lemma RevivingSchedule(start: State, schedule: seq<nat>, base: seq<Transition>, from: seq<Backend>,
                         withoutA: seq<Backend>, withoutB: seq<Backend>, to: seq<Backend>)
    returns (next: seq<nat>)
    requires |base| >= 2 && base[0].toSick == base[1].toSick
    requires Reach(start, schedule, At(base, Sides(base[0].toSick, from, to), Begin, Begin))
    requires RemoveFrom(base[0].b.addr, from) == Store(withoutA) && RemoveFrom(base[1].b.addr, from) == Store(withoutB)
    requires AddTo(base[0].b, to) == Store(to + [base[0].b])
    requires AddTo(base[1].b, to + [base[0].b]) == Store(to + [base[0].b] + [base[1].b])
    ensures Reach(start, next,
              At(base, Sides(base[0].toSick, withoutB, to + [base[0].b] + [base[1].b]), Done, Done))
  {
    hide Reach, At, RemoveFrom, AddTo;
    var d, plus := base[0].toSick, to + [base[0].b];
    next := FirstMoves(start, schedule, base, Sides(d, from, to), Begin, Begin);
    next := SecondMoves(start, next, base, Sides(d, from, to), Leaving(from), Begin);
    next := FirstMoves(start, next, base, Sides(d, from, to), Leaving(from), Leaving(from));
    next := SecondMoves(start, next, base, Sides(d, withoutA, to), Left, Leaving(from));
    next := FirstMoves(start, next, base, Sides(d, withoutB, to), Left, Left);
    next := FirstMoves(start, next, base, Sides(d, withoutB, to), Joining(to), Left);
    next := SecondMoves(start, next, base, Sides(d, withoutB, plus), Done, Left);
    next := SecondMoves(start, next, base, Sides(d, withoutB, plus), Done, Joining(plus));
  }

  /** One backend leaves each list: the whole second transition falls between the first one's
      load and store of the healthy list, and is lost there. */
  lemma LosingCrossing(start: State, schedule: seq<nat>, base: seq<Transition>, h: seq<Backend>, k: seq<Backend>,
                       h1: seq<Backend>, k1: seq<Backend>)
    returns (next: seq<nat>)
    requires |base| >= 2 && base[0].toSick && !base[1].toSick
    requires Reach(start, schedule, At(base, Lists(h, k), Begin, Begin))
    requires RemoveFrom(base[0].b.addr, h) == Store(h1) && RemoveFrom(base[1].b.addr, k) == Store(k1)
    requires AddTo(base[1].b, h) == Store(h + [base[1].b]) && AddTo(base[0].b, k1) == Store(k1 + [base[0].b])
    ensures Reach(start, next, At(base, Lists(h1, k1 + [base[0].b]), Done, Done))
  {
    hide Reach, At, RemoveFrom, AddTo;
    next := FirstMoves(start, schedule, base, Lists(h, k), Begin, Begin);
    next := SecondMoves(start, next, base, Lists(h, k), Leaving(h), Begin);
    next := SecondMoves(start, next, base, Lists(h, k), Leaving(h), Leaving(k));
    next := SecondMoves(start, next, base, Lists(h, k1), Leaving(h), Left);
    next := SecondMoves(start, next, base, Lists(h, k1), Leaving(h), Joining(h));
    next := FirstMoves(start, next, base, Lists(h + [base[1].b], k1), Leaving(h), Done);
    next := FirstMoves(start, next, base, Lists(h1, k1), Left, Done);
    next := FirstMoves(start, next, base, Lists(h1, k1), Joining(k1), Done);
  }

  /** The other way round: the second transition stores the healthy list that it loaded before
      the first backend left it. */
  lemma RevivingCrossing(start: State, schedule: seq<nat>, base: seq<Transition>, h: seq<Backend>, k: seq<Backend>,
                         h1: seq<Backend>, k1: seq<Backend>)
    returns (next: seq<nat>)
    requires |base| >= 2 && base[0].toSick && !base[1].toSick
    requires Reach(start, schedule, At(base, Lists(h, k), Begin, Begin))
    requires RemoveFrom(base[0].b.addr, h) == Store(h1) && RemoveFrom(base[1].b.addr, k) == Store(k1)
    requires AddTo(base[1].b, h) == Store(h + [base[1].b]) && AddTo(base[0].b, k1) == Store(k1 + [base[0].b])
    ensures Reach(start, next, At(base, Lists(h + [base[1].b], k1 + [base[0].b]), Done, Done))
  {
    hide Reach, At, RemoveFrom, AddTo;
    next := SecondMoves(start, schedule, base, Lists(h, k), Begin, Begin);
    next := SecondMoves(start, next, base, Lists(h, k), Begin, Leaving(k));
    next := SecondMoves(start, next, base, Lists(h, k1), Begin, Left);
    next := FirstMoves(start, next, base, Lists(h, k1), Begin, Joining(h));
    next := FirstMoves(start, next, base, Lists(h, k1), Leaving(h), Joining(h));
    next := SecondMoves(start, next, base, Lists(h1, k1), Left, Joining(h));
    next := FirstMoves(start, next, base, Lists(h + [base[1].b], k1), Left, Done);
    next := FirstMoves(start, next, base, Lists(h + [base[1].b], k1), Joining(k1), Done);
  }

  /** The first two transitions ready on good lists, the others done. */
  ghost predicate TwoLeft(s: State) {
    && |s.transitions| >= 2 && Good(s.lists) && Ready(s, 0) && Ready(s, 1)
    && s.transitions[0].b.addr != s.transitions[1].b.addr
    && (s.transitions[0].toSick || !s.transitions[1].toSick)
    && forall i | 2 <= i < |s.transitions| :: s.transitions[i].phase == Done
  }

  /** What leaving one list and joining the other computes. */
  lemma LeaveAndJoin(from: seq<Backend>, to: seq<Backend>, b: Backend)
    requires HasAddr(from, b.addr) && !HasAddr(to, b.addr)
    ensures RemoveFrom(b.addr, from) == Store(Without(from, b.addr)) && AddTo(b, to) == Store(to + [b])
  {
  }

  lemma WithoutHas(list: seq<Backend>, addr: string)
    ensures forall other :: HasAddr(Without(list, addr), other) <==> HasAddr(list, other) && other != addr
  {
    forall other ensures HasAddr(Without(list, addr), other) <==> HasAddr(list, other) && other != addr {
      WithoutContent(list, addr);
      HasAddrIn(Without(list, addr), other);
      HasAddrIn(list, other);
    }
  }

  lemma AppendHas(list: seq<Backend>, b: Backend)
    ensures forall other :: HasAddr(list + [b], other) <==> HasAddr(list, other) || other == b.addr
  {
    forall other ensures HasAddr(list + [b], other) <==> HasAddr(list, other) || other == b.addr {
      HasAddrLast(list + [b], other);
      assert (list + [b])[..|list|] == list;
    }
  }

  lemma OneSideOnly(p: Lists, toSick: bool, b: Backend)
    requires Good(p) && b in Source(p, toSick)
    ensures HasAddr(Source(p, toSick), b.addr) && !HasAddr(Source(p, !toSick), b.addr)
  {
  }

  /** From there the round may end with a backend in neither list. */
  lemma MayLose(start: State, schedule: seq<nat>, s: State) returns (next: seq<nat>, lost: Backend)
    requires Reach(start, schedule, s) && TwoLeft(s)
    ensures IsSchedule(|start.transitions|, next) && Over(Accesses(start, next))
    ensures lost == s.transitions[0].b || lost == s.transitions[1].b
    ensures !InPool(Accesses(start, next).lists, lost.addr)
  {
    var base, d := s.transitions, s.transitions[0].toSick;
    var a, b := base[0].b, base[1].b;
    var from, to := Source(s.lists, d), Source(s.lists, !d);
    OneSideOnly(s.lists, d, a);
    OneSideOnly(s.lists, base[1].toSick, b);
    LeaveAndJoin(from, to, a);
    WithoutHas(from, a.addr);
    assert At(base, s.lists, Begin, Begin) == s by {
      assert base[0 := base[0].(phase := Begin)][1 := base[1].(phase := Begin)] == base;
    }
    var less := Without(from, a.addr);
    hide Good, HasAddr, RemoveFrom, AddTo, Without;
    if base[1].toSick == d {
      LeaveAndJoin(less, to, b);
      WithoutHas(less, b.addr);
      AppendHas(to, b);
      next := LosingSchedule(start, schedule, base, from, less, Without(less, b.addr), to);
      lost := a;
    } else {
      LeaveAndJoin(to, from, b);
      WithoutHas(to, b.addr);
      AppendHas(Without(to, b.addr), a);
      LeaveAndJoin(from, Without(to, b.addr), a);
      next := LosingCrossing(start, schedule, base, from, to, less, Without(to, b.addr));
      lost := b;
    }
  }

  /** And it may end with a backend in both lists, so that either transition of it panics. */
  lemma MayRevive(start: State, schedule: seq<nat>, s: State) returns (next: seq<nat>)
    requires Reach(start, schedule, s) && TwoLeft(s)
    ensures IsSchedule(|start.transitions|, next) && Over(Accesses(start, next))
    ensures var p, addr := Accesses(start, next).lists, s.transitions[0].b.addr;
            HasAddr(p.healthy, addr) && HasAddr(p.sick, addr)
  {
    var base, d := s.transitions, s.transitions[0].toSick;
    var a, b := base[0].b, base[1].b;
    var from, to := Source(s.lists, d), Source(s.lists, !d);
    OneSideOnly(s.lists, d, a);
    OneSideOnly(s.lists, base[1].toSick, b);
    LeaveAndJoin(from, to, a);
    assert At(base, s.lists, Begin, Begin) == s by {
      assert base[0 := base[0].(phase := Begin)][1 := base[1].(phase := Begin)] == base;
    }
    hide Good, HasAddr, RemoveFrom, AddTo, Without;
    if base[1].toSick == d {
      LeaveAndJoin(from, to, b);
      WithoutHas(from, b.addr);
      AppendHas(to, a);
      AppendHas(to + [a], b);
      LeaveAndJoin(from, to + [a], b);
      next := RevivingSchedule(start, schedule, base, from, Without(from, a.addr), Without(from, b.addr), to);
    } else {
      LeaveAndJoin(to, from, b);
      WithoutHas(to, b.addr);
      AppendHas(Without(to, b.addr), a);
      AppendHas(from, b);
      LeaveAndJoin(from, Without(to, b.addr), a);
      next := RevivingCrossing(start, schedule, base, from, to, Without(from, a.addr), Without(to, b.addr));
    }
  }

  /** The same transitions at other phases. */
  predicate SameMoves(a: seq<Transition>, b: seq<Transition>) {
    |a| == |b| && forall i | 0 <= i < |a| :: a[i].b == b[i].b && a[i].toSick == b[i].toSick
  }

  /** One transition from beginning to end, with no other in between. */
  lemma RunAlone(start: State, schedule: seq<nat>, s: State, i: nat) returns (next: seq<nat>, t: State)
    requires Reach(start, schedule, s) && i < |s.transitions| && Ready(s, i) && Good(s.lists)
    ensures Reach(start, next, t) && Good(t.lists)
    ensures t.transitions == s.transitions[i := s.transitions[i].(phase := Done)]
    ensures forall d, c | c in Source(s.lists, d) && c != s.transitions[i].b :: c in Source(t.lists, d)
  {
    UninterruptedTransition(s, i);
    MovesAreClean(s.lists, s.transitions[i].b);
    hide Access, ToSick, ToHealthy, Good;
    next := schedule;
    Extend(start, next, i);
    next := next + [i];
    Extend(start, next, i);
    next := next + [i];
    Extend(start, next, i);
    next := next + [i];
    Extend(start, next, i);
    next := next + [i];
    t := Access(Access(Access(Access(s, i), i), i), i);
  }

  /** Of the transitions but the first two, those before the m-th are done; the others are ready. */
  predicate DoneFrom2(ts: seq<Transition>, s: State, m: nat) {
    && SameMoves(s.transitions, ts)
    && forall i | 0 <= i < |s.transitions| ::
         if 2 <= i < m then s.transitions[i].phase == Done else Ready(s, i)
  }

  lemma RunNext(start: State, schedule: seq<nat>, ts: seq<Transition>, s: State, k: nat)
    returns (next: seq<nat>, t: State)
    requires Reach(start, schedule, s) && Good(s.lists)
    requires Distinct(ts) && 2 <= k < |ts| && DoneFrom2(ts, s, k)
    ensures Reach(start, next, t) && Good(t.lists) && DoneFrom2(ts, t, k + 1)
  {
    assert Ready(s, k);
    hide Good, Source, Reach, Distinct, DoneFrom2, Ready;
    next, t := RunAlone(start, schedule, s, k);
    OneMoreDone(ts, s, t, k);
  }

  lemma NoneDone(p: Lists, check: string -> bool)
    requires Good(p)
    ensures Reach(RoundStart(p, check), [], RoundStart(p, check))
    ensures DoneFrom2(Changing(p, check), RoundStart(p, check), 2)
  {
    ChangingContent(p, check);
    var ts := Changing(p, check);
    hide Changing, Good;
    forall i | 0 <= i < |ts| ensures Ready(RoundStart(p, check), i) {
      assert ts[i] in ts;
    }
  }

  lemma OneMoreDone(ts: seq<Transition>, s: State, t: State, k: nat)
    requires Distinct(ts) && 2 <= k < |ts| && DoneFrom2(ts, s, k)
    requires t.transitions == s.transitions[k := s.transitions[k].(phase := Done)]
    requires forall d, c | c in Source(s.lists, d) && c != s.transitions[k].b :: c in Source(t.lists, d)
    ensures DoneFrom2(ts, t, k + 1)
  {
    hide Source;
    forall i | 0 <= i < |ts| && (i < 2 || i > k) ensures Ready(t, i) {
      assert Ready(s, i) && s.transitions[i].b != s.transitions[k].b;
    }
  }

  /** All transitions but the first two may run one after the other. */
  lemma RestFirst(p: Lists, check: string -> bool, m: nat) returns (schedule: seq<nat>, s: State)
    requires Good(p) && 2 <= m <= |Changing(p, check)|
    ensures Reach(RoundStart(p, check), schedule, s) && Good(s.lists) && DoneFrom2(Changing(p, check), s, m)
  {
    ChangingContent(p, check);
    var ts := Changing(p, check);
    hide Changing, Good, Source, Distinct, Ready, Reach, DoneFrom2;
    if m == 2 {
      schedule, s := [], RoundStart(p, check);
      NoneDone(p, check);
    } else {
      schedule, s := RestFirst(p, check, m - 1);
      schedule, s := RunNext(RoundStart(p, check), schedule, ts, s, m - 1);
    }
  }

  /** The first two transitions of a round leave different lists only in one order. */
  lemma SickFirst(p: Lists, check: string -> bool)
    requires |Changing(p, check)| >= 2
    ensures Changing(p, check)[0].toSick || !Changing(p, check)[1].toSick
  {
    TurnsContent(p.healthy, check, true);
    TurnsContent(p.sick, check, false);
    var h, k, ts := Turns(p.healthy, check, true), Turns(p.sick, check, false), Changing(p, check);
    if h == [] {
      assert ts[1] == k[1] && k[1] in k;
    } else {
      assert ts[0] == h[0] && h[0] in h;
    }
  }

  lemma DownToTwo(p: Lists, check: string -> bool) returns (schedule: seq<nat>, s: State)
    requires Good(p) && |Changing(p, check)| >= 2
    ensures Reach(RoundStart(p, check), schedule, s) && TwoLeft(s)
    ensures forall i | 0 <= i < 2 :: s.transitions[i].b in p.healthy || s.transitions[i].b in p.sick
  {
    var ts := Changing(p, check);
    ChangingContent(p, check);
    SickFirst(p, check);
    hide Changing, Good;
    schedule, s := RestFirst(p, check, |ts|);
    assert ts[0] in ts && ts[1] in ts;
    assert Ready(s, 0) && Ready(s, 1);
  }

  /** Whenever two backends change in one round, a schedule loses one of them. */
  lemma RaceLosesBackend(p: Lists, check: string -> bool) returns (schedule: seq<nat>, lost: Backend)
    requires Good(p) && |Changing(p, check)| >= 2
    ensures IsSchedule(|Changing(p, check)|, schedule) && Over(Accesses(RoundStart(p, check), schedule))
    ensures lost in p.healthy || lost in p.sick
    ensures !InPool(Accesses(RoundStart(p, check), schedule).lists, lost.addr)
  {
    var s;
    schedule, s := DownToTwo(p, check);
    hide Changing, Good, TwoLeft;
    schedule, lost := MayLose(RoundStart(p, check), schedule, s);
  }

  /** And a schedule leaves a backend in both lists. Whatever its next check says, the
      transition that the next round starts for it panics. */
  lemma RaceLeadsToPanic(p: Lists, check: string -> bool) returns (schedule: seq<nat>, b: Backend, c: Backend)
    requires Good(p) && |Changing(p, check)| >= 2
    ensures IsSchedule(|Changing(p, check)|, schedule) && Over(Accesses(RoundStart(p, check), schedule))
    ensures var q := Accesses(RoundStart(p, check), schedule).lists;
            && b in q.healthy && c in q.sick && b.addr == c.addr
            && ToSick(q, b) == Panic && ToHealthy(q, c) == Panic
  {
    var s;
    schedule, s := DownToTwo(p, check);
    hide Changing, Good, TwoLeft, Accesses;
    schedule := MayRevive(RoundStart(p, check), schedule, s);
    var q, addr := Accesses(RoundStart(p, check), schedule).lists, s.transitions[0].b.addr;
    HasAddrIn(q.healthy, addr);
    HasAddrIn(q.sick, addr);
    b :| b in q.healthy && b.addr == addr;
    c :| c in q.sick && c.addr == addr;
  }

  /** A round over lists with no common URL is safe under every schedule exactly when at most
      one backend changes: when at most one check disagrees with the list its backend is in. */
  lemma RoundIsSafeIff(p: Lists, check: string -> bool)
    requires Good(p)
    ensures RoundIsSafe(p, check) <==> |Changing(p, check)| <= 1
  {
    var n := |Changing(p, check)|;
    if n >= 2 {
      var schedule, lost := RaceLosesBackend(p, check);
      var q := Accesses(RoundStart(p, check), schedule).lists;
      NotInLists(q, lost);
      hide Changing, Good, Accesses;
      assert !AsChecked(p, check, q);
    } else {
      forall schedule | IsSchedule(n, schedule) && Over(Accesses(RoundStart(p, check), schedule))
        ensures AsChecked(p, check, Accesses(RoundStart(p, check), schedule).lists)
      {
        if n == 1 {
          OneChangeIsSafe(p, check, schedule);
        } else {
          NoChangeIsSafe(p, check);
        }
      }
    }
  }

  lemma NotInLists(p: Lists, b: Backend)
    ensures b in p.healthy || b in p.sick ==> InPool(p, b.addr)
  {
  }

  // ---- No panic within one round ----

  predicate Pending(t: Transition) {
    t.phase != Done && t.phase != Panicked
  }

  /** Before a transition has stored its backend in the list it joins, no version of that list
      has the backend's address, neither the current one nor any loaded one. */
  predicate Absent(s: State, i: nat, j: nat)
    requires i < |s.transitions| && j < |s.transitions|
  {
    var t, u := s.transitions[i], s.transitions[j];
    Pending(t) ==>
      && !HasAddr(Source(s.lists, !t.toSick), t.b.addr)
      && (u.phase.Leaving? && u.toSick != t.toSick ==> !HasAddr(u.phase.loaded, t.b.addr))
      && (u.phase.Joining? && u.toSick == t.toSick ==> !HasAddr(u.phase.loaded, t.b.addr))
  }

  ghost predicate NoneThere(s: State) {
    && Distinct(s.transitions)
    && (forall i, j | 0 <= i < |s.transitions| && 0 <= j < |s.transitions| :: Absent(s, i, j))
    && (forall i | 0 <= i < |s.transitions| :: s.transitions[i].phase != Panicked)
  }

  lemma AccessKeepsNoneThere(s: State, k: nat)
    requires NoneThere(s) && k < |s.transitions|
    ensures NoneThere(Access(s, k))
  {
    var t := Access(s, k);
    var u := s.transitions[k];
    assert Absent(s, k, k);
    if u.phase.Leaving? {
      WithoutHas(u.phase.loaded, u.b.addr);
    }
    if u.phase.Joining? {
      AppendHas(u.phase.loaded, u.b);
    }
    hide HasAddr, Without;
    forall i, j | 0 <= i < |t.transitions| && 0 <= j < |t.transitions| ensures Absent(t, i, j) {
      assert Absent(s, i, j) && Absent(s, i, k);
    }
  }

  /** Under no schedule does a round over lists with no common URL panic. */
  lemma NoPanicInOneRound(p: Lists, check: string -> bool, schedule: seq<nat>)
    requires Good(p) && IsSchedule(|Changing(p, check)|, schedule)
    ensures forall i | 0 <= i < |Changing(p, check)| ::
              Accesses(RoundStart(p, check), schedule).transitions[i].phase != Panicked
  {
    var s := RoundStart(p, check);
    ChangingContent(p, check);
    forall i, j | 0 <= i < |s.transitions| && 0 <= j < |s.transitions| ensures Absent(s, i, j) {
      assert s.transitions[i] in s.transitions && s.transitions[j] in s.transitions;
      OneSideOnly(p, s.transitions[i].toSick, s.transitions[i].b);
    }
    forall i | 0 <= i < |s.transitions| ensures s.transitions[i].phase != Panicked {
      assert s.transitions[i] in s.transitions;
    }
    StaysNoneThere(s, schedule);
  }

  lemma {:induction false} StaysNoneThere(s: State, schedule: seq<nat>)
    requires NoneThere(s) && IsSchedule(|s.transitions|, schedule)
    ensures NoneThere(Accesses(s, schedule))
  {
    if schedule != [] {
      var front := schedule[..|schedule| - 1];
      StaysNoneThere(s, front);
      AccessKeepsNoneThere(Accesses(s, front), schedule[|schedule| - 1]);
    }
  }
}
