/** The power-of-two-choices pool: a list of healthy and a list of sick backends, each
    replaced as a whole when it changes. */
module Pool {

  /** A wrapped backend. Its URL is "http://" and the address; `obj` tells apart wrappers
      made by different calls of Add. */
  datatype Backend = Backend(addr: string, obj: nat)

  datatype Lists = Lists(healthy: seq<Backend>, sick: seq<Backend>)

  predicate HasAddr(list: seq<Backend>, addr: string) {
    exists i :: 0 <= i < |list| && list[i].addr == addr
  }

  predicate DupFree(list: seq<Backend>) {
    forall i, j | 0 <= i < j < |list| :: list[i].addr != list[j].addr
  }

  /** No URL is in a list twice or in both lists. */
  predicate Good(p: Lists) {
    DupFree(p.healthy) && DupFree(p.sick) && forall b | b in p.healthy :: !HasAddr(p.sick, b.addr)
  }

  predicate InPool(p: Lists, addr: string) {
    HasAddr(p.healthy, addr) || HasAddr(p.sick, addr)
  }

  function Without(list: seq<Backend>, addr: string): seq<Backend> {
    if list == [] then []
    else
      var rest := Without(list[..|list| - 1], addr);
      var last := list[|list| - 1];
      if last.addr == addr then rest else rest + [last]
  }

  /** What an edit of a list stores. Removing from an empty list is not reported as an error. */
  datatype Edit = Store(list: seq<Backend>) | Nothing | Error

  function AddTo(b: Backend, list: seq<Backend>): Edit {
    if HasAddr(list, b.addr) then Error else Store(list + [b])
  }

  function RemoveFrom(addr: string, list: seq<Backend>): Edit {
    if list == [] then Nothing
    else if HasAddr(list, addr) then Store(Without(list, addr))
    else Error
  }

  function Apply(list: seq<Backend>, e: Edit): seq<Backend> {
    if e.Store? then e.list else list
  }

  lemma HasAddrLast(list: seq<Backend>, addr: string)
    requires list != []
    ensures HasAddr(list, addr) <==> HasAddr(list[..|list| - 1], addr) || list[|list| - 1].addr == addr
  {
  }

  lemma {:induction false} WithoutContent(list: seq<Backend>, addr: string)
    ensures forall b :: b in Without(list, addr) <==> b in list && b.addr != addr
    ensures |Without(list, addr)| <= |list|
    ensures |Without(list, addr)| == |list| <==> !HasAddr(list, addr)
    ensures !HasAddr(list, addr) ==> Without(list, addr) == list
  {
    if list != [] {
      var front := list[..|list| - 1];
      WithoutContent(front, addr);
      HasAddrLast(list, addr);
      hide HasAddr;
      assert list == front + [list[|list| - 1]];
    }
  }

  /** From a list that has the URL once, just that backend is cut out. */
  lemma {:induction false} WithoutCuts(list: seq<Backend>, i: nat)
    requires DupFree(list) && i < |list|
    ensures Without(list, list[i].addr) == list[..i] + list[i + 1..]
  {
    var n := |list| - 1;
    if i < n {
      assert DupFree(list[..n]) && list[i].addr != list[n].addr && list[..n][i] == list[i];
      CutFront(list, i);
      hide DupFree;
      WithoutCuts(list[..n], i);
    } else {
      LastIsAlone(list);
      hide DupFree, HasAddr;
      WithoutContent(list[..n], list[i].addr);
      assert list[..n] == list[..i] && list[i + 1..] == [];
    }
  }

  lemma CutFront(list: seq<Backend>, i: nat)
    requires i < |list| - 1
    ensures var front := list[..|list| - 1];
            (front[..i] + front[i + 1..]) + [list[|list| - 1]] == list[..i] + list[i + 1..]
  {
  }

  lemma LastIsAlone(list: seq<Backend>)
    requires DupFree(list) && list != []
    ensures !HasAddr(list[..|list| - 1], list[|list| - 1].addr)
  {
    var front, last := list[..|list| - 1], list[|list| - 1];
    forall k | 0 <= k < |front| ensures front[k].addr != last.addr {
      assert front[k] == list[k];
    }
  }

  lemma {:induction false} WithoutDupFree(list: seq<Backend>, addr: string)
    requires DupFree(list)
    ensures DupFree(Without(list, addr))
  {
    if list != [] {
      var front, last := list[..|list| - 1], list[|list| - 1];
      WithoutDupFree(front, addr);
      WithoutContent(front, addr);
      var rest := Without(front, addr);
      forall i | 0 <= i < |rest| ensures rest[i].addr != last.addr {
        assert rest[i] in front;
        var k :| 0 <= k < |front| && front[k] == rest[i];
        assert list[k].addr != last.addr;
      }
    }
  }

  lemma HasAddrIn(list: seq<Backend>, addr: string)
    ensures HasAddr(list, addr) <==> exists b :: b in list && b.addr == addr
  {
  }

  lemma SameAddrSame(list: seq<Backend>, a: Backend, b: Backend)
    requires DupFree(list) && a in list && b in list && a.addr == b.addr
    ensures a == b
  {
  }

  lemma OnlyOne(list: seq<Backend>, b: Backend)
    requires DupFree(list) && b in list
    ensures forall d | d in list && d.addr == b.addr :: d == b
  {
  }

  // ---- Add and Remove ----

  /** Add after a passed health check; only the healthy list is searched for a duplicate. */
  function Added(p: Lists, b: Backend): (Lists, bool) {
    var e := AddTo(b, p.healthy);
    (p.(healthy := Apply(p.healthy, e)), e.Store?)
  }

  function Removed(p: Lists, addr: string): Lists {
    Lists(Apply(p.healthy, RemoveFrom(addr, p.healthy)), Apply(p.sick, RemoveFrom(addr, p.sick)))
  }

  lemma RemovedContent(p: Lists, addr: string)
    ensures var q := Removed(p, addr);
            && (forall b :: b in q.healthy <==> b in p.healthy && b.addr != addr)
            && (forall b :: b in q.sick <==> b in p.sick && b.addr != addr)
            && !InPool(q, addr)
            && forall other | other != addr :: InPool(q, other) <==> InPool(p, other)
    ensures Good(p) ==> Good(Removed(p, addr))
  {
    var q := Removed(p, addr);
    ListWithout(p.healthy, addr);
    ListWithout(p.sick, addr);
    forall other ensures InPool(q, other) <==> InPool(p, other) && other != addr {
      HasAddrIn(p.healthy, other);
      HasAddrIn(p.sick, other);
      HasAddrIn(q.healthy, other);
      HasAddrIn(q.sick, other);
    }
    forall b | b in q.healthy && Good(p) ensures !HasAddr(q.sick, b.addr) {
      HasAddrIn(q.sick, b.addr);
      HasAddrIn(p.sick, b.addr);
    }
  }

  lemma ListWithout(list: seq<Backend>, addr: string)
    ensures var l := Apply(list, RemoveFrom(addr, list));
            && (forall b :: b in l <==> b in list && b.addr != addr)
            && (DupFree(list) ==> DupFree(l))
  {
    WithoutContent(list, addr);
    HasAddrIn(list, addr);
    if DupFree(list) {
      WithoutDupFree(list, addr);
    }
  }

  lemma AddedContent(p: Lists, b: Backend)
    requires Good(p) && !InPool(p, b.addr)
    ensures var (q, ok) := Added(p, b);
            && ok && Good(q) && InPool(q, b.addr)
            && q == p.(healthy := p.healthy + [b])
            && forall other | other != b.addr :: InPool(q, other) <==> InPool(p, other)
  {
    var (q, ok) := Added(p, b);
    assert q.healthy[|p.healthy|] == b;
    forall other ensures HasAddr(q.healthy, other) <==> HasAddr(p.healthy, other) || other == b.addr {
      HasAddrIn(p.healthy, other);
      HasAddrIn(q.healthy, other);
    }
  }

  // ---- Health transitions, one at a time ----

  datatype Moved = Ok(lists: Lists) | Panic

  function ToSick(p: Lists, b: Backend): Moved {
    var r := RemoveFrom(b.addr, p.healthy);
    if r.Error? then Ok(p)
    else
      var a := AddTo(b, p.sick);
      if a.Error? then Panic else Ok(Lists(Apply(p.healthy, r), a.list))
  }

  function ToHealthy(p: Lists, b: Backend): Moved {
    var r := RemoveFrom(b.addr, p.sick);
    if r.Error? then Ok(p)
    else
      var a := AddTo(b, p.healthy);
      if a.Error? then Panic else Ok(Lists(a.list, Apply(p.sick, r)))
  }

  /** The goroutine started for one backend of a round: `start` is the pool the round began
      with, `check` the health check by address. */
  function MoveOne(start: Lists, check: string -> bool, p: Lists, b: Backend): Moved {
    if b in start.healthy && !check(b.addr) then ToSick(p, b)
    else if b in start.sick && check(b.addr) then ToHealthy(p, b)
    else Ok(p)
  }

  /** A round whose transitions run one after the other in the given order. */
  function Round(start: Lists, check: string -> bool, order: seq<Backend>): Moved {
    if order == [] then Ok(start)
    else
      match Round(start, check, order[..|order| - 1])
      case Panic => Panic
      case Ok(p) => MoveOne(start, check, p, order[|order| - 1])
  }

  lemma MoveBetween(from: seq<Backend>, to: seq<Backend>, b: Backend)
    requires DupFree(from) && DupFree(to) && b in from && !HasAddr(to, b.addr)
    ensures RemoveFrom(b.addr, from) == Store(Without(from, b.addr)) && AddTo(b, to) == Store(to + [b])
    ensures DupFree(Without(from, b.addr)) && DupFree(to + [b])
    ensures forall c :: c in Without(from, b.addr) <==> c in from && c != b
    ensures forall c :: c in to + [b] <==> c in to || c == b
  {
    HasAddrIn(from, b.addr);
    WithoutContent(from, b.addr);
    WithoutDupFree(from, b.addr);
    forall c | c in from && c.addr == b.addr ensures c == b {
      SameAddrSame(from, c, b);
    }
    forall c ensures c in to + [b] <==> c in to || c == b {}
  }

  /** Moving a member of one list to the other keeps the lists free of duplicates and the
      backends the same, and never panics. */
  lemma MovesAreClean(p: Lists, b: Backend)
    requires Good(p)
    ensures b in p.healthy ==>
              && ToSick(p, b).Ok? && Good(ToSick(p, b).lists)
              && (forall c :: c in ToSick(p, b).lists.healthy <==> c in p.healthy && c != b)
              && (forall c :: c in ToSick(p, b).lists.sick <==> c in p.sick || c == b)
    ensures b in p.sick ==>
              && ToHealthy(p, b).Ok? && Good(ToHealthy(p, b).lists)
              && (forall c :: c in ToHealthy(p, b).lists.sick <==> c in p.sick && c != b)
              && (forall c :: c in ToHealthy(p, b).lists.healthy <==> c in p.healthy || c == b)
  {
    if b in p.healthy {
      MoveBetween(p.healthy, p.sick, b);
      var q := ToSick(p, b).lists;
      forall c | c in q.healthy ensures !HasAddr(q.sick, c.addr) {
        HasAddrIn(q.sick, c.addr);
        HasAddrIn(p.sick, c.addr);
        if c.addr == b.addr {
          SameAddrSame(p.healthy, c, b);
        }
      }
    }
    if b in p.sick {
      HasAddrIn(p.sick, b.addr);
      HasAddrIn(p.healthy, b.addr);
      MoveBetween(p.sick, p.healthy, b);
      var q := ToHealthy(p, b).lists;
      forall c | c in q.healthy ensures !HasAddr(q.sick, c.addr) {
        HasAddrIn(q.sick, c.addr);
        HasAddrIn(p.sick, c.addr);
        OnlyOne(p.sick, b);
      }
    }
  }

  /** Where a backend is after the goroutines of `done` have finished. */
  predicate ShouldBeHealthy(start: Lists, check: string -> bool, done: seq<Backend>, b: Backend) {
    (b in start.healthy || b in start.sick) && if b in done then check(b.addr) else b in start.healthy
  }

  predicate ShouldBeSick(start: Lists, check: string -> bool, done: seq<Backend>, b: Backend) {
    (b in start.healthy || b in start.sick) && if b in done then !check(b.addr) else b in start.sick
  }

  lemma NotInBoth(p: Lists, b: Backend)
    requires Good(p) && b in p.healthy
    ensures b !in p.sick
  {
  }

  /** The lists hold what they should after the goroutines of `done`. */
  ghost predicate AsTheyShould(start: Lists, check: string -> bool, done: seq<Backend>, p: Lists) {
    && (forall b :: b in p.healthy <==> ShouldBeHealthy(start, check, done, b))
    && (forall b :: b in p.sick <==> ShouldBeSick(start, check, done, b))
  }

  lemma NoneDone(start: Lists, check: string -> bool)
    requires Good(start)
    ensures AsTheyShould(start, check, [], start)
  {
  }

  lemma OneMoreDone(start: Lists, check: string -> bool, front: seq<Backend>, b: Backend, p: Lists)
    requires Good(start) && Good(p) && AsTheyShould(start, check, front, p)
    requires b !in front && (b in start.healthy || b in start.sick)
    ensures MoveOne(start, check, p, b).Ok?
    ensures var q := MoveOne(start, check, p, b).lists;
            Good(q) && AsTheyShould(start, check, front + [b], q)
  {
    if b in start.healthy {
      NotInBoth(start, b);
    }
    MovesAreClean(p, b);
    hide Good, ToSick, ToHealthy;
    assert forall c :: c in front + [b] <==> c in front || c == b;
  }

  lemma {:induction false} RoundSoFar(start: Lists, check: string -> bool, done: seq<Backend>)
    requires Good(start)
    requires forall i, j | 0 <= i < j < |done| :: done[i] != done[j]
    requires forall b | b in done :: b in start.healthy || b in start.sick
    ensures Round(start, check, done).Ok?
    ensures var p := Round(start, check, done).lists;
            Good(p) && AsTheyShould(start, check, done, p)
  {
    hide Good, MoveOne, AsTheyShould;
    if done == [] {
      NoneDone(start, check);
    } else {
      var front, b := done[..|done| - 1], done[|done| - 1];
      RoundSoFar(start, check, front);
      OneMoreDone(start, check, front, b, Round(start, check, front).lists);
      assert done == front + [b];
    }
  }

  /** The backends of `start`, each in the list that its check says. */
  ghost predicate AsChecked(start: Lists, check: string -> bool, p: Lists) {
    && (forall b :: b in p.healthy <==> (b in start.healthy || b in start.sick) && check(b.addr))
    && (forall b :: b in p.sick <==> (b in start.healthy || b in start.sick) && !check(b.addr))
  }

  /** A round over lists with no common URL conserves the backends, ends with the healthy ones
      being those that pass, and never panics, whatever order the transitions run in. */
  lemma HealthRound(start: Lists, check: string -> bool, order: seq<Backend>)
    requires Good(start) && multiset(order) == multiset(start.healthy + start.sick)
    ensures Round(start, check, order).Ok?
    ensures var p := Round(start, check, order).lists;
            Good(p) && AsChecked(start, check, p)
  {
    forall b ensures b in order <==> b in start.healthy || b in start.sick {
      assert b in order <==> b in multiset(order);
      assert b in start.healthy + start.sick <==> b in multiset(start.healthy + start.sick);
    }
    EachOnce(start);
    forall i, j | 0 <= i < j < |order| ensures order[i] != order[j] {
      RepeatedTwice(order, i, j);
      assert multiset(start.healthy + start.sick)[order[i]] <= 1;
    }
    RoundSoFar(start, check, order);
  }

  lemma RepeatedTwice(list: seq<Backend>, i: nat, j: nat)
    requires i < j < |list|
    ensures list[i] == list[j] ==> multiset(list)[list[i]] >= 2
  {
    assert list == list[..j] + list[j..];
    assert list[..j][i] == list[i] && list[j..][0] == list[j];
  }

  lemma EachOnce(p: Lists)
    requires Good(p)
    ensures forall b :: multiset(p.healthy + p.sick)[b] <= 1
  {
    forall b ensures multiset(p.healthy + p.sick)[b] <= 1 {
      DupFreeOnce(p.healthy, b);
      DupFreeOnce(p.sick, b);
      if b in p.healthy {
        NotInBoth(p, b);
      }
    }
  }

  lemma {:induction false} DupFreeOnce(list: seq<Backend>, b: Backend)
    requires DupFree(list)
    ensures multiset(list)[b] <= 1
  {
    if list != [] {
      var front := list[..|list| - 1];
      DupFreeOnce(front, b);
      assert list == front + [list[|list| - 1]];
    }
  }

  // ---- Health ----

  datatype Status = Empty | Full | Degraded

  datatype PoolHealth = PoolHealth(status: Status, backends: seq<string>)

  function AddrsOf(list: seq<Backend>): seq<string> {
    seq(|list|, i requires 0 <= i < |list| => list[i].addr)
  }

  /** The pool's answer when both lists are asked for. */
  function HealthOf(p: Lists): PoolHealth {
    if p.healthy == [] && p.sick == [] then PoolHealth(Empty, [])
    else PoolHealth(if p.sick != [] then Degraded else Full, AddrsOf(p.healthy) + AddrsOf(p.sick))
  }

  // ---- The pool as it runs ----

  class P2C {
    var healthy: seq<Backend>
    var sick: seq<Backend>

    function Value(): Lists
      reads this
    {
      Lists(healthy, sick)
    }

    constructor ()
      ensures Value() == Lists([], [])
    {
      healthy, sick := [], [];
    }

    static method AddToValue(b: Backend, backs: seq<Backend>) returns (e: Edit)
      ensures e == AddTo(b, backs)
    {
      var n: seq<Backend> := [];
      for i := 0 to |backs|
        invariant n == backs[..i]
        invariant !HasAddr(backs[..i], b.addr)
      {
        if b.addr == backs[i].addr {
          return Error;
        }
        n := n + [backs[i]];
      }
      assert backs[..|backs|] == backs;
      e := Store(n + [b]);
    }

    static method RemoveFromValue(addr: string, backs: seq<Backend>) returns (e: Edit)
      ensures e == RemoveFrom(addr, backs)
    {
      if |backs| - 1 < 0 {
        return Nothing;
      }
      var n: seq<Backend> := [];
      for i := 0 to |backs|
        invariant n == Without(backs[..i], addr)
      {
        assert backs[..i + 1][..i] == backs[..i];
        if addr != backs[i].addr {
          n := n + [backs[i]];
        }
      }
      assert backs[..|backs|] == backs;
      WithoutContent(backs, addr);
      e := if |backs| == |n| then Error else Store(n);
    }

    /** `check` is the outcome of the health check that precedes the lock. */
    method Add(b: Backend, check: bool) returns (ok: bool)
      modifies this
      ensures (Value(), ok) == if check then Added(old(Value()), b) else (old(Value()), false)
    {
      if !check {
        return false;
      }
      var e := AddToValue(b, healthy);
      ok := e.Store?;
      if ok {
        healthy := e.list;
      }
    }

    method Remove(addr: string)
      modifies this
      ensures Value() == Removed(old(Value()), addr)
    {
      var e := RemoveFromValue(addr, healthy);
      if e.Store? {
        healthy := e.list;
      }
      e := RemoveFromValue(addr, sick);
      if e.Store? {
        sick := e.list;
      }
    }

    method HealthyToSick(b: Backend) returns (panic: bool)
      modifies this
      ensures panic <==> ToSick(old(Value()), b).Panic?
      ensures !panic ==> Ok(Value()) == ToSick(old(Value()), b)
    {
      var e := RemoveFromValue(b.addr, healthy);
      if e.Error? {
        return false;
      }
      if e.Store? {
        healthy := e.list;
      }
      e := AddToValue(b, sick);
      if e.Error? {
        return true;
      }
      sick := e.list;
      panic := false;
    }

    method SickToHealthy(b: Backend) returns (panic: bool)
      modifies this
      ensures panic <==> ToHealthy(old(Value()), b).Panic?
      ensures !panic ==> Ok(Value()) == ToHealthy(old(Value()), b)
    {
      var e := RemoveFromValue(b.addr, sick);
      if e.Error? {
        return false;
      }
      if e.Store? {
        sick := e.list;
      }
      e := AddToValue(b, healthy);
      if e.Error? {
        return true;
      }
      healthy := e.list;
      panic := false;
    }

    /** A health round; `order` is the order in which its goroutines get to run. A panic ends
        the process. */
    method HealthChecks(check: string -> bool, order: seq<Backend>) returns (panic: bool)
      requires multiset(order) == multiset(healthy + sick)
      modifies this
      ensures panic <==> Round(old(Value()), check, order).Panic?
      ensures !panic ==> Ok(Value()) == Round(old(Value()), check, order)
      ensures old(Good(Value())) ==> !panic && AsChecked(old(Value()), check, Value())
    {
      ghost var start := Value();
      if Good(start) {
        HealthRound(start, check, order);
      }
      hide Good, AsChecked, ToSick, ToHealthy;
      var wasHealthy, wasSick := healthy, sick;
      for i := 0 to |order|
        invariant Ok(Value()) == Round(start, check, order[..i])
      {
        assert order[..i + 1][..i] == order[..i];
        var b := order[i];
        panic := false;
        if b in wasHealthy && !check(b.addr) {
          panic := HealthyToSick(b);
        } else if b in wasSick && check(b.addr) {
          panic := SickToHealthy(b);
        }
        if panic {
          PanicLasts(start, check, order, i + 1);
          return;
        }
      }
      assert order[..|order|] == order;
      panic := false;
    }

    method Health(wantHealthy: bool, wantSick: bool) returns (ph: PoolHealth)
      ensures wantHealthy && wantSick ==> ph == HealthOf(Value())
      ensures ph.status == Empty <==> healthy == [] && sick == []
      ensures ph.status == Degraded <==> sick != []
      ensures ph.backends == (if wantHealthy then AddrsOf(healthy) else []) + (if wantSick then AddrsOf(sick) else [])
    {
      if |sick| == 0 && |healthy| == 0 {
        return PoolHealth(Empty, []);
      }
      var status := if |sick| > 0 then Degraded else Full;
      var backends: seq<string> := [];
      if wantHealthy {
        for i := 0 to |healthy|
          invariant backends == AddrsOf(healthy)[..i]
        {
          backends := backends + [healthy[i].addr];
        }
      }
      if wantSick {
        ghost var before := backends;
        for i := 0 to |sick|
          invariant backends == before + AddrsOf(sick)[..i]
        {
          backends := backends + [sick[i].addr];
        }
      }
      ph := PoolHealth(status, backends);
    }
  }

  lemma {:induction false} PanicLasts(start: Lists, check: string -> bool, order: seq<Backend>, n: nat)
    requires n <= |order| && Round(start, check, order[..n]).Panic?
    ensures Round(start, check, order).Panic?
    decreases |order| - n
  {
    if n < |order| {
      assert order[..n + 1][..n] == order[..n];
      PanicLasts(start, check, order, n + 1);
    } else {
      assert order[..n] == order;
    }
  }
}
