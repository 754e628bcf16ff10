/** The rollout's precondition: the pool is at full health and is exactly the configured list. */
module Precondition {
  import opened Pool

  datatype Reply = NoReply | Answer(health: PoolHealth)

  predicate Unique(list: seq<string>) {
    forall i, j | 0 <= i < j < |list| :: list[i] != list[j]
  }

  predicate CheckPasses(config: seq<string>, reply: Reply) {
    match reply
    case NoReply => false
    case Answer(PoolHealth(Empty, _)) => config == []
    case Answer(PoolHealth(Full, backends)) => |config| == |backends| && forall b | b in backends :: b in config
    case Answer(PoolHealth(Degraded, _)) => false
  }

  /** CheckLBState for a pool of IP backends. */
  method CheckLBState(config: seq<string>, reply: Reply) returns (ok: bool)
    ensures ok == CheckPasses(config, reply)
  {
    if reply.NoReply? {
      return false;
    }
    var ph := reply.health;
    match ph.status
    case Empty =>
      ok := |config| == 0;
    case Full =>
      if |config| != |ph.backends| {
        return false;
      }
      var m: map<string, bool> := map[];
      for i := 0 to |config|
        invariant forall b :: b in m <==> b in config[..i]
      {
        assert config[..i + 1] == config[..i] + [config[i]];
        m := m[config[i] := true];
      }
      assert config[..|config|] == config;
      for i := 0 to |ph.backends|
        invariant forall j | 0 <= j < i :: ph.backends[j] in config
      {
        if ph.backends[i] !in m {
          return false;
        }
      }
      ok := true;
    case Degraded =>
      ok := false;
  }

  function Members(list: seq<string>): set<string> {
    set s | s in list
  }

  /** A list has at most as many members as entries, and as many only without repeats. */
  lemma {:induction false} MembersBound(list: seq<string>)
    ensures |Members(list)| <= |list|
    ensures |Members(list)| == |list| <==> Unique(list)
  {
    if list != [] {
      var front, last := list[..|list| - 1], list[|list| - 1];
      MembersBound(front);
      assert list == front + [last];
      if last in front {
        var i :| 0 <= i < |front| && front[i] == last;
        assert list[i] == list[|list| - 1];
        assert Members(list) == Members(front);
      } else {
        assert Members(list) == Members(front) + {last};
        assert Unique(front) ==> Unique(list);
        assert Unique(list) ==> Unique(front) by {
          assert forall i | 0 <= i < |front| :: front[i] == list[i];
        }
      }
    }
  }

  lemma SubsetOfSameSize(a: set<string>, b: set<string>)
    requires a <= b && |a| >= |b|
    ensures a == b
  {
    assert b == a + (b - a);
    assert |b| == |a| + |b - a|;
  }

  /** The check passes exactly when no backend is sick and the configured list names each
      backend of the pool once and nothing else. */
  lemma CheckIsBijection(config: seq<string>, p: Lists)
    requires Good(p)
    ensures CheckPasses(config, Answer(HealthOf(p))) <==>
              p.sick == [] && Unique(config) && (forall a :: a in config <==> HasAddr(p.healthy, a))
  {
    var addrs := AddrsOf(p.healthy);
    AddrsOfHas(p.healthy);
    assert Unique(addrs) && |addrs| == |p.healthy|;
    assert addrs + AddrsOf([]) == addrs;
    hide AddrsOf, HasAddr, Good;
    if p.sick == [] && p.healthy != [] {
      assert CheckPasses(config, Answer(HealthOf(p)))
        <==> |config| == |addrs| && forall b | b in addrs :: b in config;
      SameListsIff(config, addrs);
    } else if p.sick == [] {
      assert forall a :: a !in addrs;
      assert config != [] ==> config[0] in config;
    }
  }

  lemma AddrsOfHas(list: seq<Backend>)
    ensures forall a :: a in AddrsOf(list) <==> HasAddr(list, a)
  {
    var addrs := AddrsOf(list);
    assert forall i | 0 <= i < |addrs| :: addrs[i] == list[i].addr;
    forall a ensures a in addrs <==> HasAddr(list, a) {
      if HasAddr(list, a) {
        var i :| 0 <= i < |list| && list[i].addr == a;
        assert addrs[i] == a;
      }
    }
  }

  /** With no repeats in one list, equal lengths and inclusion make the other a rearrangement. */
  lemma SameListsIff(config: seq<string>, addrs: seq<string>)
    requires Unique(addrs)
    ensures |config| == |addrs| && (forall b | b in addrs :: b in config)
       <==> Unique(config) && forall a :: a in config <==> a in addrs
  {
    MembersBound(addrs);
    MembersBound(config);
    hide Unique;
    if |config| == |addrs| && forall b | b in addrs :: b in config {
      SubsetOfSameSize(Members(addrs), Members(config));
      assert forall a :: a in config <==> a in Members(config);
    }
    if Unique(config) && forall a :: a in config <==> a in addrs {
      assert Members(config) == Members(addrs);
    }
  }
}
