/** The failures that a rollout reports, and their retry. The retrying goroutines share the
    loop variable, and a retry that succeeds leaves the action's old error in place. */
module Retry {
  import opened Counts

  /** Which actions have an error, and the workflow's failure counter. */
  datatype State = State(hasErr: seq<bool>, failures: int)

  function FailedList(hasErr: seq<bool>): seq<nat> {
    if hasErr == [] then []
    else
      var n := |hasErr| - 1;
      FailedList(hasErr[..n]) + (if hasErr[n] then [n] else [])
  }

  /** The failures of Status: the actions with an error, in the order of the configuration. */
  method Status(hasErr: seq<bool>) returns (failures: seq<nat>)
    ensures failures == FailedList(hasErr)
  {
    failures := [];
    for i := 0 to |hasErr|
      invariant failures == FailedList(hasErr[..i])
    {
      assert hasErr[..i + 1][..i] == hasErr[..i];
      if hasErr[i] {
        failures := failures + [i];
      }
    }
    assert hasErr[..|hasErr|] == hasErr;
  }

  lemma {:induction false} FailedListContent(hasErr: seq<bool>)
    ensures forall i: nat :: i in FailedList(hasErr) <==> i < |hasErr| && hasErr[i]
  {
    if hasErr != [] {
      FailedListContent(hasErr[..|hasErr| - 1]);
    }
  }

  lemma {:induction false} FailedListInOrder(hasErr: seq<bool>)
    ensures forall j, k | 0 <= j < k < |FailedList(hasErr)| :: FailedList(hasErr)[j] < FailedList(hasErr)[k]
  {
    if hasErr != [] {
      var front := FailedList(hasErr[..|hasErr| - 1]);
      FailedListInOrder(hasErr[..|hasErr| - 1]);
      FailedListContent(hasErr[..|hasErr| - 1]);
      forall j | 0 <= j < |front| ensures front[j] < |hasErr| - 1 {
        assert front[j] in front;
      }
    }
  }

  function Failing(hasErr: seq<bool>): set<nat> {
    set i | 0 <= i < |hasErr| && hasErr[i]
  }

  /** Status lists every failed action once. */
  lemma {:induction false} FailedListLength(hasErr: seq<bool>)
    ensures |FailedList(hasErr)| == |Failing(hasErr)|
  {
    if hasErr != [] {
      var n := |hasErr| - 1;
      FailedListLength(hasErr[..n]);
      if hasErr[n] {
        assert Failing(hasErr) == Failing(hasErr[..n]) + {n};
      } else {
        assert Failing(hasErr) == Failing(hasErr[..n]);
      }
    }
  }

  /** Goroutine j reads the loop variable some time after its own turn of the loop, when it is
      anything from j to the length of the list. */
  predicate PossibleReads(n: nat, seen: seq<nat>) {
    |seen| == n && forall j | 0 <= j < n :: j <= seen[j] <= n
  }

  /** Each goroutine may read in its own turn, and each may read only when the loop is over,
      but never later values. */
  lemma EarlyAndLateReads(n: nat)
    ensures PossibleReads(n, Upto(n)) && PossibleReads(n, seq(n, _ => n))
    ensures n > 0 ==> !PossibleReads(n, seq(n, _ => n + 1))
  {
    if n > 0 {
      assert seq(n, _ => n + 1)[0] == n + 1;
    }
  }

  /** A read of the final value indexes past the end of the list. */
  predicate Panics(n: nat, seen: seq<nat>) {
    !forall j | 0 <= j < |seen| :: seen[j] < n
  }

  /** The actions that the goroutines run. */
  function Retried(list: seq<nat>, seen: seq<nat>): seq<nat>
    requires !Panics(|list|, seen)
  {
    seq(|seen|, j requires 0 <= j < |seen| => list[seen[j]])
  }

  function Upto(n: nat): seq<nat> {
    seq(n, i => i)
  }

  lemma NoSmallerRead(n: nat, seen: seq<nat>)
    requires n > 0 && PossibleReads(n, seen) && !Panics(n, seen)
    ensures seen[n - 1] == n - 1
  {
  }

  lemma {:induction false} OnceMeansOwnTurn(n: nat, seen: seq<nat>)
    requires PossibleReads(n, seen) && !Panics(n, seen) && multiset(seen) == multiset(Upto(n))
    ensures forall j | 0 <= j < n :: seen[j] == j
  {
    if n > 0 {
      NoSmallerRead(n, seen);
      var last: nat := n - 1;
      var front := seen[..last];
      assert seen == front + [last];
      assert Upto(n) == Upto(last) + [last];
      assert multiset(front) == multiset(seen) - multiset{last};
      assert multiset(Upto(last)) == multiset(Upto(n)) - multiset{last};
      forall j | 0 <= j < last ensures front[j] < last {
        assert front[j] in multiset(front);
        assert front[j] in Upto(last);
      }
      OnceMeansOwnTurn(last, front);
      assert forall j | 0 <= j < last :: seen[j] == front[j];
    }
  }

  /** Every failed action is retried exactly once, without a panic, only if each goroutine
      reads the variable before the loop moves on. */
  lemma EachRetriedOnceIff(n: nat, seen: seq<nat>)
    requires PossibleReads(n, seen)
    ensures (!Panics(n, seen) && multiset(seen) == multiset(Upto(n))) <==> forall j | 0 <= j < n :: seen[j] == j
  {
    if !Panics(n, seen) && multiset(seen) == multiset(Upto(n)) {
      OnceMeansOwnTurn(n, seen);
    }
    if forall j | 0 <= j < n :: seen[j] == j {
      assert seen == Upto(n);
    }
  }

  /** No caller can rely on that: whatever the scheduler does, every failed action is retried
      once without a panic exactly when there is none to retry. With one or more failures the
      loop may end before the last goroutine reads the variable. */
  lemma RetriesAreSafeIffNone(n: nat)
    ensures (forall seen: seq<nat> | PossibleReads(n, seen) :: !Panics(n, seen) && multiset(seen) == multiset(Upto(n)))
       <==> n == 0
  {
    if n == 0 {
      forall seen: seq<nat> | PossibleReads(n, seen) ensures !Panics(n, seen) && multiset(seen) == multiset(Upto(n)) {
        assert seen == Upto(n);
      }
    } else {
      var late: seq<nat> := seq(n, _ => n);
      assert late[0] == n;
      assert PossibleReads(n, late) && Panics(n, late);
    }
  }

  /** One retry that has returned: a success counts down, an error is recorded. */
  function RetryOne(s: State, i: nat, ok: bool): State
    requires i < |s.hasErr|
  {
    if ok then s.(failures := s.failures - 1) else s.(hasErr := s.hasErr[i := true])
  }

  /** All retries, in the order in which they return. */
  function RetryAll(s: State, retried: seq<nat>, oks: seq<bool>): State
    requires |retried| == |oks| && forall j | 0 <= j < |retried| :: retried[j] < |s.hasErr|
    decreases retried
  {
    if retried == [] then s else RetryAll(RetryOne(s, retried[0], oks[0]), retried[1..], oks[1..])
  }

  function Successes(oks: seq<bool>): nat {
    if oks == [] then 0 else One(oks[0]) + Successes(oks[1..])
  }

  lemma {:induction false} RetriesChangeOnlyCounter(s: State, retried: seq<nat>, oks: seq<bool>)
    requires |retried| == |oks|
    requires forall j | 0 <= j < |retried| :: retried[j] < |s.hasErr| && s.hasErr[retried[j]]
    ensures RetryAll(s, retried, oks) == s.(failures := s.failures - Successes(oks))
    decreases retried
  {
    if retried != [] {
      var t := RetryOne(s, retried[0], oks[0]);
      assert t.hasErr == s.hasErr;
      RetriesChangeOnlyCounter(t, retried[1..], oks[1..]);
    }
  }

  /** A retry round never shortens the list of failures that Status reports, even when every
      retry succeeds. The list and the counter agree afterwards exactly when no retry did. */
  lemma RetryNeverClearsFailures(s: State, seen: seq<nat>, oks: seq<bool>)
    requires var list := FailedList(s.hasErr);
             && PossibleReads(|list|, seen) && !Panics(|list|, seen) && |oks| == |seen|
             && s.failures == |list|
    ensures var retried := Retried(FailedList(s.hasErr), seen);
            (forall j | 0 <= j < |retried| :: retried[j] < |s.hasErr|)
            && var t := RetryAll(s, retried, oks);
            && FailedList(t.hasErr) == FailedList(s.hasErr)
            && (t.failures == |FailedList(t.hasErr)| <==> Successes(oks) == 0)
  {
    var list := FailedList(s.hasErr);
    FailedListContent(s.hasErr);
    var retried := Retried(list, seen);
    forall j | 0 <= j < |retried| ensures retried[j] < |s.hasErr| && s.hasErr[retried[j]] {
      assert retried[j] in list;
    }
    RetriesChangeOnlyCounter(s, retried, oks);
  }
}
