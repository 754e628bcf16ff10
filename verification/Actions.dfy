/** The actions taken on one endpoint: a chain of state functions driven by Run. */
module Actions {

  /** The state functions in the order of the chain. jobStart ends with the wait for the
      server to be reachable. */
  datatype Fn = FindAppLocal | RmBackend | JobKill | Cp | JobStart | AddBackend

  datatype Option<T> = None | Some(value: T)

  /** The state function that a successful one returns. */
  function Next(f: Fn): Option<Fn> {
    match f
    case FindAppLocal => Some(RmBackend)
    case RmBackend => Some(JobKill)
    case JobKill => Some(Cp)
    case Cp => Some(JobStart)
    case JobStart => Some(AddBackend)
    case AddBackend => None
  }

  const LENGTH := 6

  function Place(f: Fn): (k: nat)
    ensures k < LENGTH
  {
    match f
    case FindAppLocal => 0
    case RmBackend => 1
    case JobKill => 2
    case Cp => 3
    case JobStart => 4
    case AddBackend => 5
  }

  /** The calls made by a run that starts at `first` follow the chain without a gap. */
  predicate InOrder(calls: seq<Fn>, first: nat) {
    first + |calls| <= LENGTH && forall j | 0 <= j < |calls| :: Place(calls[j]) == first + j
  }

  /** Next goes from each place of the chain to the one after it, and ends after the last. */
  lemma NextIsNextPlace(f: Fn)
    ensures Next(f) == None <==> Place(f) == LENGTH - 1
    ensures Next(f).Some? ==> Place(Next(f).value) == Place(f) + 1
  {
  }

  /** The calls of a whole run, by name. */
  lemma WholeChain(calls: seq<Fn>)
    requires InOrder(calls, 0) && |calls| == LENGTH
    ensures calls == [FindAppLocal, RmBackend, JobKill, Cp, JobStart, AddBackend]
  {
    assert forall k | 0 <= k < 6 :: Place(calls[k]) == k;
  }

  /** What the outside world does to one run: whether the binary opens, and for each turn of
      the loop whether the context has ended and whether the state function succeeds. */
  datatype Turn = Fine | ContextEnded | StepFails

  datatype Error = CannotOpen | Context | StepError(fn: Fn)

  class Actions {
    const endpoint: string
    var started: bool
    var failedState: Option<Fn>
    var err: Option<Error>

    constructor (endpoint: string)
      ensures this.endpoint == endpoint && !started && failedState == None && err == None
    {
      this.endpoint := endpoint;
      started, failedState, err := false, None, None;
    }

    /** Where a run starts in the chain. */
    function First(): nat
      reads this
    {
      if failedState.Some? then Place(failedState.value) else 0
    }

    /** A run enters the state functions in chain order from its first, stops at the first turn
        that is not fine, and succeeds when it gets to the end. A success leaves an error of
        an earlier run in place. A state function that fails returns a nil next function, so
        it leaves failedState nil, and the next run starts at the head of the chain. */
    method Run(opens: bool, world: nat -> Turn) returns (ok: bool, calls: seq<Fn>)
      modifies this
      ensures InOrder(calls, old(First()))
      ensures ok <==> opens && forall k | 0 <= k < LENGTH - old(First()) :: world(k) == Fine
      ensures ok ==> old(First()) + |calls| == LENGTH && err == old(err)
      ensures !ok && !opens ==> err == Some(CannotOpen) && calls == []
      ensures !ok && opens ==>
                var k := if err == Some(Context) then |calls| else |calls| - 1;
                && 0 <= k < LENGTH - old(First())
                && (forall j | 0 <= j < k :: world(j) == Fine)
                && world(k) != Fine
                && (world(k) == ContextEnded ==> err == Some(Context))
                && (world(k) == StepFails ==> k < |calls| && err == Some(StepError(calls[k])))
      ensures failedState == (if err.Some? && err.value.StepError? && !ok then None else old(failedState))
      ensures old(failedState) == None ==> failedState == None
    {
      assert Place(FindAppLocal) == 0;
      hide Place, Next;
      ghost var first := First();
      calls := [];
      if !opens {
        err := Some(CannotOpen);
        return false, calls;
      }
      var fn := if failedState.Some? then failedState.value else FindAppLocal;
      started := true;
      while true
        invariant failedState == old(failedState) && err == old(err)
        invariant InOrder(calls, first) && Place(fn) == first + |calls|
        invariant forall j | 0 <= j < |calls| :: world(j) == Fine
        decreases LENGTH - |calls|
      {
        var turn := world(|calls|);
        if turn == ContextEnded {
          err := Some(Context);
          return false, calls;
        }
        calls := calls + [fn];
        if turn == StepFails {
          failedState := None;
          err := Some(StepError(fn));
          return false, calls;
        }
        NextIsNextPlace(fn);
        var next := Next(fn);
        if next == None {
          return true, calls;
        }
        fn := next.value;
      }
    }
  }
}
