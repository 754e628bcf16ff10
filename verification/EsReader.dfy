/** The emergency-stop reader as an object: its fields change in place, and what each method does
    is a run of the steps of EmergencyStop. */
module EsReader {
  import opened Text
  import opened EmergencyStop
  import opened EsPromise

  // ---- Reading the file ----

  /** One JSON value of the file: undecodable, or a rule as written. */
  datatype Raw = Undecodable | Rule(name: string, status: string)

  predicate IsValid(r: Raw) {
    r.Rule? && Trim(r.name) != "" && (r.status == "go" || r.status == "stop")
  }

  function StatusOf(r: Raw): Status
    requires IsValid(r)
  {
    if r.status == "go" then Go else Stop
  }

  /** The infos of the first n values of a file: for each name its first valid rule, under
      the name as written. */
  ghost predicate IsInfos(records: seq<Raw>, n: nat, infos: map<string, Status>)
    requires n <= |records|
  {
    && (forall name | name in infos :: exists i: nat :: i < n && IsFirst(records, i, name, infos[name]))
    && (forall i | 0 <= i < n && IsValid(records[i]) :: records[i].name in infos)
  }

  ghost predicate IsFirst(records: seq<Raw>, i: nat, name: string, status: Status) {
    && i < |records| && IsValid(records[i]) && records[i].name == name && StatusOf(records[i]) == status
    && forall j | 0 <= j < i && IsValid(records[j]) :: records[j].name != name
  }

  /** What a file says of a name: it is on go exactly when the first of its rules that says go or
      stop says go; rules whose name is blank or that say anything else are as if not there. */
  lemma GoIffFirstRuleSaysGo(records: seq<Raw>, infos: map<string, Status>, name: string)
    requires IsInfos(records, |records|, infos)
    ensures IsGo(infos, name) <==>
              && !AllSpace(name)
              && exists i :: 0 <= i < |records| && records[i] == Rule(name, "go")
                             && forall j | 0 <= j < i :: records[j] != Rule(name, "stop")
    ensures name in infos <==> !AllSpace(name) && (Rule(name, "go") in records || Rule(name, "stop") in records)
  {
    BlankIffAllSpace(name);
    hide Trim, AllSpace;
    if !AllSpace(name) && (Rule(name, "go") in records || Rule(name, "stop") in records) {
      var k :| 0 <= k < |records| && records[k] in {Rule(name, "go"), Rule(name, "stop")};
      assert IsValid(records[k]);
    }
    if name in infos {
      var i: nat :| i < |records| && IsFirst(records, i, name, infos[name]);
      assert records[i] == Rule(name, if infos[name] == Go then "go" else "stop");
      assert forall j | 0 <= j < i :: records[j] != Rule(name, "go") && records[j] != Rule(name, "stop") by {
        assert IsValid(Rule(name, "go")) && IsValid(Rule(name, "stop"));
      }
    }
  }

  lemma InfosSkip(records: seq<Raw>, n: nat, infos: map<string, Status>)
    requires n < |records| && IsInfos(records, n, infos)
    requires IsValid(records[n]) ==> records[n].name in infos
    ensures IsInfos(records, n + 1, infos)
  {
    hide IsFirst, IsValid;
    forall name | name in infos ensures exists i: nat :: i < n + 1 && IsFirst(records, i, name, infos[name]) {
      var i: nat :| i < n && IsFirst(records, i, name, infos[name]);
    }
  }

  lemma InfosAdd(records: seq<Raw>, n: nat, infos: map<string, Status>)
    requires n < |records| && IsInfos(records, n, infos)
    requires IsValid(records[n]) && records[n].name !in infos
    ensures IsInfos(records, n + 1, infos[records[n].name := StatusOf(records[n])])
  {
    var more := infos[records[n].name := StatusOf(records[n])];
    assert IsFirst(records, n, records[n].name, StatusOf(records[n]));
    hide IsFirst, IsValid;
    forall name | name in more ensures exists i: nat :: i < n + 1 && IsFirst(records, i, name, more[name]) {
      if name != records[n].name {
        var i: nat :| i < n && IsFirst(records, i, name, infos[name]);
      }
    }
  }

  /** load: any undecodable value makes the whole file malformed; an invalid rule is skipped. */
  method ReadFile(opens: bool, records: seq<Raw>) returns (l: Load)
    ensures l.CannotOpen? <==> !opens
    ensures l.Malformed? <==> opens && Undecodable in records
    ensures l.Loaded? ==> IsInfos(records, |records|, l.infos)
  {
    if !opens {
      return CannotOpen;
    }
    var m: map<string, Status> := map[];
    assert IsInfos(records, 0, m);
    hide IsInfos;
    for i := 0 to |records|
      invariant forall j | 0 <= j < i :: records[j] != Undecodable
      invariant IsInfos(records, i, m)
    {
      var info := records[i];
      if info.Undecodable? {
        return Malformed;
      }
      if info.name !in m && IsValid(info) {
        InfosAdd(records, i, m);
        m := m[info.name := StatusOf(info)];
      } else {
        InfosSkip(records, i, m);
      }
    }
    l := Loaded(m);
  }

  // ---- The reader ----

  /** The steps taken since `start` are a run that leads to `s`. */
  ghost predicate Trace(start: State, steps: seq<Step>, s: State) {
    Runs(start, steps) && After(start, steps) == s && Safe(s)
  }

  lemma Traced(start: State, steps: seq<Step>, s: State, step: Step)
    requires Trace(start, steps, s) && Enabled(s, step)
    ensures Trace(start, steps + [step], Do(s, step))
  {
    Extend(start, steps, step);
    StepSafe(s, step);
  }

  lemma NoSteps(s: State)
    requires Safe(s)
    ensures Trace(s, [], s)
  {
  }

  lemma HeadExists(start: State, steps: seq<Step>, s: State)
    requires Trace(start, steps, s) && s.loop.Sending? && s.loop.left != []
    ensures s.loop.left[0] in s.chans && !s.chans[s.loop.left[0]].closed
  {
    assert s.loop.left[0] in s.loop.left;
  }

  /** A range over a map: every key once, in an order the language leaves open. */
  ghost predicate IsOrder(order: seq<string>, keys: set<string>) {
    && (forall i, j | 0 <= i < j < |order| :: order[i] != order[j])
    && (forall name :: name in order <==> name in keys)
  }

  function Names(order: seq<string>): set<string> {
    set name | name in order
  }

  lemma OrderNames(order: seq<string>, keys: set<string>)
    requires IsOrder(order, keys)
    ensures Names(order) == keys
  {
  }

  lemma NoNames()
    ensures Names([]) == {}
  {
  }

  /** The effect of a pass over the names in `done`: a name that the file takes off has no
      subscribers left, all of its channels are closed, and no other channel is. */
  ghost predicate Passed(before: State, infos: map<string, Status>, done: set<string>, s: State) {
    && (forall name :: Subscribers(s, name) ==
          if name in done && MustStop(before.entries, infos, name) then [] else Subscribers(before, name))
    && forall ch | ch in before.chans ::
         && ch in s.chans
         && (s.chans[ch].closed <==>
               || before.chans[ch].closed
               || exists name | name in done ::
                    MustStop(before.entries, infos, name) && ch in Subscribers(before, name))
  }

  lemma NonePassed(s: State, infos: map<string, Status>)
    ensures Passed(s, infos, Names([]), s)
  {
  }

  /** Which names a pass is to stop, and what it leaves, do not depend on where the loop is. */
  lemma SamePassed(
      before: State, start: State, infos: map<string, Status>, done: set<string>, s: State, t: State)
    requires Passed(before, infos, done, s) && t.subscribers == s.subscribers && t.chans == s.chans
    requires start.entries == before.entries && start.subscribers == before.subscribers
    requires start.chans == before.chans
    ensures Passed(start, infos, done, t)
  {
  }

  lemma OnePassed(before: State, infos: map<string, Status>, done: set<string>, s: State, name: string, t: State)
    requires Passed(before, infos, done, s) && name !in done
    requires var list := if MustStop(before.entries, infos, name) then Subscribers(s, name) else [];
             && t.subscribers == (if list == [] then s.subscribers else s.subscribers - {name})
             && Closes(s.chans, t.chans, list)
    ensures Passed(before, infos, done + {name}, t)
  {
    hide MustStop;
  }

  lemma NamesStep(order: seq<string>, keys: set<string>, i: nat)
    requires i < |order| && IsOrder(order, keys)
    ensures order[i] !in Names(order[..i]) && Names(order[..i + 1]) == Names(order[..i]) + {order[i]}
    ensures order[i] in Names(order[i..]) && Names(order[i + 1..]) == Names(order[i..]) - {order[i]}
  {
    assert order[i..] == [order[i]] + order[i + 1..] && order[i] !in order[i + 1..];
    assert order[..i + 1] == order[..i] + [order[i]] && order[i] !in order[..i];
  }

  /** The channels of a list get closed, and no other. */
  ghost predicate Closes(before: map<nat, Chan>, after: map<nat, Chan>, list: seq<nat>) {
    forall ch | ch in before ::
      ch in after && after[ch].name == before[ch].name && (after[ch].closed <==> before[ch].closed || ch in list)
  }

  lemma ClosesNone(chans: map<nat, Chan>)
    ensures Closes(chans, chans, [])
  {
  }

  lemma ClosesBoth(a: map<nat, Chan>, b: map<nat, Chan>, c: map<nat, Chan>, some: seq<nat>, more: seq<nat>)
    requires Closes(a, b, some) && Closes(b, c, more)
    ensures Closes(a, c, some + more)
    ensures some == [] ==> Closes(a, c, more)
  {
    assert [] + more == more;
  }

  /** `loop`, `asking` and `cancelled` say where the goroutines are. */
  class Reader {
    var entries: map<string, Status>
    var subscribers: map<string, seq<nat>>
    var chans: map<nat, Chan>
    var next: nat
    var locked: bool
    var badSend: bool
    var crashed: bool
    ghost var loop: Loop
    ghost var asking: multiset<string>
    ghost var cancelled: set<nat>

    ghost function Value(): State
      reads this
    {
      State(entries, subscribers, chans, next, locked, loop, asking, cancelled, badSend, crashed)
    }

    constructor (infos: map<string, Status>)
      ensures Value() == Start(infos)
    {
      entries, subscribers, chans, next, locked := infos, map[], map[], 0, false;
      badSend, crashed := false, false;
      loop, asking, cancelled := Resting, multiset{}, {};
    }

    /** Subscribe up to the mutex. */
    method AskFor(name: string) returns (go: bool, ch: nat)
      requires !crashed
      modifies this
      ensures Value() == Do(old(Value()), Ask(name))
      ensures go <==> IsGo(old(entries), name)
      ensures !go ==> ch == old(next)
    {
      ch, go := next, name in entries && entries[name] == Go;
      if go {
        asking := asking + multiset{name};
      } else {
        next := next + 1;
        chans := chans[ch := Chan(name, Stop, Full(Stop), true, [])];
      }
    }

    /** Subscribe under the mutex. */
    method RegisterFor(name: string) returns (ch: nat)
      requires Enabled(Value(), Register(name))
      modifies this
      ensures Value() == Do(old(Value()), Register(name)) && ch == old(next)
    {
      ghost var s := Value();
      assert Do(s, Register(name)) == EmergencyStop.RegisterFor(s, name);
      hide Enabled, Do;
      ch := next;
      next, asking := next + 1, asking - multiset{name};
      chans := chans[ch := Chan(name, Go, Full(Go), false, [])];
      var l := if name in subscribers then subscribers[name] else [];
      l := l + [ch];
      subscribers := subscribers[name := l];
    }

    /** The first half, and the second unless the mutex is held. */
    method Subscribe(name: string) returns (blocked: bool, ch: nat)
      requires !crashed
      modifies this
      ensures var s := old(Value());
              && blocked == (IsGo(s.entries, name) && s.locked)
              && Value() == if !IsGo(s.entries, name) || blocked then Do(s, Ask(name))
                            else Do(Do(s, Ask(name)), Register(name))
      ensures !blocked ==> ch == old(next)
    {
      var go;
      go, ch := AskFor(name);
      blocked := go && locked;
      if go && !blocked {
        ch := RegisterFor(name);
      }
    }

    method Cancel(ch: nat) returns (blocked: bool)
      requires !crashed && ch in chans
      modifies this
      ensures blocked == (old(locked) && old(chans)[ch].born == Go)
      ensures Value() == if blocked then old(Value()) else Do(old(Value()), Cancelling(ch))
    {
      var name := chans[ch].name;
      if chans[ch].born == Stop {
        return false;
      }
      if locked {
        return true;
      }
      blocked := false;
      var stored := if name in subscribers then subscribers[name] else [];
      if |stored| - 1 < 0 {
        crashed := true;
        return;
      }
      var l: seq<nat> := [];
      for i := 0 to |stored|
        invariant l == Others(stored[..i], ch)
      {
        assert stored[..i + 1][..i] == stored[..i];
        if stored[i] != ch {
          l := l + [stored[i]];
        }
      }
      assert stored[..|stored|] == stored;
      subscribers := subscribers[name := l];
      cancelled := cancelled + {ch};
    }

    method Receive(ch: nat)
      requires Enabled(Value(), Receiving(ch))
      modifies this`chans
      ensures Value() == Do(old(Value()), Receiving(ch)) && Closes(old(chans), chans, [])
    {
      chans := chans[ch := Received(chans[ch])];
    }

    /** The send of the select in sendStop. */
    method TrySend(ch: nat) returns (sent: bool)
      requires Enabled(Value(), Send) && loop.op == Try && loop.left[0] == ch && !chans[ch].closed
      modifies this`chans, this`loop
      ensures Value() == Do(old(Value()), Send) && Closes(old(chans), chans, [])
      ensures sent <==> loop.op == Close
    {
      sent := chans[ch].slot.Empty?;
      if sent {
        chans := chans[ch := chans[ch].(slot := Full(Stop))];
      }
      loop := loop.(op := if sent then Close else Drain);
    }

    /** The default of the select. */
    method DrainSlot(ch: nat)
      requires Enabled(Value(), Send) && loop.op == Drain && loop.left[0] == ch
      modifies this`chans, this`loop
      ensures Value() == Do(old(Value()), Send) && Closes(old(chans), chans, [])
    {
      chans := chans[ch := chans[ch].(slot := Empty)];
      loop := loop.(op := Try);
    }

    method CloseChan(ch: nat, name: string)
      requires Enabled(Value(), Send) && loop.op == Close && loop.left[0] == ch && loop.name == name
      requires !chans[ch].closed
      modifies this`chans, this`subscribers, this`loop
      ensures Value() == Do(old(Value()), Send) && Closes(old(chans), chans, [ch])
      ensures loop == old(loop).(left := old(loop).left[1..], op := Try)
      ensures subscribers == old(subscribers) - {name}
    {
      chans := chans[ch := chans[ch].(closed := true)];
      subscribers := subscribers - {name};
      loop := loop.(left := loop.left[1..], op := Try);
    }

    /** The inner loop of sendStop on one channel, while its receiver may take what is in the
        slot at any moment: at most two tries, and then Stop has been sent. */
    method PutStop(ch: nat, takes: nat -> bool, ghost start: State, ghost before: seq<Step>)
      returns (tries: nat, ghost steps: seq<Step>)
      requires Trace(start, before, Value()) && !crashed
      requires loop.Sending? && loop.op == Try && loop.left != [] && loop.left[0] == ch
      modifies this`chans, this`loop
      ensures Trace(start, steps, Value())
      ensures tries <= 2 && loop == old(loop).(op := Close) && Closes(old(chans), chans, [])
    {
      hide Trace, Do, Closes;
      steps, tries := before, 0;
      ClosesNone(chans);
      HeadExists(start, steps, Value());
      var sent := false;
      while !sent
        invariant Trace(start, steps, Value())
        invariant loop == old(loop).(op := if sent then Close else Try) && Closes(old(chans), chans, [])
        invariant tries <= 2 && (!sent ==> tries == 0 || (tries == 1 && ch in chans && chans[ch].slot.Empty?))
        decreases 2 - tries
      {
        HeadExists(start, steps, Value());
        ghost var was := chans;
        if takes(2 * tries) && chans[ch].slot.Full? {
          Traced(start, steps, Value(), Receiving(ch));
          ReceiveEffect(Value(), ch);
          steps := steps + [Receiving(ch)];
          Receive(ch);
          ClosesBoth(old(chans), was, chans, [], []);
          HeadExists(start, steps, Value());
        }
        Traced(start, steps, Value(), Send);
        SendEffect(Value());
        steps := steps + [Send];
        was := chans;
        sent := TrySend(ch);
        ClosesBoth(old(chans), was, chans, [], []);
        if !sent {
          if takes(2 * tries + 1) {
            Traced(start, steps, Value(), Receiving(ch));
            ReceiveEffect(Value(), ch);
            steps := steps + [Receiving(ch)];
            was := chans;
            Receive(ch);
            ClosesBoth(old(chans), was, chans, [], []);
          }
          Traced(start, steps, Value(), Send);
          SendEffect(Value());
          steps := steps + [Send];
          was := chans;
          DrainSlot(ch);
          ClosesBoth(old(chans), was, chans, [], []);
        }
        tries := tries + 1;
      }
    }

    method TakeMutex()
      requires Enabled(Value(), Lock)
      modifies this`locked, this`loop
      ensures Value() == Do(old(Value()), Lock)
      ensures locked && loop == if old(loop).LoadFailed? then RangingSubscribed(subscribers.Keys)
                                else Sending(old(loop).name, Subscribers(Value(), old(loop).name), Try, old(loop).back)
    {
      locked := true;
      loop := if loop.LoadFailed? then RangingSubscribed(subscribers.Keys)
              else Sending(loop.name, Subscribers(Value(), loop.name), Try, loop.back);
    }

    method GiveMutex()
      requires Enabled(Value(), Unlock)
      modifies this`locked, this`loop
      ensures Value() == Do(old(Value()), Unlock)
      ensures !locked && loop == BackTo(old(loop).back)
    {
      locked := false;
      loop := BackTo(loop.back);
    }

    /** The outer loop of sendStop on one channel. */
    method StopOne(ch: nat, name: string, takes: nat -> bool, ghost start: State, ghost before: seq<Step>)
      returns (ghost steps: seq<Step>)
      requires Trace(start, before, Value()) && !crashed
      requires loop.Sending? && loop.op == Try && loop.left != [] && loop.left[0] == ch && loop.name == name
      modifies this`chans, this`subscribers, this`loop
      ensures Trace(start, steps, Value())
      ensures loop == old(loop).(left := old(loop).left[1..], op := Try)
      ensures subscribers == old(subscribers) - {name} && Closes(old(chans), chans, [ch])
    {
      hide Trace, Do, Closes;
      var tries;
      tries, steps := PutStop(ch, takes, start, before);
      HeadExists(start, steps, Value());
      Traced(start, steps, Value(), Send);
      steps := steps + [Send];
      ghost var was := chans;
      CloseChan(ch, name);
      ClosesBoth(old(chans), was, chans, [], [ch]);
    }

    method StopAll(list: seq<nat>, name: string, takes: (nat, nat) -> bool, ghost start: State,
                   ghost before: seq<Step>)
      returns (ghost steps: seq<Step>)
      requires Trace(start, before, Value()) && !crashed
      requires loop.Sending? && loop == Sending(name, list, Try, loop.back)
      modifies this`chans, this`subscribers, this`loop
      ensures Trace(start, steps, Value())
      ensures loop == old(loop).(left := [], op := Try)
      ensures subscribers == (if list == [] then old(subscribers) else old(subscribers) - {name})
      ensures Closes(old(chans), chans, list)
    {
      hide Trace, Do, Closes;
      steps := before;
      ClosesNone(chans);
      for i := 0 to |list|
        invariant Trace(start, steps, Value())
        invariant loop == Sending(name, list[i..], Try, old(loop).back)
        invariant subscribers == if i == 0 then old(subscribers) else old(subscribers) - {name}
        invariant Closes(old(chans), chans, list[..i])
      {
        ghost var was := chans;
        steps := StopOne(list[i], name, (n: nat) => takes(i, n), start, steps);
        ClosesBoth(old(chans), was, chans, list[..i], [list[i]]);
        assert list[..i + 1] == list[..i] + [list[i]];
      }
      assert list[..|list|] == list;
    }

    /** sendStop of one name: it waits when the mutex is held, and otherwise stops every channel
        of the name and goes back to its range. */
    method SendStop(name: string, takes: (nat, nat) -> bool, ghost start: State, ghost before: seq<Step>)
      returns (stuck: bool, ghost steps: seq<Step>)
      requires Trace(start, before, Value()) && !crashed
      requires loop.Locking? && loop.name == name
      modifies this`locked, this`loop, this`chans, this`subscribers
      ensures Trace(start, steps, Value())
      ensures stuck == old(locked)
      ensures stuck ==> Value() == old(Value())
      ensures !stuck ==> loop == BackTo(old(loop).back)
      ensures !stuck ==>
                var list := Subscribers(old(Value()), name);
                && subscribers == (if list == [] then old(subscribers) else old(subscribers) - {name})
                && Closes(old(chans), chans, list)
    {
      hide Trace, Do, Closes;
      stuck, steps := locked, before;
      if stuck {
        return;
      }
      Traced(start, steps, Value(), Lock);
      steps := steps + [Lock];
      TakeMutex();
      var list := if name in subscribers then subscribers[name] else [];
      steps := StopAll(list, name, takes, start, steps);
      Traced(start, steps, Value(), Unlock);
      steps := steps + [Unlock];
      GiveMutex();
    }

    /** One turn of the range over the old entries: whether the name is to be stopped. */
    method VisitEntry(name: string, infos: map<string, Status>) returns (stop: bool)
      requires Enabled(Value(), Visit(name)) && loop.Ranging? && loop.infos == infos
      modifies this`loop
      ensures Value() == Do(old(Value()), Visit(name))
      ensures stop <==> MustStop(entries, infos, name)
      ensures loop == if stop then Locking(name, ToEntries(infos, old(loop).todo - {name}))
                      else Ranging(infos, old(loop).todo - {name})
    {
      stop := MustStop(entries, infos, name);
      loop := if stop then Locking(name, ToEntries(infos, loop.todo - {name})) else Ranging(infos, loop.todo - {name});
    }

    /** One turn of the range over the old entries. */
    method DealWith(name: string, infos: map<string, Status>, takes: (nat, nat) -> bool,
                    ghost start: State, ghost before: seq<Step>)
      returns (ghost steps: seq<Step>)
      requires Trace(start, before, Value()) && !crashed
      requires loop.Ranging? && loop.infos == infos && name in loop.todo
      modifies this`locked, this`loop, this`chans, this`subscribers
      ensures Trace(start, steps, Value())
      ensures loop == Ranging(infos, old(loop).todo - {name})
      ensures var list := if MustStop(entries, infos, name) then Subscribers(old(Value()), name) else [];
              && subscribers == (if list == [] then old(subscribers) else old(subscribers) - {name})
              && Closes(old(chans), chans, list)
    {
      hide Trace, Do, MustStop, Closes;
      ClosesNone(chans);
      Traced(start, before, Value(), Visit(name));
      steps := before + [Visit(name)];
      var stop := VisitEntry(name, infos);
      if stop {
        NotLocked(start, steps, Value());
        stop, steps := SendStop(name, takes, start, steps);
      }
    }

    /** The range over the old entries. */
    method RangeOver(infos: map<string, Status>, order: seq<string>, takes: (nat, nat, nat) -> bool,
                     ghost start: State, ghost before: seq<Step>)
      returns (ghost steps: seq<Step>)
      requires Trace(start, before, Value()) && !crashed && IsOrder(order, entries.Keys)
      requires loop == Ranging(infos, entries.Keys)
      modifies this`locked, this`loop, this`chans, this`subscribers
      ensures Trace(start, steps, Value())
      ensures loop == Ranging(infos, {}) && Passed(old(Value()), infos, entries.Keys, Value())
    {
      hide Trace, Do, Safe, Names, IsOrder, Passed, MustStop, Closes;
      ghost var first := Value();
      steps := before;
      NonePassed(first, infos);
      OrderNames(order, entries.Keys);
      for i := 0 to |order|
        invariant Trace(start, steps, Value())
        invariant loop == Ranging(infos, Names(order[i..]))
        invariant Passed(first, infos, Names(order[..i]), Value())
      {
        NamesStep(order, entries.Keys, i);
        ghost var was := Value();
        steps := DealWith(order[i], infos, (k: nat, n: nat) => takes(i, k, n), start, steps);
        OnePassed(first, infos, Names(order[..i]), was, order[i], Value());
      }
      NoNames();
      assert order[|order|..] == [] && order[..|order|] == order;
    }

    /** A pass over a file that loads. `order` is the order of the range over the old entries. */
    method PassOver(infos: map<string, Status>, order: seq<string>, takes: (nat, nat, nat) -> bool)
      returns (ghost steps: seq<Step>)
      requires Safe(Value()) && !crashed && loop.Resting? && IsOrder(order, entries.Keys)
      modifies this`entries, this`locked, this`loop, this`chans, this`subscribers
      ensures Trace(old(Value()), steps, Value())
      ensures loop.Resting? && entries == infos
      ensures Passed(old(Value()), infos, old(entries).Keys, Value())
    {
      ghost var start := Value();
      NoSteps(start);
      hide Trace, Do, Safe, IsOrder, Passed;
      Traced(start, [], Value(), Read(Loaded(infos)));
      steps := [] + [Read(Loaded(infos))];
      StartEntries(infos);
      ghost var first := Value();
      steps := RangeOver(infos, order, takes, start, steps);
      ghost var last := Value();
      Traced(start, steps, Value(), EndRange);
      steps := steps + [EndRange];
      StoreEntries(infos);
      SamePassed(first, start, infos, old(entries).Keys, last, Value());
    }

    ghost method StartEntries(infos: map<string, Status>)
      requires Enabled(Value(), Read(Loaded(infos)))
      modifies this`loop
      ensures Value() == Do(old(Value()), Read(Loaded(infos)))
      ensures loop == Ranging(infos, entries.Keys)
    {
      loop := Ranging(infos, entries.Keys);
    }

    method StoreEntries(infos: map<string, Status>)
      requires Enabled(Value(), EndRange) && loop.Ranging? && loop.infos == infos
      modifies this`entries, this`loop
      ensures Value() == Do(old(Value()), EndRange)
      ensures entries == infos && loop == Resting
    {
      entries := infos;
      loop := Resting;
    }

    /** A failed load, up to the range over the subscribed names. */
    method FailLoad(malformed: bool) returns (ghost steps: seq<Step>)
      requires Safe(Value()) && !crashed && loop.Resting?
      modifies this`entries, this`locked, this`loop
      ensures Trace(old(Value()), steps, Value())
      ensures locked && loop == RangingSubscribed(subscribers.Keys)
    {
      ghost var start := Value();
      assert !locked;
      NoSteps(start);
      hide Trace, Safe;
      ghost var load := if malformed then Malformed else CannotOpen;
      Traced(start, [], Value(), Read(load));
      steps := [] + [Read(load)];
      if malformed {
        entries := map[];
      }
      loop := LoadFailed;
      Traced(start, steps, Value(), Lock);
      steps := steps + [Lock];
      TakeMutex();
    }

    /** A pass after a failed load. `order` is the order of the range over the subscribed names.
        With one or more of them the loop ends up waiting for the mutex it holds. */
    method PassFailed(malformed: bool, order: seq<string>) returns (stuck: bool, ghost steps: seq<Step>)
      requires Safe(Value()) && !crashed && loop.Resting? && IsOrder(order, subscribers.Keys)
      modifies this`entries, this`locked, this`loop, this`chans, this`subscribers
      ensures Trace(old(Value()), steps, Value())
      ensures stuck <==> old(subscribers) != map[]
      ensures chans == old(chans) && subscribers == old(subscribers)
      ensures if stuck then Stuck(Value()) && Trapped(Value()) else loop.Resting?
    {
      ghost var start := Value();
      steps := FailLoad(malformed);
      hide Trace, Safe, Do;
      stuck := false;
      var i := 0;
      while i < |order| && !stuck
        invariant Trace(start, steps, Value()) && locked && !crashed && i <= |order|
        invariant chans == old(chans) && subscribers == old(subscribers)
        invariant if stuck then i > 0 && loop.Locking? && loop.back.ToSubscribed?
                  else i == 0 && loop == RangingSubscribed(subscribers.Keys)
        decreases |order| - i
      {
        assert order[i] in order;
        Traced(start, steps, Value(), Visit(order[i]));
        steps := steps + [Visit(order[i])];
        VisitSubscribed(order[i]);
        stuck, steps := SendStop(order[i], (k: nat, n: nat) => false, start, steps);
        i := i + 1;
      }
      if stuck {
        assert order[0] in order;
      } else {
        assert subscribers.Keys == {};
        Traced(start, steps, Value(), EndRange);
        steps := steps + [EndRange];
        EndFailed();
      }
    }

    ghost method VisitSubscribed(name: string)
      requires Enabled(Value(), Visit(name)) && loop.RangingSubscribed?
      modifies this`loop
      ensures Value() == Do(old(Value()), Visit(name))
      ensures loop == Locking(name, ToSubscribed(old(loop).todo - {name}))
    {
      loop := Locking(name, ToSubscribed(loop.todo - {name}));
    }

    method EndFailed()
      requires Enabled(Value(), EndRange) && loop.RangingSubscribed?
      modifies this`locked, this`loop
      ensures Value() == Do(old(Value()), EndRange)
      ensures loop.Resting?
    {
      locked := false;
      loop := Resting;
    }
  }

  function BackTo(back: Back): Loop {
    if back.ToEntries? then Ranging(back.infos, back.todo) else RangingSubscribed(back.todo)
  }

  lemma NotLocked(start: State, steps: seq<Step>, s: State)
    requires Trace(start, steps, s) && s.loop.Locking? && s.loop.back.ToEntries?
    ensures !s.locked
  {
  }

  lemma ReceiveEffect(s: State, ch: nat)
    requires Enabled(s, Receiving(ch)) && s.chans[ch].slot.Full?
    ensures var t := Do(s, Receiving(ch));
            && t == s.(chans := t.chans) && ch in t.chans && t.chans[ch].slot.Empty?
            && t.chans[ch].closed == s.chans[ch].closed
  {
  }

  /** What a send or a drain does to the first channel left. */
  lemma SendEffect(s: State)
    requires Enabled(s, Send) && s.loop.op != Close && !s.chans[s.loop.left[0]].closed
    ensures var t, ch := Do(s, Send), s.loop.left[0];
            && t == s.(chans := t.chans, loop := t.loop) && ch in t.chans
            && t.chans[ch].closed == s.chans[ch].closed
            && (s.loop.op == Drain ==> t.loop == s.loop.(op := Try) && t.chans[ch].slot == Empty)
            && (s.loop.op == Try ==>
                  if s.chans[ch].slot.Full? then t == s.(loop := s.loop.(op := Drain))
                  else t.loop == s.loop.(op := Close))
  {
  }
}
