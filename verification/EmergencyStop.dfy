/** Emergency-stop subscriptions in small steps: the status entries read from a file, the mutex,
    the one-slot channels of the subscribers to each name, and the loop that reads the file
    again and stops subscribers. */
module EmergencyStop {

  datatype Status = Go | Stop

  datatype Slot = Empty | Full(status: Status)

  /** What a receiver gets from its channel. */
  datatype Event = Got(status: Status) | SawClosed

  /** A one-slot channel of a subscription to `name`. `born` is the status that Subscribe put in
      it, `seen` what its subscriber has received so far. */
  datatype Chan = Chan(name: string, born: Status, slot: Slot, closed: bool, seen: seq<Event>)

  /** What a read of the file gives. */
  datatype Load = Loaded(infos: map<string, Status>) | CannotOpen | Malformed

  /** The range that a call of sendStop goes back to: over the old entries, or, after a failed
      load, over the subscribed names. */
  datatype Back = ToEntries(infos: map<string, Status>, todo: set<string>) | ToSubscribed(todo: set<string>)

  /** sendStop on one channel: the send, the drain of a full slot, the close. */
  datatype Op = Try | Drain | Close

  /** Where the loop is: between passes; in the range over the old entries; with a failed load,
      about to take the mutex; in the range over the subscribed names, holding it; in sendStop,
      about to take it; in sendStop, holding it, with channels left. */
  datatype Loop =
    | Resting
    | Ranging(infos: map<string, Status>, todo: set<string>)
    | LoadFailed
    | RangingSubscribed(todo: set<string>)
    | Locking(name: string, back: Back)
    | Sending(name: string, left: seq<nat>, op: Op, back: Back)

  /** `asking` are the callers of Subscribe that have seen their name on go and have not yet
      taken the mutex; `cancelled` the channels whose cancel was called; `badSend` records a
      send on, or a close of, a closed channel; `crashed` the panic of a cancel. */
  datatype State = State(
    entries: map<string, Status>,
    subscribers: map<string, seq<nat>>,
    chans: map<nat, Chan>,
    next: nat,
    locked: bool,
    loop: Loop,
    asking: multiset<string>,
    cancelled: set<nat>,
    badSend: bool,
    crashed: bool)

  datatype Step =
    | Ask(name: string)
    | Register(name: string)
    | Cancelling(ch: nat)
    | Receiving(ch: nat)
    | Read(load: Load)
    | Visit(name: string)
    | EndRange
    | Lock
    | Send
    | Unlock

  function Start(infos: map<string, Status>): State {
    State(infos, map[], map[], 0, false, Resting, multiset{}, {}, false, false)
  }

  predicate IsGo(entries: map<string, Status>, name: string) {
    name in entries && entries[name] == Go
  }

  /** The names that a pass over the old entries stops: gone from the file, or no longer on go. */
  predicate MustStop(entries: map<string, Status>, infos: map<string, Status>, name: string) {
    name in entries && (name !in infos || (entries[name] == Go && infos[name] != Go))
  }

  function Subscribers(s: State, name: string): seq<nat> {
    if name in s.subscribers then s.subscribers[name] else []
  }

  function Others(list: seq<nat>, ch: nat): seq<nat> {
    if list == [] then []
    else
      var rest := Others(list[..|list| - 1], ch);
      if list[|list| - 1] == ch then rest else rest + [list[|list| - 1]]
  }

  predicate CanReceive(c: Chan) {
    c.slot.Full? || c.closed
  }

  function Received(c: Chan): Chan
    requires CanReceive(c)
  {
    match c.slot
    case Full(status) => c.(slot := Empty, seen := c.seen + [Got(status)])
    case Empty => c.(seen := c.seen + [SawClosed])
  }

  // ---- Steps ----

  predicate Enabled(s: State, step: Step) {
    && !s.crashed
    && match step
       case Ask(name) => true
       case Register(name) => !s.locked && name in s.asking
       case Cancelling(ch) => ch in s.chans && (s.chans[ch].born == Go ==> !s.locked)
       case Receiving(ch) => ch in s.chans && CanReceive(s.chans[ch])
       case Read(_) => s.loop.Resting?
       case Visit(name) => (s.loop.Ranging? || s.loop.RangingSubscribed?) && name in s.loop.todo
       case EndRange => (s.loop.Ranging? || s.loop.RangingSubscribed?) && s.loop.todo == {}
       case Lock => (s.loop.LoadFailed? || s.loop.Locking?) && !s.locked
       case Send => s.loop.Sending? && s.loop.left != [] && s.loop.left[0] in s.chans
       case Unlock => s.loop.Sending? && s.loop.left == []
  }

  function NewChan(s: State, name: string, status: Status): State {
    s.(chans := s.chans[s.next := Chan(name, status, Full(status), status == Stop, [])], next := s.next + 1)
  }

  /** The half of Subscribe before the mutex: it only reads. */
  function AskFor(s: State, name: string): State {
    if IsGo(s.entries, name) then s.(asking := s.asking + multiset{name}) else NewChan(s, name, Stop)
  }

  /** The half under the mutex. */
  function RegisterFor(s: State, name: string): State {
    NewChan(s, name, Go).(
      asking := s.asking - multiset{name},
      subscribers := s.subscribers[name := Subscribers(s, name) + [s.next]])
  }

  /** The cancel of a subscription to a name that was not on go does nothing. Any other makes a
      list with a capacity of one less than the subscribers of its name, which panics when
      there are none. */
  function Cancelled(s: State, ch: nat): State
    requires ch in s.chans
  {
    var name := s.chans[ch].name;
    var list := Subscribers(s, name);
    if s.chans[ch].born == Stop then s
    else if list == [] then s.(crashed := true)
    else s.(subscribers := s.subscribers[name := Others(list, ch)], cancelled := s.cancelled + {ch})
  }

  /** A malformed file also empties the entries. */
  function AfterLoad(s: State, load: Load): State {
    match load
    case Loaded(infos) => s.(loop := Ranging(infos, s.entries.Keys))
    case CannotOpen => s.(loop := LoadFailed)
    case Malformed => s.(loop := LoadFailed, entries := map[])
  }

  function AfterVisit(s: State, name: string): State
    requires s.loop.Ranging? || s.loop.RangingSubscribed?
  {
    match s.loop
    case Ranging(infos, todo) =>
      s.(loop := if MustStop(s.entries, infos, name) then Locking(name, ToEntries(infos, todo - {name}))
                 else Ranging(infos, todo - {name}))
    case RangingSubscribed(todo) => s.(loop := Locking(name, ToSubscribed(todo - {name})))
    case _ => s
  }

  function AfterRange(s: State): State
    requires s.loop.Ranging? || s.loop.RangingSubscribed?
  {
    if s.loop.Ranging? then s.(entries := s.loop.infos, loop := Resting)
    else s.(locked := false, loop := Resting)
  }

  function AfterLock(s: State): State
    requires s.loop.LoadFailed? || s.loop.Locking?
  {
    if s.loop.LoadFailed? then s.(locked := true, loop := RangingSubscribed(s.subscribers.Keys))
    else s.(locked := true, loop := Sending(s.loop.name, Subscribers(s, s.loop.name), Try, s.loop.back))
  }

  /** One operation of sendStop on the first channel left. The name is deleted with every close. */
  function AfterSend(s: State): State
    requires s.loop.Sending? && s.loop.left != [] && s.loop.left[0] in s.chans
  {
    var ch := s.loop.left[0];
    var c := s.chans[ch];
    match s.loop.op
    case Try =>
      if c.closed then s.(badSend := true)
      else if c.slot.Full? then s.(loop := s.loop.(op := Drain))
      else s.(chans := s.chans[ch := c.(slot := Full(Stop))], loop := s.loop.(op := Close))
    case Drain => s.(chans := s.chans[ch := c.(slot := Empty)], loop := s.loop.(op := Try))
    case Close =>
      s.(chans := s.chans[ch := c.(closed := true)],
         subscribers := s.subscribers - {s.loop.name},
         badSend := s.badSend || c.closed,
         loop := s.loop.(left := s.loop.left[1..], op := Try))
  }

  function AfterUnlock(s: State): State
    requires s.loop.Sending?
  {
    var back := s.loop.back;
    s.(locked := false,
       loop := if back.ToEntries? then Ranging(back.infos, back.todo) else RangingSubscribed(back.todo))
  }

  function Do(s: State, step: Step): State
    requires Enabled(s, step)
  {
    match step
    case Ask(name) => AskFor(s, name)
    case Register(name) => RegisterFor(s, name)
    case Cancelling(ch) => Cancelled(s, ch)
    case Receiving(ch) => s.(chans := s.chans[ch := Received(s.chans[ch])])
    case Read(load) => AfterLoad(s, load)
    case Visit(name) => AfterVisit(s, name)
    case EndRange => AfterRange(s)
    case Lock => AfterLock(s)
    case Send => AfterSend(s)
    case Unlock => AfterUnlock(s)
  }

  predicate Runs(s: State, steps: seq<Step>)
    decreases steps, 0
  {
    steps == [] ||
    (Runs(s, steps[..|steps| - 1]) && Enabled(After(s, steps[..|steps| - 1]), steps[|steps| - 1]))
  }

  function After(s: State, steps: seq<Step>): State
    requires Runs(s, steps)
    decreases steps, 1
  {
    if steps == [] then s else Do(After(s, steps[..|steps| - 1]), steps[|steps| - 1])
  }

  lemma Extend(s: State, steps: seq<Step>, step: Step)
    requires Runs(s, steps) && Enabled(After(s, steps), step)
    ensures Runs(s, steps + [step]) && After(s, steps + [step]) == Do(After(s, steps), step)
  {
    assert (steps + [step])[..|steps|] == steps;
  }

  // ---- What holds in every run ----

  /** Registered channels are open, belong to their name, and are registered once. */
  predicate RegistryOk(s: State) {
    && (forall ch | ch in s.chans :: ch < s.next)
    && (forall name, ch | name in s.subscribers && ch in s.subscribers[name] :: OpenFor(s, ch, name))
    && (forall name | name in s.subscribers :: NoRepeats(s.subscribers[name]))
  }

  predicate NoRepeats(list: seq<nat>) {
    forall i, j | 0 <= i < j < |list| :: list[i] != list[j]
  }

  predicate OpenFor(s: State, ch: nat, name: string) {
    ch in s.chans && !s.chans[ch].closed && s.chans[ch].name == name
  }

  /** The channels that sendStop has left are open, and are the registered ones of its name until
      it deletes the name. */
  predicate LeftOk(s: State) {
    s.loop.Sending? ==>
      && (forall ch | ch in s.loop.left :: OpenFor(s, ch, s.loop.name))
      && NoRepeats(s.loop.left)
      && (s.loop.name in s.subscribers ==> s.subscribers[s.loop.name] == s.loop.left)
  }

  /** The mutex is held exactly inside sendStop and from the range over the subscribed names on,
      where sendStop never gets it. A pass stops only names that it must. */
  predicate PhaseOk(s: State) {
    match s.loop
    case Resting => !s.locked
    case Ranging(_, todo) => !s.locked && todo <= s.entries.Keys
    case LoadFailed => !s.locked
    case RangingSubscribed(todo) => s.locked && todo == s.subscribers.Keys
    case Locking(name, ToEntries(infos, todo)) =>
      !s.locked && todo <= s.entries.Keys && MustStop(s.entries, infos, name)
    case Locking(name, ToSubscribed(_)) => s.locked
    case Sending(name, _, _, ToEntries(infos, todo)) =>
      s.locked && todo <= s.entries.Keys && MustStop(s.entries, infos, name)
    case Sending(_, _, _, ToSubscribed(_)) => false
  }

  /** What a subscriber can have received: Go, Stop and then only closings, or the same
      without the Go, or a beginning of either. */
  predicate IsStream(seen: seq<Event>) {
    forall i | 0 <= i < |seen| :: InPlace(seen, i)
  }

  predicate InPlace(seen: seq<Event>, i: nat)
    requires i < |seen|
  {
    match seen[i]
    case Got(Go) => i == 0
    case Got(Stop) => i == 0 || (i == 1 && seen[0] == Got(Go))
    case SawClosed => i > 0 && seen[i - 1] != Got(Go)
  }

  /** Nothing but the first Go has gone through the channel. */
  predicate Untouched(c: Chan) {
    !c.closed && c.born == Go && ((c.slot == Full(Go) && c.seen == []) || (c.slot == Empty && c.seen == [Got(Go)]))
  }

  /** Stop has been sent and nothing after it. */
  predicate StopSent(c: Chan) {
    || (c.slot == Full(Stop) && (c.seen == [] || c.seen == [Got(Go)]))
    || (c.slot == Empty && c.seen != [] && c.seen[|c.seen| - 1] != Got(Go))
  }

  predicate ChanOk(c: Chan) {
    IsStream(c.seen) && if c.closed then StopSent(c) else Untouched(c)
  }

  /** The channel that sendStop is working on. */
  predicate HeadOk(c: Chan, op: Op) {
    && IsStream(c.seen) && !c.closed && c.born == Go
    && match op
       case Try => Untouched(c) || (c.slot == Empty && c.seen == [])
       case Drain => Untouched(c)
       case Close => StopSent(c) && (c.slot == Empty ==> c.seen[|c.seen| - 1] == Got(Stop))
  }

  predicate IsHead(s: State, ch: nat) {
    s.loop.Sending? && s.loop.left != [] && ch == s.loop.left[0]
  }

  predicate ChanAt(s: State, ch: nat)
    requires ch in s.chans
  {
    if IsHead(s, ch) then HeadOk(s.chans[ch], s.loop.op) else ChanOk(s.chans[ch])
  }

  predicate ChansOk(s: State) {
    forall ch | ch in s.chans :: ChanAt(s, ch)
  }

  /** No channel is dropped: a subscription that was on go is stopped, cancelled, registered, or
      about to be stopped. */
  predicate Accounted(s: State) {
    forall ch | ch in s.chans && s.chans[ch].born == Go ::
      || s.chans[ch].closed || ch in s.cancelled || ch in Subscribers(s, s.chans[ch].name)
      || (s.loop.Sending? && ch in s.loop.left)
  }

  predicate Safe(s: State) {
    RegistryOk(s) && LeftOk(s) && PhaseOk(s) && ChansOk(s) && Accounted(s) && !s.badSend
  }

  lemma {:induction false} OthersMembers(list: seq<nat>, ch: nat)
    requires NoRepeats(list)
    ensures NoRepeats(Others(list, ch))
    ensures forall c :: c in Others(list, ch) <==> c in list && c != ch
  {
    if list != [] {
      var front, last := list[..|list| - 1], list[|list| - 1];
      OthersMembers(front, ch);
      assert list == front + [last] && last !in front;
    }
  }

  lemma AppendNoRepeats(list: seq<nat>, ch: nat)
    requires NoRepeats(list) && ch !in list
    ensures NoRepeats(list + [ch])
  {
  }

  /** Only the channel itself is taken out, and the rest stay in order. */
  lemma {:induction false} OthersContent(list: seq<nat>, ch: nat)
    requires NoRepeats(list)
    ensures ch !in list ==> Others(list, ch) == list
    ensures forall i | 0 <= i < |list| && list[i] == ch :: Others(list, ch) == list[..i] + list[i + 1..]
  {
    if list != [] {
      var front, last := list[..|list| - 1], list[|list| - 1];
      OthersContent(front, ch);
      assert list == front + [last];
      forall i | 0 <= i < |list| && list[i] == ch ensures Others(list, ch) == list[..i] + list[i + 1..] {
        if i < |front| {
          assert front[i] == ch;
          assert front[..i] == list[..i] && front[i + 1..] + [last] == list[i + 1..];
        } else {
          assert front == list[..i] && list[i + 1..] == [];
        }
      }
    }
  }

  lemma ReceivedOk(c: Chan)
    requires ChanOk(c) && CanReceive(c)
    ensures ChanOk(Received(c))
  {
    var d := Received(c);
    assert d.seen[..|c.seen|] == c.seen;
    forall i | 0 <= i < |d.seen| ensures InPlace(d.seen, i) {
      if i < |c.seen| {
        assert InPlace(c.seen, i);
      }
    }
  }

  lemma HeadReceivedOk(c: Chan, op: Op)
    requires HeadOk(c, op) && CanReceive(c)
    ensures HeadOk(Received(c), op)
  {
    var d := Received(c);
    assert d.seen[..|c.seen|] == c.seen;
    forall i | 0 <= i < |d.seen| ensures InPlace(d.seen, i) {
      if i < |c.seen| {
        assert InPlace(c.seen, i);
      }
    }
  }

  lemma ReceivingSafe(s: State, ch: nat)
    requires Safe(s) && Enabled(s, Receiving(ch))
    ensures Safe(Do(s, Receiving(ch)))
  {
    hide ChanOk, HeadOk, NoRepeats;
    var t := Do(s, Receiving(ch));
    assert ChanAt(s, ch);
    if IsHead(s, ch) {
      HeadReceivedOk(s.chans[ch], s.loop.op);
    } else {
      ReceivedOk(s.chans[ch]);
    }
    forall c | c in t.chans ensures ChanAt(t, c) {
      assert ChanAt(s, c);
    }
  }

  lemma NewChanSafe(s: State, name: string)
    requires Safe(s)
    ensures Safe(NewChan(s, name, Stop))
  {
    var t := NewChan(s, name, Stop);
    assert ChanOk(t.chans[s.next]);
    assert s.loop.Sending? && s.loop.left != [] ==> s.loop.left[0] in s.loop.left;
    hide ChanOk, HeadOk, NoRepeats;
    forall c | c in t.chans ensures ChanAt(t, c) {
      if c in s.chans {
        assert ChanAt(s, c);
      }
    }
  }

  lemma RegisterSafe(s: State, name: string)
    requires Safe(s) && Enabled(s, Register(name))
    ensures Safe(Do(s, Register(name)))
  {
    var t := Do(s, Register(name));
    assert ChanOk(t.chans[s.next]);
    assert forall ch | ch in Subscribers(s, name) :: OpenFor(s, ch, name) && ch != s.next;
    AppendNoRepeats(Subscribers(s, name), s.next);
    hide ChanOk, HeadOk, NoRepeats;
    forall c | c in t.chans ensures ChanAt(t, c) {
      if c in s.chans {
        assert ChanAt(s, c);
      }
    }
  }

  lemma SameChansOk(s: State, t: State)
    requires ChansOk(s) && t.chans == s.chans && t.loop == s.loop
    ensures ChansOk(t)
  {
    hide ChanOk, HeadOk;
    forall ch | ch in t.chans ensures ChanAt(t, ch) {
      assert ChanAt(s, ch);
    }
  }

  lemma CancellingSafe(s: State, ch: nat)
    requires Safe(s) && Enabled(s, Cancelling(ch))
    ensures Safe(Do(s, Cancelling(ch)))
  {
    var t := Do(s, Cancelling(ch));
    OthersMembers(Subscribers(s, s.chans[ch].name), ch);
    SameChansOk(s, t);
    hide ChansOk, NoRepeats, Others;
  }

  lemma LockSafe(s: State)
    requires Safe(s) && Enabled(s, Lock)
    ensures Safe(Do(s, Lock))
  {
    LockChans(s);
    hide ChansOk, NoRepeats;
  }

  lemma LockChans(s: State)
    requires Safe(s) && Enabled(s, Lock)
    ensures ChansOk(Do(s, Lock))
  {
    var t := Do(s, Lock);
    hide IsStream, NoRepeats, Accounted;
    forall c | c in t.chans ensures ChanAt(t, c) {
      assert ChanAt(s, c);
      if IsHead(t, c) {
        assert c in t.loop.left && OpenFor(s, c, t.loop.name);
      }
    }
  }

  lemma TryOrDrainSafe(s: State)
    requires Safe(s) && Enabled(s, Send) && s.loop.op != Close
    ensures Safe(Do(s, Send))
  {
    TryOrDrainChans(s);
    assert s.loop.left[0] in s.loop.left;
    hide ChansOk, NoRepeats;
  }

  lemma TryOrDrainChans(s: State)
    requires Safe(s) && Enabled(s, Send) && s.loop.op != Close
    ensures ChansOk(Do(s, Send))
  {
    var t := Do(s, Send);
    assert s.loop.left[0] in s.loop.left;
    hide IsStream, NoRepeats, Accounted, RegistryOk;
    forall c | c in t.chans ensures ChanAt(t, c) {
      assert ChanAt(s, c);
    }
  }

  lemma CloseAccounts(s: State)
    requires Safe(s) && Enabled(s, Send) && s.loop.op == Close
    ensures Accounted(Do(s, Send))
  {
    var t := Do(s, Send);
    assert s.loop.left == [s.loop.left[0]] + t.loop.left;
    hide ChansOk, PhaseOk, NoRepeats, OpenFor;
    forall c | c in t.chans && t.chans[c].born == Go && !t.chans[c].closed
      ensures c in t.cancelled || c in Subscribers(t, t.chans[c].name) || c in t.loop.left
    {
      assert s.chans[c].born == Go && !s.chans[c].closed;
      if c in Subscribers(s, s.chans[c].name) && s.chans[c].name == s.loop.name {
        assert c in s.loop.left;
      }
    }
  }

  lemma CloseLeaves(s: State)
    requires RegistryOk(s) && LeftOk(s) && Enabled(s, Send) && s.loop.op == Close
    ensures RegistryOk(Do(s, Send)) && LeftOk(Do(s, Send))
  {
    var t := Do(s, Send);
    var ch := s.loop.left[0];
    assert ch in s.loop.left && s.loop.left == [ch] + t.loop.left;
    assert NoRepeats(t.loop.left) && ch !in t.loop.left;
    hide NoRepeats;
    forall c | c in t.loop.left ensures OpenFor(t, c, t.loop.name) {
      assert c in s.loop.left;
    }
    forall other, c | other in t.subscribers && c in t.subscribers[other] ensures OpenFor(t, c, other) {
      assert OpenFor(s, c, other);
    }
  }

  lemma CloseSafe(s: State)
    requires Safe(s) && Enabled(s, Send) && s.loop.op == Close
    ensures Safe(Do(s, Send))
  {
    CloseAccounts(s);
    CloseLeaves(s);
    CloseChans(s);
    hide RegistryOk, LeftOk, ChansOk, Accounted;
  }

  lemma CloseChans(s: State)
    requires Safe(s) && Enabled(s, Send) && s.loop.op == Close
    ensures ChansOk(Do(s, Send))
  {
    var t := Do(s, Send);
    assert s.loop.left[0] in s.loop.left && s.loop.left == [s.loop.left[0]] + t.loop.left;
    assert t.loop.left != [] ==> t.loop.left[0] in s.loop.left && t.loop.left[0] != s.loop.left[0] by {
      assert t.loop.left != [] ==> t.loop.left[0] == s.loop.left[1];
    }
    hide IsStream, NoRepeats, Accounted, RegistryOk;
    forall c | c in t.chans ensures ChanAt(t, c) {
      assert ChanAt(s, c);
    }
  }

  /** A step that changes no channel, and whose list of channels left is empty before and after. */
  lemma QuietSafe(s: State, t: State)
    requires Safe(s) && PhaseOk(t)
    requires t == s.(entries := t.entries, locked := t.locked, loop := t.loop)
    requires (s.loop.Sending? ==> s.loop.left == []) && !t.loop.Sending?
    ensures Safe(t)
  {
    hide ChanOk, HeadOk, NoRepeats, PhaseOk;
    forall c | c in t.chans ensures ChanAt(t, c) {
      assert ChanAt(s, c);
    }
  }

  lemma RangeSafe(s: State, step: Step)
    requires Safe(s) && Enabled(s, step)
    requires step.Read? || step.Visit? || step.EndRange? || step.Unlock?
    ensures Safe(Do(s, step))
  {
    hide RegistryOk, LeftOk, ChansOk, Accounted;
    QuietSafe(s, Do(s, step));
  }

  lemma StepSafe(s: State, step: Step)
    requires Safe(s) && Enabled(s, step)
    ensures Safe(Do(s, step))
  {
    hide Safe, NewChan, RegisterFor, Cancelled, AfterSend, AfterLock;
    match step
    case Ask(name) => NewChanSafe(s, name); AskingSafe(s, name);
    case Register(name) => RegisterSafe(s, name);
    case Cancelling(ch) => CancellingSafe(s, ch);
    case Receiving(ch) => ReceivingSafe(s, ch);
    case Lock => LockSafe(s);
    case Send =>
      if s.loop.op == Close { CloseSafe(s); } else { TryOrDrainSafe(s); }
    case _ => RangeSafe(s, step);
  }

  lemma AskingSafe(s: State, name: string)
    requires Safe(s)
    ensures Safe(s.(asking := s.asking + multiset{name}))
  {
    SameChansOk(s, s.(asking := s.asking + multiset{name}));
    hide ChansOk, NoRepeats;
  }

  lemma StartSafe(infos: map<string, Status>)
    ensures Safe(Start(infos))
  {
  }

  lemma {:induction false} EveryRunSafe(s: State, steps: seq<Step>)
    requires Safe(s) && Runs(s, steps)
    ensures Safe(After(s, steps))
  {
    hide Safe, Enabled, Do;
    if steps != [] {
      EveryRunSafe(s, steps[..|steps| - 1]);
      StepSafe(After(s, steps[..|steps| - 1]), steps[|steps| - 1]);
    }
  }

  /** In every run, whatever the loads give and however receivers, subscribers, cancels and the
      loop interleave, each subscriber sees a beginning of Go, Stop, closed or of Stop, closed,
      and nothing has been sent on, or has closed, a closed channel, nor is about to be. */
  lemma SubscriberStreams(infos: map<string, Status>, steps: seq<Step>)
    requires Runs(Start(infos), steps)
    ensures var s := After(Start(infos), steps);
            && !s.badSend && (forall ch | ch in s.chans :: IsStream(s.chans[ch].seen))
            && (s.loop.Sending? && s.loop.left != [] ==>
                  s.loop.left[0] in s.chans && !s.chans[s.loop.left[0]].closed)
  {
    StartSafe(infos);
    EveryRunSafe(Start(infos), steps);
    var s := After(Start(infos), steps);
    assert s.loop.Sending? && s.loop.left != [] ==> s.loop.left[0] in s.loop.left;
    forall ch | ch in s.chans ensures IsStream(s.chans[ch].seen) {
      assert ChanAt(s, ch);
    }
  }

  /** A subscriber to a name that is not on go gets Stop first, and then the closing. */
  lemma RefusedGetsStop(s: State, name: string)
    requires Safe(s) && !s.crashed && !IsGo(s.entries, name)
    ensures var t := Do(s, Ask(name));
            && t == s.(chans := t.chans, next := t.next)
            && Enabled(t, Receiving(s.next))
            && var u := Do(t, Receiving(s.next));
               u.chans[s.next].seen == [Got(Stop)] && Enabled(u, Receiving(s.next))
               && Do(u, Receiving(s.next)).chans[s.next].seen == [Got(Stop), SawClosed]
  {
    hide Safe, IsGo;
  }

  /** One that was let through is registered last, and gets Go on a channel that stays open. */
  lemma RegisteredGetsGo(s: State, name: string)
    requires Safe(s) && Enabled(s, Register(name))
    ensures var t := Do(s, Register(name));
            && Subscribers(t, name) == Subscribers(s, name) + [s.next]
            && (forall other | other != name :: Subscribers(t, other) == Subscribers(s, other))
            && Enabled(t, Receiving(s.next))
            && var u := Do(t, Receiving(s.next));
               u.chans[s.next].seen == [Got(Go)] && !Enabled(u, Receiving(s.next))
  {
    hide Safe;
  }

  /** Whoever was stopped has received Stop or does so with the next receive. */
  lemma StopIsReceived(s: State, ch: nat)
    requires Safe(s) && !s.crashed && ch in s.chans && s.chans[ch].closed
    ensures || Got(Stop) in s.chans[ch].seen
            || (Enabled(s, Receiving(ch)) && Got(Stop) in Do(s, Receiving(ch)).chans[ch].seen)
  {
    assert ChanAt(s, ch);
    assert s.loop.Sending? && s.loop.left != [] ==> s.loop.left[0] in s.loop.left;
    hide RegistryOk, Accounted, PhaseOk;
    var c := s.chans[ch];
    if c.slot == Full(Stop) {
      assert Received(c).seen[|c.seen|] == Got(Stop);
    } else {
      StopIsSeen(c.seen, |c.seen| - 1);
    }
  }

  lemma {:induction false} StopIsSeen(seen: seq<Event>, i: nat)
    requires IsStream(seen) && i < |seen| && seen[i] != Got(Go)
    ensures Got(Stop) in seen
  {
    assert InPlace(seen, i);
    if seen[i].SawClosed? {
      StopIsSeen(seen, i - 1);
    }
  }

  // ---- Cancel ----

  /** A cancel panics exactly when no subscriber to its name remains, as after a stop. When it
      does not, it takes out its own channel only and keeps the order of the rest. */
  lemma CancelPanicsIffNoneRemain(s: State, ch: nat)
    requires Safe(s) && Enabled(s, Cancelling(ch)) && s.chans[ch].born == Go
    ensures var t, name := Do(s, Cancelling(ch)), s.chans[ch].name;
            var list, rest := Subscribers(s, name), Subscribers(t, name);
            && (t.crashed <==> list == [])
            && (!t.crashed ==>
                  if ch in list then exists i :: 0 <= i < |list| && list[i] == ch && rest == list[..i] + list[i + 1..]
                  else rest == list)
            && (forall other | other != name :: Subscribers(t, other) == Subscribers(s, other))
            && t.chans == s.chans && t.entries == s.entries && t.loop == s.loop
  {
    var list := Subscribers(s, s.chans[ch].name);
    OthersContent(list, ch);
    hide Safe, NoRepeats, Others;
    if ch in list {
      var i :| 0 <= i < |list| && list[i] == ch;
      assert Others(list, ch) == list[..i] + list[i + 1..];
    }
  }

  /** Right after sendStop no subscriber to its name can cancel. */
  lemma CancelAfterStopPanics(s: State, ch: nat)
    requires Safe(s) && Enabled(s, Unlock) && ch in s.chans && s.chans[ch].born == Go
    requires s.chans[ch].name == s.loop.name
    ensures var t := Do(s, Unlock);
            Enabled(t, Cancelling(ch)) && Do(t, Cancelling(ch)).crashed
  {
    hide RegistryOk, ChansOk, Accounted;
  }
}
