/** The queues between the two stream threads and the server, as a machine whose steps are what the
    threads do in one go: a critical section, a flag set or a notification sent outside the lock, and
    the two halves of waiting on the condition. Every interleaving is a sequence of steps. */
module TransportQueues {
  import opened Wrappers
  import opened JsonText
  import opened JsonFraming

  type Consumer = nat

  /** Where a caller of get() stands: past the first test of the flags, past the first look into the
      inbox, holding the lock with the condition found false, asleep, or woken up. */
  datatype Phase = Idle | Entered | Missed | Tested | Blocked | Notified

  datatype State = State(
    inbox: seq<Json>,
    outbox: seq<Json>,
    output: string,
    closed: bool,
    aborted: bool,
    useEndl: bool,
    phases: map<Consumer, Phase>,
    holder: Option<Consumer>,     // who keeps the receiving lock between two steps
    owed: nat,                    // notifications announced by a change and not sent yet
    // history
    received: seq<Json>,
    delivered: seq<(Consumer, Json)>,
    sent: seq<Json>)
  {
    predicate IsClosed() {
      closed || aborted
    }

    function PhaseOf(c: Consumer): Phase {
      if c in phases then phases[c] else Idle
    }
  }

  datatype Action =
    | Receive(message: Json)      // the poller queues what it captured, under the lock
    | EndOfInput                  // the poller stops and sets its flag, without the lock
    | Close                       // close() and abort() set their flags, without the lock
    | Abort
    | Notify                      // the notification that follows each of these, without the lock
    | Enter(c: Consumer)          // get(): the first test
    | TryPop(c: Consumer)         // get(): the first critical section
    | Test(c: Consumer)           // get(): the lock is taken and the condition evaluated
    | Block(c: Consumer)          // get(): the lock is released and the thread put to sleep
    | Spurious(c: Consumer)       // a thread may wake up without a notification
    | Send(message: Json)
    | Flush                       // one round of the outbox thread

  function Initial(useEndl: bool): State {
    State([], [], "", false, false, useEndl, map[], None, 0, [], [], [])
  }

  predicate IsEmpty(j: Json) {
    j == Obj(NoField) || j == Arr(NoElem) || j == Null
  }

  predicate Enabled(s: State, a: Action) {
    match a
    case Receive(_) => s.holder.None?
    case Notify => s.owed > 0
    case Enter(c) => s.PhaseOf(c).Idle?
    case TryPop(c) => s.PhaseOf(c).Entered? && s.holder.None?
    case Test(c) => (s.PhaseOf(c).Missed? || s.PhaseOf(c).Notified?) && s.holder.None?
    case Block(c) => s.PhaseOf(c).Tested?
    case Spurious(c) => s.PhaseOf(c).Blocked?
    case _ => true
  }

  function Moved(s: State, c: Consumer, p: Phase): State {
    s.(phases := s.phases[c := p])
  }

  function Deliver(s: State, c: Consumer): State
    requires s.inbox != []
  {
    Moved(s, c, Idle).(inbox := s.inbox[1..], delivered := s.delivered + [(c, s.inbox[0])])
  }

  /** notify_all: every sleeper wakes up, and nobody else notices. */
  function Woken(phases: map<Consumer, Phase>): map<Consumer, Phase> {
    map c | c in phases :: if phases[c].Blocked? then Notified else phases[c]
  }

  /** One step. Reading the front of the inbox is guarded exactly as in the code. */
  function Step(s: State, a: Action): State
    requires Enabled(s, a)
  {
    match a
    case Receive(m) => if IsEmpty(m) then s else s.(inbox := s.inbox + [m], received := s.received + [m], owed := s.owed + 1)
    case EndOfInput => s.(closed := true, owed := s.owed + 1)
    case Close => s.(closed := true, owed := s.owed + 1)
    case Abort => s.(aborted := true, owed := s.owed + 1)
    case Notify => s.(phases := Woken(s.phases), owed := s.owed - 1)
    case Enter(c) => if s.IsClosed() then s else Moved(s, c, Entered)
    case TryPop(c) => if s.inbox != [] then Deliver(s, c) else Moved(s, c, Missed)
    case Test(c) =>
      if s.IsClosed() then Moved(s, c, Idle)
      else if s.inbox != [] then Deliver(s, c)
      else Moved(s, c, Tested).(holder := Some(c))
    case Block(c) => Moved(s, c, Blocked).(holder := None)
    case Spurious(c) => Moved(s, c, Notified)
    case Send(m) => s.(outbox := s.outbox + [m], sent := s.sent + [m])
    case Flush =>
      if s.outbox == [] then s
      else s.(output := s.output + Frame(Dump(s.outbox[0]), s.useEndl), outbox := s.outbox[1..])
  }

  predicate Allowed(s: State, run: seq<Action>)
    decreases |run|
  {
    run == [] || (Enabled(s, run[0]) && Allowed(Step(s, run[0]), run[1..]))
  }

  function After(s: State, run: seq<Action>): State
    requires Allowed(s, run)
    decreases |run|
  {
    if run == [] then s else After(Step(s, run[0]), run[1..])
  }

  function Messages(deliveries: seq<(Consumer, Json)>): seq<Json> {
    seq(|deliveries|, i requires 0 <= i < |deliveries| => deliveries[i].1)
  }

  function Printed(s: State): seq<Json>
    requires |s.outbox| <= |s.sent|
  {
    s.sent[..|s.sent| - |s.outbox|]
  }

  /** Nothing is lost, invented or reordered, on either side. */
  predicate Conserved(s: State) {
    && Messages(s.delivered) + s.inbox == s.received
    && (forall i :: 0 <= i < |s.received| ==> !IsEmpty(s.received[i]))
    && |s.outbox| <= |s.sent|
    && s.sent == Printed(s) + s.outbox
    && s.output == Frames(Printed(s), s.useEndl)
  }

  lemma DeliverConserves(s: State, c: Consumer)
    requires Conserved(s) && s.inbox != []
    ensures Conserved(Deliver(s, c))
  {
    var d := s.delivered + [(c, s.inbox[0])];
    assert Messages(d) == Messages(s.delivered) + [s.inbox[0]];
    assert Messages(d) + s.inbox[1..] == Messages(s.delivered) + s.inbox;
  }

  lemma OnePrinted(sent: seq<Json>, outbox: seq<Json>)
    requires outbox != [] && |outbox| <= |sent| && sent == sent[..|sent| - |outbox|] + outbox
    ensures var n := |sent| - |outbox|;
      sent[..n + 1] == sent[..n] + [outbox[0]] && sent == sent[..n + 1] + outbox[1..]
  {
    assert sent[|sent| - |outbox|] == outbox[0];
  }

  lemma FlushConserves(s: State)
    requires Conserved(s) && s.outbox != []
    ensures Conserved(Step(s, Flush))
  {
    var t := Step(s, Flush);
    OnePrinted(s.sent, s.outbox);
    FramesSnoc(Printed(s), s.outbox[0], s.useEndl);
  }

  lemma StepConserves(s: State, a: Action)
    requires Conserved(s) && Enabled(s, a)
    ensures Conserved(Step(s, a))
  {
    match a
    case Receive(m) =>
      assert Messages(s.delivered) + (s.inbox + [m]) == (Messages(s.delivered) + s.inbox) + [m];
    case TryPop(c) => if s.inbox != [] { DeliverConserves(s, c); }
    case Test(c) => if !s.IsClosed() && s.inbox != [] { DeliverConserves(s, c); }
    case Send(m) =>
      assert Printed(Step(s, a)) == Printed(s);
    case Flush => if s.outbox != [] { FlushConserves(s); }
    case _ =>
  }

  /** What the poller captured and did not throw away as empty, in the order of the run. */
  function ReceivedBy(run: seq<Action>): seq<Json> {
    if run == [] then []
    else (if run[0].Receive? && !IsEmpty(run[0].message) then [run[0].message] else []) + ReceivedBy(run[1..])
  }

  /** What the senders handed over, in the order of the run. */
  function SentBy(run: seq<Action>): seq<Json> {
    if run == [] then [] else (if run[0].Send? then [run[0].message] else []) + SentBy(run[1..])
  }

  lemma PrintsSomething(j: Json)
    requires NumbersOk(j)
    ensures Dump(j) != ""
  {
  }

  /** Empty values are those that print as null, {} or []. */
  lemma EmptyExactly(j: Json)
    requires NumbersOk(j)
    ensures IsEmpty(j) <==> Dump(j) == "null" || Dump(j) == "{}" || Dump(j) == "[]"
  {
    match j
    case Number(literal) => assert NumberChar(literal[0]) && !NumberChar('n') && !NumberChar('{') && !NumberChar('[');
    case Str(s) => assert Dump(j)[0] == '"';
    case Arr(elems) =>
      assert Dump(j)[0] == '[';
      if elems.Elem? {
        PrintsSomething(elems.head);
        assert |DumpElems(elems)| >= 1 && |Dump(j)| >= 3;
      }
    case Obj(fields) => if fields.Field? { assert |Literal(fields.key)| >= 2; }
    case Bool(b) => assert Dump(j)[0] == if b then 't' else 'f';
    case Null =>
  }

  lemma HistoryStep(s: State, a: Action)
    requires Enabled(s, a)
    ensures Step(s, a).received == s.received + (if a.Receive? && !IsEmpty(a.message) then [a.message] else [])
    ensures Step(s, a).sent == s.sent + (if a.Send? then [a.message] else [])
  {
    assert s.received + [] == s.received && s.sent + [] == s.sent;
  }

  /** Over every run, what was captured is received, and what was handed over is sent, in order. */
  lemma {:induction false} HistoryExactly(s: State, run: seq<Action>)
    requires Allowed(s, run)
    ensures After(s, run).received == s.received + ReceivedBy(run)
    ensures After(s, run).sent == s.sent + SentBy(run)
    decreases |run|
  {
    if run == [] {
      assert s.received + [] == s.received && s.sent + [] == s.sent;
    } else {
      var a := run[0];
      HistoryStep(s, a);
      HistoryExactly(Step(s, a), run[1..]);
      InOrder(s.received, if a.Receive? && !IsEmpty(a.message) then [a.message] else [], ReceivedBy(run[1..]));
      InOrder(s.sent, if a.Send? then [a.message] else [], SentBy(run[1..]));
    }
  }

  lemma InOrder(a: seq<Json>, b: seq<Json>, c: seq<Json>)
    ensures (a + b) + c == a + (b + c)
  {
  }

  /** Over every interleaving: what was delivered, followed by the inbox, is what was captured; what is
      printed, followed by the outbox, is what was handed over. */
  lemma {:induction false} RunConserves(s: State, run: seq<Action>)
    requires Conserved(s) && Allowed(s, run)
    ensures var u := After(s, run);
      && Conserved(u) && Messages(u.delivered) + u.inbox == s.received + ReceivedBy(run)
      && Printed(u) + u.outbox == s.sent + SentBy(run)
    decreases |run|
  {
    HistoryExactly(s, run);
    RunKeepsConserved(s, run);
  }

  lemma {:induction false} RunKeepsConserved(s: State, run: seq<Action>)
    requires Conserved(s) && Allowed(s, run)
    ensures Conserved(After(s, run))
    decreases |run|
  {
    if run != [] {
      StepConserves(s, run[0]);
      RunKeepsConserved(Step(s, run[0]), run[1..]);
    }
  }

  /** The changes that are announced to the sleepers. */
  function Announcements(run: seq<Action>): nat {
    if run == [] then 0
    else
      (match run[0]
       case Receive(m) => if IsEmpty(m) then 0 else 1
       case EndOfInput => 1
       case Close => 1
       case Abort => 1
       case _ => 0)
      + Announcements(run[1..])
  }

  function Notifications(run: seq<Action>): nat {
    if run == [] then 0 else (if run[0] == Notify then 1 else 0) + Notifications(run[1..])
  }

  /** Every change is announced by one notification. */
  lemma {:induction false} NotifiedExactly(s: State, run: seq<Action>)
    requires Allowed(s, run)
    ensures After(s, run).owed + Notifications(run) == s.owed + Announcements(run)
    decreases |run|
  {
    if run != [] {
      NotifiedExactly(Step(s, run[0]), run[1..]);
    }
  }

  /** The flags say who closed the medium. */
  lemma {:induction false} ClosedExactly(s: State, run: seq<Action>)
    requires Allowed(s, run)
    ensures After(s, run).closed <==> s.closed || Close in run || Action.EndOfInput in run
    ensures After(s, run).aborted <==> s.aborted || Abort in run
    decreases |run|
  {
    if run != [] {
      ClosedExactly(Step(s, run[0]), run[1..]);
      assert run == [run[0]] + run[1..];
    }
  }

  /** As many rounds of the outbox thread as there are messages print them all. */
  lemma {:induction false} FlushingEmptiesOutbox(s: State)
    ensures var run := seq(|s.outbox|, _ => Flush);
      Allowed(s, run) && After(s, run) == s.(outbox := [], output := s.output + Frames(s.outbox, s.useEndl))
    decreases |s.outbox|
  {
    var run := seq(|s.outbox|, _ => Flush);
    if s.outbox == [] {
      assert s.output + "" == s.output;
    } else {
      var t, frame := Step(s, Flush), Frame(Dump(s.outbox[0]), s.useEndl);
      FlushingEmptiesOutbox(t);
      assert run[1..] == seq(|t.outbox|, _ => Flush);
      Associative(s.output, frame, Frames(s.outbox[1..], s.useEndl));
    }
  }

  // ------------------------------------------------------- what get() returns

  /** A message that is there is handed over at once, the oldest first; closing in between does not
      matter. */
  lemma GetTakesOldest(s: State, c: Consumer, closing: seq<Action>)
    requires !s.IsClosed() && s.PhaseOf(c).Idle? && s.holder.None? && s.inbox != []
    requires closing == [] || closing == [Close] || closing == [Abort]
    ensures var run := [Enter(c)] + (closing + ([TryPop(c)] + []));
      && Allowed(s, run) && After(s, run).delivered == s.delivered + [(c, s.inbox[0])]
      && After(s, run).inbox == s.inbox[1..] && After(s, run).PhaseOf(c).Idle?
  {
    var t := Step(s, Enter(c));
    if closing == [] {
      OneStepMore(t, TryPop(c), []);
      assert closing + ([TryPop(c)] + []) == [TryPop(c)] + [];
    } else {
      OneStepMore(Step(t, closing[0]), TryPop(c), []);
      OneStepMore(t, closing[0], [TryPop(c)] + []);
      assert closing == [closing[0]];
    }
    OneStepMore(s, Enter(c), closing + ([TryPop(c)] + []));
  }

  /** From the first test of get() to the sleep. */
  function FallingAsleep(c: Consumer, more: seq<Action>): seq<Action> {
    [Enter(c)] + ([TryPop(c)] + ([Test(c)] + ([Block(c)] + more)))
  }

  lemma GetFallsAsleep(s: State, c: Consumer, more: seq<Action>)
    requires !s.IsClosed() && s.PhaseOf(c).Idle? && s.holder.None? && s.inbox == []
    requires Allowed(s.(phases := s.phases[c := Blocked]), more)
    ensures Allowed(s, FallingAsleep(c, more)) && After(s, FallingAsleep(c, more)) == After(s.(phases := s.phases[c := Blocked]), more)
  {
    var s1 := Step(s, Enter(c));
    var s2 := Step(s1, TryPop(c));
    var s3 := Step(s2, Test(c));
    assert Step(s3, Block(c)) == s.(phases := s.phases[c := Blocked]);
    OneStepMore(s3, Block(c), more);
    OneStepMore(s2, Test(c), [Block(c)] + more);
    OneStepMore(s1, TryPop(c), [Test(c)] + ([Block(c)] + more));
    OneStepMore(s, Enter(c), [TryPop(c)] + ([Test(c)] + ([Block(c)] + more)));
  }

  /** With nothing there the consumer sleeps, and the next message goes to it. */
  lemma GetWaitsForMessage(s: State, c: Consumer, m: Json)
    requires !s.IsClosed() && s.PhaseOf(c).Idle? && s.holder.None? && s.inbox == [] && s.owed == 0 && !IsEmpty(m)
    ensures var run := FallingAsleep(c, [Receive(m)] + ([Notify] + ([Test(c)] + [])));
      && Allowed(s, run) && After(s, run).delivered == s.delivered + [(c, m)]
      && After(s, run).inbox == [] && After(s, run).PhaseOf(c).Idle?
  {
    var s4 := s.(phases := s.phases[c := Blocked]);
    var s5 := Step(s4, Receive(m));
    OneStepMore(Step(s5, Notify), Test(c), []);
    OneStepMore(s5, Notify, [Test(c)] + []);
    OneStepMore(s4, Receive(m), [Notify] + ([Test(c)] + []));
    GetFallsAsleep(s, c, [Receive(m)] + ([Notify] + ([Test(c)] + [])));
  }

  /** A thread that wakes up by itself tests the condition and goes back to sleep. */
  lemma SpuriousWakeUp(s: State, c: Consumer)
    requires !s.IsClosed() && s.PhaseOf(c).Blocked? && s.holder.None? && s.inbox == []
    ensures var run := [Spurious(c)] + ([Test(c)] + ([Block(c)] + [])); Allowed(s, run) && After(s, run) == s
  {
    var s1 := Step(s, Spurious(c));
    var s2 := Step(s1, Test(c));
    assert Step(s2, Block(c)).phases == s.phases;
    OneStepMore(s2, Block(c), []);
    OneStepMore(s1, Test(c), [Block(c)] + []);
    OneStepMore(s, Spurious(c), [Test(c)] + ([Block(c)] + []));
  }

  /** A consumer that has found nothing and then finds the medium closed comes back with nothing, even
      if a message has come in the meantime. */
  lemma ClosedGetIsEmpty(s: State, c: Consumer)
    requires s.IsClosed() && s.holder.None? && (s.PhaseOf(c).Missed? || s.PhaseOf(c).Notified?)
    ensures Enabled(s, Test(c)) && Step(s, Test(c)).PhaseOf(c).Idle?
    ensures Step(s, Test(c)).delivered == s.delivered && Step(s, Test(c)).inbox == s.inbox
  {
  }

  function DeliveredTo(deliveries: seq<(Consumer, Json)>, c: Consumer): nat {
    if deliveries == [] then 0
    else DeliveredTo(deliveries[..|deliveries| - 1], c) + (if deliveries[|deliveries| - 1].0 == c then 1 else 0)
  }

  lemma DeliveredSnoc(deliveries: seq<(Consumer, Json)>, c: Consumer, d: (Consumer, Json))
    ensures DeliveredTo(deliveries + [d], c) == DeliveredTo(deliveries, c) + (if d.0 == c then 1 else 0)
  {
    assert (deliveries + [d])[..|deliveries|] == deliveries;
  }

  lemma ClosedStep(s: State, a: Action, c: Consumer)
    requires s.IsClosed() && s.PhaseOf(c).Idle? && Enabled(s, a)
    ensures Step(s, a).IsClosed() && Step(s, a).PhaseOf(c).Idle?
    ensures DeliveredTo(Step(s, a).delivered, c) == DeliveredTo(s.delivered, c)
  {
    if a.TryPop? && s.inbox != [] {
      DeliveredSnoc(s.delivered, c, (a.c, s.inbox[0]));
    }
  }

  /** A get() begun after close() or abort() delivers nothing, whatever happens afterwards. */
  lemma {:induction false} NothingAfterClosing(s: State, run: seq<Action>, c: Consumer)
    requires s.IsClosed() && s.PhaseOf(c).Idle? && Allowed(s, run)
    ensures After(s, run).IsClosed() && After(s, run).PhaseOf(c).Idle?
    ensures DeliveredTo(After(s, run).delivered, c) == DeliveredTo(s.delivered, c)
    decreases |run|
  {
    if run != [] {
      ClosedStep(s, run[0], c);
      NothingAfterClosing(Step(s, run[0]), run[1..], c);
    }
  }

  // ------------------------------------------------------------- wake-ups

  /** The lock is kept by the consumer between its two halves of waiting, and then the inbox is empty;
      a sleeper with something in the inbox has a notification coming. */
  predicate WakeupOwed(s: State) {
    && (s.holder.Some? ==> s.PhaseOf(s.holder.value).Tested? && s.inbox == [])
    && (forall c :: c in s.phases && s.phases[c].Tested? ==> s.holder == Some(c))
    && (forall c :: c in s.phases && s.phases[c].Blocked? && s.inbox != [] ==> s.owed > 0)
  }

  lemma StepOwesWakeup(s: State, a: Action)
    requires WakeupOwed(s) && Enabled(s, a)
    ensures WakeupOwed(Step(s, a))
  {
  }

  /** Over every run no message is left with a sleeper that nobody will wake: messages are queued under
      the lock, so the condition cannot change between its test and the sleep. */
  lemma {:induction false} NoMessageIsSleptOn(s: State, run: seq<Action>)
    requires WakeupOwed(s) && Allowed(s, run)
    ensures WakeupOwed(After(s, run))
    decreases |run|
  {
    if run != [] {
      StepOwesWakeup(s, run[0]);
      NoMessageIsSleptOn(Step(s, run[0]), run[1..]);
    }
  }

  /** The medium is closed, the consumer sleeps, and no notification is coming. */
  predicate Asleep(s: State, c: Consumer) {
    s.IsClosed() && s.PhaseOf(c).Blocked? && s.owed == 0
  }

  /** Nothing that notifies, and no spurious wake-up. */
  predicate Quiet(a: Action) {
    !(a.Receive? || a.EndOfInput? || a.Close? || a.Abort? || a.Spurious?)
  }

  ghost predicate AllQuiet(run: seq<Action>) {
    forall i :: 0 <= i < |run| ==> Quiet(run[i])
  }

  lemma SleeperStep(s: State, a: Action, c: Consumer)
    requires s.IsClosed() && s.owed == 0 && Enabled(s, a) && Quiet(a)
    ensures Step(s, a).IsClosed() && Step(s, a).owed == 0
    ensures Step(s, a).PhaseOf(c).Blocked? <==> s.PhaseOf(c).Blocked? || (s.PhaseOf(c).Tested? && a == Block(c))
    ensures Step(s, a).PhaseOf(c).Tested? <==> s.PhaseOf(c).Tested? && a != Block(c)
  {
  }

  /** On a closed medium, once all notifications are sent, falling asleep takes a condition tested
      before. */
  lemma {:induction false} SleepersOfAClosedMedium(s: State, run: seq<Action>, c: Consumer)
    requires s.IsClosed() && s.owed == 0 && Allowed(s, run) && AllQuiet(run)
    ensures After(s, run).IsClosed() && After(s, run).owed == 0
    ensures After(s, run).PhaseOf(c).Blocked? <==> s.PhaseOf(c).Blocked? || (s.PhaseOf(c).Tested? && Block(c) in run)
    decreases |run|
  {
    if run != [] {
      assert Quiet(run[0]);
      SleeperStep(s, run[0], c);
      SleepersOfAClosedMedium(Step(s, run[0]), run[1..], c);
      assert run == [run[0]] + run[1..];
    }
  }

  /** Closing leaves a waiter asleep exactly when the last notification came between its test of the
      condition and its sleep; this happens to one waiter at most. */
  lemma AsleepExactly(s: State, run: seq<Action>, c: Consumer)
    requires WakeupOwed(s) && s.IsClosed() && s.owed == 1
    requires Allowed(Step(s, Notify), run) && AllQuiet(run)
    ensures Asleep(After(Step(s, Notify), run), c) <==> s.PhaseOf(c).Tested? && Block(c) in run
    ensures forall d :: Asleep(After(Step(s, Notify), run), c) && Asleep(After(Step(s, Notify), run), d) ==> d == c
  {
    SleepersOfAClosedMedium(Step(s, Notify), run, c);
    forall d | Asleep(After(Step(s, Notify), run), c) && Asleep(After(Step(s, Notify), run), d) ensures d == c {
      SleepersOfAClosedMedium(Step(s, Notify), run, d);
    }
  }

  lemma OneStepMore(s: State, a: Action, run: seq<Action>)
    requires Enabled(s, a) && Allowed(Step(s, a), run)
    ensures Allowed(s, [a] + run) && After(s, [a] + run) == After(Step(s, a), run)
    ensures Quiet(a) && AllQuiet(run) ==> AllQuiet([a] + run)
  {
    assert ([a] + run)[1..] == run;
  }

  /** With the lock free, a consumer that does not sleep comes back from a closed medium. */
  lemma ReturnsUnlocked(s: State, c: Consumer) returns (run: seq<Action>)
    requires s.IsClosed() && s.holder.None? && !s.PhaseOf(c).Blocked? && !s.PhaseOf(c).Tested?
    ensures Allowed(s, run) && AllQuiet(run) && After(s, run).PhaseOf(c).Idle?
  {
    run := [];
    if s.PhaseOf(c).Entered? {
      var t := Step(s, TryPop(c));
      if t.PhaseOf(c).Missed? {
        OneStepMore(t, Test(c), []);
        run := [Test(c)] + [];
      }
      OneStepMore(s, TryPop(c), run);
      run := [TryPop(c)] + run;
    } else if !s.PhaseOf(c).Idle? {
      OneStepMore(s, Test(c), []);
      run := [Test(c)] + [];
    }
  }

  /** Everybody else can come back, without a further notification. */
  lemma OthersReturn(s: State, c: Consumer) returns (run: seq<Action>)
    requires WakeupOwed(s) && s.IsClosed() && !s.PhaseOf(c).Blocked? && !s.PhaseOf(c).Tested?
    ensures Allowed(s, run) && AllQuiet(run) && After(s, run).PhaseOf(c).Idle?
  {
    if s.holder.None? {
      run := ReturnsUnlocked(s, c);
    } else {
      var first := Block(s.holder.value);
      run := ReturnsUnlocked(Step(s, first), c);
      OneStepMore(s, first, run);
      run := [first] + run;
    }
  }

  /** Closing, with its notification, between the test of a consumer and its sleep. */
  function ClosingInBetween(c: Consumer): seq<Action> {
    [Close] + ([Notify] + ([Block(c)] + []))
  }

  lemma ClosedInBetween(s: State, c: Consumer)
    requires s.PhaseOf(c).Tested? && s.owed == 0
    ensures Allowed(s, ClosingInBetween(c)) && Asleep(After(s, ClosingInBetween(c)), c)
  {
    var t := Step(s, Close);
    OneStepMore(Step(t, Notify), Block(c), []);
    OneStepMore(t, Notify, [Block(c)] + []);
    OneStepMore(s, Close, [Notify] + ([Block(c)] + []));
  }

  /** Such an interleaving, from the start: a get() sleeps on a closed medium. */
  lemma LostNotification(c: Consumer)
    ensures var run := [Enter(c)] + ([TryPop(c)] + ([Test(c)] + ClosingInBetween(c)));
      Allowed(Initial(false), run) && Asleep(After(Initial(false), run), c)
  {
    var s0 := Initial(false);
    var s1 := Step(s0, Enter(c));
    var s2 := Step(s1, TryPop(c));
    var rest := ClosingInBetween(c);
    ClosedInBetween(Step(s2, Test(c)), c);
    OneStepMore(s2, Test(c), rest);
    OneStepMore(s1, TryPop(c), [Test(c)] + rest);
    OneStepMore(s0, Enter(c), [TryPop(c)] + ([Test(c)] + rest));
  }

  /** End to end: whatever the interleaving, a peer that reads the output back finds, in order,
      exactly the messages handed over and not waiting in the outbox. */
  lemma PeerReadsWhatWasSent(useEndl: bool, run: seq<Action>)
    requires Allowed(Initial(useEndl), run) && AllMessages(SentBy(run)) && Faithful(SentBy(run))
    ensures var s, all := After(Initial(useEndl), run), SentBy(run);
      && |s.outbox| <= |all| && s.outbox == all[|all| - |s.outbox|..]
      && ReadAll(s.output) == Texts(all[..|all| - |s.outbox|])
  {
    var s, all := After(Initial(useEndl), run), SentBy(run);
    RunConserves(Initial(useEndl), run);
    RunKeepsEndl(Initial(useEndl), run);
    assert [] + all == all;
    assert s.sent == all && Printed(s) == all[..|all| - |s.outbox|];
    FramingReadBackExactly(Printed(s), s.useEndl);
  }

  lemma {:induction false} RunKeepsEndl(s: State, run: seq<Action>)
    requires Allowed(s, run)
    ensures After(s, run).useEndl == s.useEndl
    decreases |run|
  {
    if run != [] {
      RunKeepsEndl(Step(s, run[0]), run[1..]);
    }
  }
}

/** The two stream threads, as they run on their own. */
module RpcTransport {
  import opened JsonText
  import opened JsonFraming

  /** What the poller queues: a captured message, or the exit request it makes up when the input ends. */
  datatype Incoming = FromClient(text: string) | ExitRequest

  /** The JSON parser, and how much of the unread input is buffered when it fails. */
  datatype Parser = Parser(accepts: string -> bool, isEmpty: string -> bool, buffered: string -> nat)

  datatype Reading = Message(text: string) | IllFormed | NoMore

  /** The input once what is buffered has been thrown away. */
  function Flushed(input: string, parser: Parser): (r: string)
    ensures |r| <= |input|
  {
    if parser.buffered(input) <= |input| then input[parser.buffered(input)..] else ""
  }

  /** One reading and the input it leaves. */
  function Read(input: string, parser: Parser): (Reading, string) {
    match GetJson(input)
    case EndOfInput => (NoMore, "")
    case Captured(text, rest) => if parser.accepts(text) then (Message(text), rest) else (IllFormed, Flushed(rest, parser))
  }

  /** The well-formed messages read until the input ends. */
  function ReadWellFormed(input: string, parser: Parser): seq<string>
    decreases |input|
  {
    match GetJson(input)
    case EndOfInput => []
    case Captured(text, rest) =>
      if parser.accepts(text) then [text] + ReadWellFormed(rest, parser)
      else ReadWellFormed(Flushed(rest, parser), parser)
  }

  /** What is still to be queued, before and after one reading. */
  lemma QueuedStep(input: string, parser: Parser)
    ensures var (r, rest) := Read(input, parser);
      && Queued(ReadWellFormed(input, parser), parser)
         == (if r.Message? && !parser.isEmpty(r.text) then [FromClient(r.text)] else [])
            + (if r.NoMore? then [] else Queued(ReadWellFormed(rest, parser), parser))
      && (r.NoMore? ==> rest == "") && (!r.NoMore? ==> |rest| < |input|)
  {
  }

  lemma QueuedAfter(inbox: seq<Incoming>, input: string, parser: Parser)
    ensures var (r, rest) := Read(input, parser);
      var more := inbox + Queued(ReadWellFormed(input, parser), parser);
      var next := if r.Message? && !parser.isEmpty(r.text) then inbox + [FromClient(r.text)] else inbox;
      if r.NoMore? then rest == "" && more == inbox
      else |rest| < |input| && next + Queued(ReadWellFormed(rest, parser), parser) == more
  {
    var (r, rest) := Read(input, parser);
    var first := if r.Message? && !parser.isEmpty(r.text) then [FromClient(r.text)] else [];
    var more := if r.NoMore? then [] else Queued(ReadWellFormed(rest, parser), parser);
    QueuedStep(input, parser);
    assert inbox + (first + more) == (inbox + first) + more;
    assert inbox + [] == inbox;
  }

  class RpcPipeTransport {
    var input: string     // what the client has written and the poller has not read
    var output: string
    var inbox: seq<Incoming>
    var outbox: seq<Json>
    var closed: bool
    var aborted: bool
    var useEndl: bool

    constructor (incoming: string)
      ensures input == incoming && output == "" && inbox == [] && outbox == []
      ensures !closed && !aborted && useEndl
    {
      input, output, inbox, outbox := incoming, "", [], [];
      closed, aborted, useEndl := false, false, true;
    }

    /** Reads the input character by character until a message is complete or the input ends. What is
        not well-formed is dropped, with everything buffered behind it. */
    method ReadJson(parser: Parser) returns (r: Reading)
      modifies this`input
      ensures (r, input) == Read(old(input), parser)
    {
      var buf := "";
      var jsonIdx := 0;
      var inString := false;
      var lastChar := 0 as char;
      var newChar := 0 as char;
      while input != ""
        invariant ScanFrom(Mode(jsonIdx, inString, newChar), buf, input) == GetJson(old(input))
        decreases |input|
      {
        lastChar := newChar;
        newChar := input[0];
        input := input[1..];
        buf := buf + [newChar];
        if jsonIdx == 0 {
          if !inString && lastChar == '\n' && newChar == '{' {
            jsonIdx := jsonIdx + 1;
            buf := [newChar];
          }
        } else {
          if newChar == '"' && lastChar != '\\' {
            inString := !inString;
          } else if !inString {
            if newChar == '{' {
              jsonIdx := jsonIdx + 1;
            } else if newChar == '}' {
              jsonIdx := jsonIdx - 1;
            }
          }
          if jsonIdx == 0 {
            if !parser.accepts(buf) {
              input := Flushed(input, parser);
              return IllFormed;
            }
            return Message(buf);
          }
        }
      }
      return NoMore;
    }

    /** The poller: every well-formed message is queued in order unless it is an empty value; the end
        of the input queues an exit request and closes the medium. */
    method PollInbox(parser: Parser)
      modifies this`input, this`inbox, this`closed
      ensures inbox == old(inbox) + Queued(ReadWellFormed(old(input), parser), parser) + [ExitRequest]
      ensures input == "" && closed
    {
      var eof := false;
      ghost var texts := ReadWellFormed(input, parser);
      while !eof
        invariant eof ==> input == "" && inbox == old(inbox) + Queued(texts, parser) + [ExitRequest]
        invariant !eof ==> inbox + Queued(ReadWellFormed(input, parser), parser) == old(inbox) + Queued(texts, parser)
        decreases !eof, |input|
      {
        QueuedAfter(inbox, input, parser);
        var r := ReadJson(parser);
        match r {
          case Message(text) =>
            if !parser.isEmpty(text) {
              inbox := inbox + [FromClient(text)];
            }
          case IllFormed =>
          case NoMore =>
            inbox := inbox + [ExitRequest];
            eof := true;
        }
      }
      closed := true;
    }

    /** The outbox thread, run until nothing is left to print. */
    method DrainOutbox()
      modifies this`output, this`outbox
      ensures output == old(output) + Frames(old(outbox), useEndl)
      ensures outbox == []
    {
      while outbox != []
        invariant output + Frames(outbox, useEndl) == old(output) + Frames(old(outbox), useEndl)
        decreases |outbox|
      {
        var frame := Frame(Dump(outbox[0]), useEndl);
        Associative(output, frame, Frames(outbox[1..], useEndl));
        output := output + frame;
        outbox := outbox[1..];
      }
    }
  }

  function Queued(texts: seq<string>, parser: Parser): seq<Incoming> {
    if texts == [] then []
    else (if parser.isEmpty(texts[0]) then [] else [FromClient(texts[0])]) + Queued(texts[1..], parser)
  }

  lemma {:induction false} QueuedAll(texts: seq<string>, parser: Parser)
    requires forall i :: 0 <= i < |texts| ==> !parser.isEmpty(texts[i])
    ensures Queued(texts, parser) == seq(|texts|, i requires 0 <= i < |texts| => FromClient(texts[i]))
  {
    if texts != [] {
      QueuedAll(texts[1..], parser);
    }
  }

  /** Exactly the empty texts are left out, wherever they stand. */
  lemma {:induction false} QueuedExactly(before: seq<string>, text: string, after: seq<string>, parser: Parser)
    ensures Queued(before + ([text] + after), parser)
         == Queued(before, parser) + ((if parser.isEmpty(text) then [] else [FromClient(text)]) + Queued(after, parser))
  {
    if before == [] {
      assert before + ([text] + after) == [text] + after && ([text] + after)[1..] == after;
    } else {
      assert (before + ([text] + after))[1..] == before[1..] + ([text] + after);
      QueuedExactly(before[1..], text, after, parser);
    }
  }

  /** When everything captured is well-formed, nothing is dropped. */
  lemma {:induction false} AllWellFormed(input: string, parser: Parser)
    requires forall i :: 0 <= i < |ReadAll(input)| ==> parser.accepts(ReadAll(input)[i])
    ensures ReadWellFormed(input, parser) == ReadAll(input)
    decreases |input|
  {
    if GetJson(input).Captured? {
      var text, rest := GetJson(input).text, GetJson(input).rest;
      assert ReadAll(input) == [text] + ReadAll(rest) && ReadAll(input)[0] == text;
      forall i | 0 <= i < |ReadAll(rest)| ensures parser.accepts(ReadAll(rest)[i]) {
        assert ReadAll(rest)[i] == ReadAll(input)[i + 1];
      }
      AllWellFormed(rest, parser);
    }
  }

  /** The parser knows the messages: it accepts their texts, and none is empty. */
  ghost predicate Knows(parser: Parser, messages: seq<Json>) {
    forall i :: 0 <= i < |messages| ==> parser.accepts(Dump(messages[i])) && !parser.isEmpty(Dump(messages[i]))
  }

  /** After an ill-formed text, wherever the flush cuts into the frames behind it, the messages of all
      frames that start behind the cut are read, in order and nothing else. */
  lemma RecoversFromIllFormed(input: string, bad: string, messages: seq<Json>, useEndl: bool, parser: Parser) returns (k: nat)
    requires AllMessages(messages) && Faithful(messages) && Knows(parser, messages)
    requires GetJson(input) == Captured(bad, Frames(messages, useEndl)) && !parser.accepts(bad)
    ensures k <= |messages| && ReadWellFormed(input, parser) == Texts(messages[k..])
    ensures k > 0 ==> |Frames(messages[..k - 1], useEndl)| < parser.buffered(Frames(messages, useEndl))
  {
    var rest := Frames(messages, useEndl);
    var n := if parser.buffered(rest) <= |rest| then parser.buffered(rest) else |rest|;
    k := ResumesAfterCut(messages, useEndl, n);
    assert rest[n..] == Flushed(rest, parser);
    forall i | 0 <= i < |Texts(messages[k..])| ensures parser.accepts(Texts(messages[k..])[i]) {
      assert messages[k..][i] == messages[k + i];
    }
    AllWellFormed(rest[n..], parser);
  }

  function Arrived(messages: seq<Json>): seq<Incoming> {
    seq(|messages|, i requires 0 <= i < |messages| => FromClient(Dump(messages[i])))
  }

  lemma FramesArrive(messages: seq<Json>, useEndl: bool, parser: Parser)
    requires AllMessages(messages) && Faithful(messages) && Knows(parser, messages)
    ensures Queued(ReadWellFormed(Frames(messages, useEndl), parser), parser) == Arrived(messages)
  {
    FramingReadBackExactly(messages, useEndl);
    AllWellFormed(Frames(messages, useEndl), parser);
    QueuedAll(Texts(messages), parser);
  }

  /** Two transports back to back: after the first has drained its outbox and the second has
      polled what was printed, the second's inbox holds the first's messages in order. */
  method Transfer(sender: RpcPipeTransport, parser: Parser) returns (receiver: RpcPipeTransport)
    requires sender.output == "" && AllMessages(sender.outbox) && Faithful(sender.outbox) && Knows(parser, sender.outbox)
    modifies sender
    ensures fresh(receiver)
    ensures receiver.inbox == Arrived(old(sender.outbox)) + [ExitRequest]
    ensures sender.outbox == []
  {
    ghost var printed := Frames(sender.outbox, sender.useEndl);
    FramesArrive(sender.outbox, sender.useEndl, parser);
    sender.DrainOutbox();
    assert sender.output == printed by { assert "" + printed == printed; }
    receiver := new RpcPipeTransport(sender.output);
    receiver.PollInbox(parser);
  }
}
