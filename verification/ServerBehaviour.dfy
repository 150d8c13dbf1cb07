/** What one message from the client brings about, told without the steps of the server: which
    commands run, what their actions send and change, and what is answered. */
module ServerBehaviour {
  import opened Wrappers
  import opened Decimals
  import opened ServerModel

  // ----------------------------------------------------------------- actions

  /** The requests and notifications among the messages. */
  function Others(sent: seq<Sent>): seq<Sent> {
    if sent == [] then []
    else
      var last := sent[|sent| - 1];
      Others(sent[..|sent| - 1]) + (if last.Progress? then [] else [last])
  }

  /** The request or notification that an action asks for. */
  function AskedBy(a: Action): seq<Sent> {
    match a
    case SendRequest(id, p) => [Request(id, OtherArgs(p))]
    case CreateProgress(token, id) => [Request(id, WorkDone(token))]
    case Notify(name) => [Notification(name)]
    case _ => []
  }

  function Asked(actions: seq<Action>): seq<Sent> {
    if actions == [] then [] else AskedBy(actions[0]) + Asked(actions[1..])
  }

  lemma OthersSnoc(sent: seq<Sent>, x: Sent)
    ensures Others(sent + [x]) == if x.Progress? then Others(sent) else Others(sent) + [x]
  {
    assert (sent + [x])[..|sent|] == sent;
    assert Others(sent) + [] == Others(sent);
  }

  lemma ActAsks(s: State, a: Action)
    ensures Others(Act(s, a).sent) == Others(s.sent) + AskedBy(a)
  {
    AndNothing(Others(s.sent));
    ActSendsAsked(s, a);
    if AskedBy(a) != [] {
      OthersSnoc(s.sent, AskedBy(a)[0]);
      assert AskedBy(a) == [AskedBy(a)[0]];
    } else if Act(s, a).sent != s.sent {
      var t, k :| Act(s, a).sent == s.sent + [Progress(t, k)];
      OthersSnoc(s.sent, Progress(t, k));
    }
  }

  lemma ActSendsAsked(s: State, a: Action)
    ensures AskedBy(a) != [] ==> Act(s, a).sent == s.sent + AskedBy(a) && |AskedBy(a)| == 1 && !AskedBy(a)[0].Progress?
    ensures AskedBy(a) == [] ==> Act(s, a).sent == s.sent || exists t, k :: Act(s, a).sent == s.sent + [Progress(t, k)]
  {
    match a
    case BeginProgress(t) => assert Act(s, a).sent == s.sent || Act(s, a).sent == s.sent + [Progress(t, Begin)];
    case ReportProgress(t) => assert Act(s, a).sent == s.sent || Act(s, a).sent == s.sent + [Progress(t, Report)];
    case EndProgress(t) => assert Act(s, a).sent == s.sent || Act(s, a).sent == s.sent + [Progress(t, End)];
    case _ =>
  }

  lemma Together<T>(a: seq<T>, b: seq<T>, c: seq<T>)
    ensures (a + b) + c == a + (b + c)
  {
  }

  lemma AndNothing<T>(a: seq<T>)
    ensures a + [] == a && [] + a == a
  {
  }

  /** Everything asked for is sent, in order, and nothing else but progress. */
  lemma {:induction false} ActionsAskExactly(s: State, actions: seq<Action>)
    ensures Others(ActAll(s, actions).sent) == Others(s.sent) + Asked(actions)
    decreases |actions|
  {
    if actions == [] {
      AndNothing(Others(s.sent));
    } else {
      ActAsks(s, actions[0]);
      ActionsAskExactly(Act(s, actions[0]), actions[1..]);
      Together(Others(s.sent), AskedBy(actions[0]), Asked(actions[1..]));
    }
  }

  // ---------------------------------------------------------------- progress

  /** A token that the server does not know, or knows and has not begun, or has begun. */
  datatype Standing = Unknown | Idle | Going

  function StandingOf(s: State, t: ProgressToken): Standing {
    if t !in s.tokens then Unknown else if s.tokens[t] then Going else Idle
  }

  /** What an action wants to tell about a token. */
  function WantedBy(a: Action, t: ProgressToken): seq<Kind> {
    match a
    case BeginProgress(u) => if u == t then [Begin] else []
    case ReportProgress(u) => if u == t then [Report] else []
    case EndProgress(u) => if u == t then [End] else []
    case _ => []
  }

  function Wanted(actions: seq<Action>, t: ProgressToken): seq<Kind> {
    if actions == [] then [] else WantedBy(actions[0], t) + Wanted(actions[1..], t)
  }

  /** Where a kind first occurs, or the length. */
  function FirstOf(kinds: seq<Kind>, k: Kind): (n: nat)
    ensures n <= |kinds| && (n < |kinds| ==> kinds[n] == k) && forall i :: 0 <= i < n ==> kinds[i] != k
  {
    if kinds == [] || kinds[0] == k then 0 else 1 + FirstOf(kinds[1..], k)
  }

  function UpToEnd(kinds: seq<Kind>): seq<Kind> {
    var e := FirstOf(kinds, End);
    kinds[..if e < |kinds| then e + 1 else e]
  }

  /** The part that is told: up to the first end, and only from the first begin on. */
  function Announced(st: Standing, kinds: seq<Kind>): seq<Kind> {
    match st
    case Unknown => []
    case Going => UpToEnd(kinds)
    case Idle => if FirstOf(kinds, Begin) < FirstOf(kinds, End) then UpToEnd(kinds)[FirstOf(kinds, Begin)..] else []
  }

  function StandingAfter(st: Standing, kinds: seq<Kind>): Standing {
    if st.Unknown? || FirstOf(kinds, End) < |kinds| then Unknown
    else if st.Going? || FirstOf(kinds, Begin) < |kinds| then Going
    else Idle
  }

  lemma FirstOfCons(k: Kind, rest: seq<Kind>, x: Kind)
    ensures FirstOf([k] + rest, x) == if k == x then 0 else 1 + FirstOf(rest, x)
  {
    assert ([k] + rest)[1..] == rest;
  }

  lemma UpToEndCons(k: Kind, rest: seq<Kind>)
    ensures UpToEnd([k] + rest) == if k == End then [k] else [k] + UpToEnd(rest)
  {
    FirstOfCons(k, rest, End);
  }

  lemma OneKind(k: Kind)
    ensures UpToEnd([k]) == [k] && FirstOf([k], Begin) == (if k == Begin then 0 else 1) && FirstOf([k], End) == (if k == End then 0 else 1)
  {
    UpToEndCons(k, []);
    FirstOfCons(k, [], Begin);
    FirstOfCons(k, [], End);
    AndNothing([k]);
  }

  /** One more kind in front. */
  lemma AnnouncedCons(st: Standing, k: Kind, rest: seq<Kind>)
    ensures Announced(st, [k] + rest) == Announced(st, [k]) + Announced(StandingAfter(st, [k]), rest)
  {
    FirstOfCons(k, rest, Begin);
    FirstOfCons(k, rest, End);
    UpToEndCons(k, rest);
    OneKind(k);
    AndNothing([k]);
    if st.Idle? && k == Report && FirstOf(rest, Begin) < FirstOf(rest, End) {
      assert ([k] + UpToEnd(rest))[1 + FirstOf(rest, Begin)..] == UpToEnd(rest)[FirstOf(rest, Begin)..];
    }
  }

  lemma StandingCons(st: Standing, k: Kind, rest: seq<Kind>)
    ensures StandingAfter(st, [k] + rest) == StandingAfter(StandingAfter(st, [k]), rest)
  {
    FirstOfCons(k, rest, Begin);
    FirstOfCons(k, rest, End);
    OneKind(k);
  }

  lemma AnnouncedTogether(st: Standing, first: seq<Kind>, rest: seq<Kind>)
    requires |first| <= 1
    ensures Announced(st, first + rest) == Announced(st, first) + Announced(StandingAfter(st, first), rest)
    ensures StandingAfter(st, first + rest) == StandingAfter(StandingAfter(st, first), rest)
  {
    AndNothing(rest);
    if first != [] {
      assert first == [first[0]];
      AnnouncedCons(st, first[0], rest);
      StandingCons(st, first[0], rest);
    } else {
      AndNothing(Announced(st, rest));
    }
  }

  function ActionOf(k: Kind, t: ProgressToken): Action {
    match k
    case Begin => BeginProgress(t)
    case Report => ReportProgress(t)
    case End => EndProgress(t)
  }

  /** One action, for the token it is about. */
  lemma ProgressActs(s: State, t: ProgressToken, k: Kind)
    ensures var a := ActionOf(k, t);
      && Act(s, a).sent == (if Announced(StandingOf(s, t), [k]) == [] then s.sent else s.sent + [Progress(t, k)])
      && (Announced(StandingOf(s, t), [k]) == [] || Announced(StandingOf(s, t), [k]) == [k])
      && StandingOf(Act(s, a), t) == StandingAfter(StandingOf(s, t), [k])
      && forall u :: u != t ==> StandingOf(Act(s, a), u) == StandingOf(s, u)
  {
    OneKind(k);
    assert [k][0..] == [k];
  }

  lemma OtherActs(s: State, a: Action)
    requires !a.BeginProgress? && !a.ReportProgress? && !a.EndProgress?
    ensures Act(s, a).tokens == s.tokens
    ensures Act(s, a).sent == s.sent || exists x: Sent :: !x.Progress? && Act(s, a).sent == s.sent + [x]
  {
    var x := ActionSends(s, a);
    ActSendsAsked(s, a);
    if AskedBy(a) != [] {
      assert !AskedBy(a)[0].Progress? && AskedBy(a) == [AskedBy(a)[0]];
    } else {
      assert a.SetInitialized? || a.Shutdown? || a.Exit?;
    }
  }

  lemma NothingWanted(st: Standing)
    ensures Announced(st, []) == [] && StandingAfter(st, []) == st
  {
  }

  lemma ProgressTells(s: State, u: ProgressToken, k: Kind, t: ProgressToken)
    ensures var a, wanted := ActionOf(k, u), if u == t then [k] else [];
      && Emitted(Act(s, a).sent, t) == Emitted(s.sent, t) + Announced(StandingOf(s, t), wanted)
      && StandingOf(Act(s, a), t) == StandingAfter(StandingOf(s, t), wanted)
  {
    AndNothing(Emitted(s.sent, t));
    NothingWanted(StandingOf(s, t));
    ProgressActs(s, u, k);
    SentSnoc(s.sent, Progress(u, k), t);
  }

  lemma OtherTells(s: State, a: Action, t: ProgressToken)
    requires !a.BeginProgress? && !a.ReportProgress? && !a.EndProgress?
    ensures Emitted(Act(s, a).sent, t) == Emitted(s.sent, t) && StandingOf(Act(s, a), t) == StandingOf(s, t)
  {
    OtherActs(s, a);
    if Act(s, a).sent != s.sent {
      var x: Sent :| !x.Progress? && Act(s, a).sent == s.sent + [x];
      SentSnoc(s.sent, x, t);
    }
  }

  lemma ActTells(s: State, a: Action, t: ProgressToken)
    ensures Emitted(Act(s, a).sent, t) == Emitted(s.sent, t) + Announced(StandingOf(s, t), WantedBy(a, t))
    ensures StandingOf(Act(s, a), t) == StandingAfter(StandingOf(s, t), WantedBy(a, t))
  {
    match a
    case BeginProgress(u) => ProgressTells(s, u, Begin, t);
    case ReportProgress(u) => ProgressTells(s, u, Report, t);
    case EndProgress(u) => ProgressTells(s, u, End, t);
    case _ =>
      OtherTells(s, a, t);
      NothingWanted(StandingOf(s, t));
      AndNothing(Emitted(s.sent, t));
  }

  /** Of what the actions want to tell about a token, exactly the part from the first begin to the
      first end is told, and nothing about a token that the client has not been asked for. */
  lemma {:induction false} ProgressExactly(s: State, actions: seq<Action>, t: ProgressToken)
    ensures Emitted(ActAll(s, actions).sent, t) == Emitted(s.sent, t) + Announced(StandingOf(s, t), Wanted(actions, t))
    ensures StandingOf(ActAll(s, actions), t) == StandingAfter(StandingOf(s, t), Wanted(actions, t))
    decreases |actions|
  {
    if actions == [] {
      AndNothing(Emitted(s.sent, t));
    } else {
      ActTells(s, actions[0], t);
      ProgressExactly(Act(s, actions[0]), actions[1..], t);
      ProgressStep(s, actions[0], actions[1..], t);
    }
  }

  lemma ProgressStep(s: State, a: Action, rest: seq<Action>, t: ProgressToken)
    ensures var st, first, more := StandingOf(s, t), WantedBy(a, t), Wanted(rest, t);
      && (Emitted(s.sent, t) + Announced(st, first)) + Announced(StandingAfter(st, first), more) == Emitted(s.sent, t) + Announced(st, first + more)
      && StandingAfter(StandingAfter(st, first), more) == StandingAfter(st, first + more)
  {
    var st, first, more := StandingOf(s, t), WantedBy(a, t), Wanted(rest, t);
    AnnouncedTogether(st, first, more);
    Together(Emitted(s.sent, t), Announced(st, first), Announced(StandingAfter(st, first), more));
  }

  // --------------------------------------------------------- flags and tables

  /** The events of the lifecycle that the actions bring about. */
  function MilestoneOf(a: Action): seq<Event> {
    match a
    case SetInitialized => [Initialized]
    case Shutdown => [ShutDown]
    case _ => []
  }

  function Milestones(actions: seq<Action>): seq<Event> {
    if actions == [] then [] else MilestoneOf(actions[0]) + Milestones(actions[1..])
  }

  lemma FlagsOfOne(s: State, a: Action)
    ensures var u := Act(s, a);
      && (u.initialized <==> s.initialized || a == SetInitialized) && (u.stopping <==> s.stopping || a == Shutdown)
      && (u.stopped <==> s.stopped || a == Exit) && u.log == s.log + MilestoneOf(a) && u.currentCb == s.currentCb
  {
    AndNothing(s.log);
  }

  /** The flags say whether they were set, then or before, and the log when. */
  lemma {:induction false} FlagsExactly(s: State, actions: seq<Action>)
    ensures var u := ActAll(s, actions);
      && (u.initialized <==> s.initialized || SetInitialized in actions)
      && (u.stopping <==> s.stopping || Shutdown in actions)
      && (u.stopped <==> s.stopped || Exit in actions)
      && u.log == s.log + Milestones(actions) && u.currentCb == s.currentCb
    decreases |actions|
  {
    if actions == [] {
      AndNothing(s.log);
    } else {
      FlagsOfOne(s, actions[0]);
      FlagsExactly(Act(s, actions[0]), actions[1..]);
      assert forall x :: x in actions <==> x == actions[0] || x in actions[1..];
      Together(s.log, MilestoneOf(actions[0]), Milestones(actions[1..]));
    }
  }

  /** The callback and the arguments that an action binds to an identifier. */
  datatype Binding = Binding(id: Id, cb: Callback, args: Args)

  function BindingOf(a: Action): Option<Binding> {
    match a
    case SendRequest(id, p) => Some(Binding(id, Custom, OtherArgs(p)))
    case CreateProgress(token, id) => Some(Binding(id, EnableToken, WorkDone(token)))
    case _ => None
  }

  function Bindings(actions: seq<Action>): seq<Binding> {
    if actions == [] then []
    else (if BindingOf(actions[0]).Some? then [BindingOf(actions[0]).value] else []) + Bindings(actions[1..])
  }

  ghost predicate Holds(s: State, b: Binding) {
    b.id in s.callbacks && s.callbacks[b.id] == b.cb && b.id in s.reqArgs && s.reqArgs[b.id] == b.args && b.id in s.used
  }

  /** Callbacks and arguments drawn before are as they were. */
  ghost predicate Keeps(s: State, u: State) {
    && s.used <= u.used && u.callbacks.Keys <= u.used && u.reqArgs.Keys <= u.used
    && (forall id :: id in s.used ==> (id in u.callbacks <==> id in s.callbacks) && (id in u.reqArgs <==> id in s.reqArgs))
    && (forall id :: id in s.callbacks ==> id in u.callbacks && u.callbacks[id] == s.callbacks[id])
    && (forall id :: id in s.reqArgs ==> id in u.reqArgs && u.reqArgs[id] == s.reqArgs[id])
  }

  lemma BindingOfOne(s: State, a: Action)
    requires Drawable(s, a) && s.callbacks.Keys <= s.used && s.reqArgs.Keys <= s.used
    ensures Keeps(s, Act(s, a)) && (BindingOf(a).Some? ==> Holds(Act(s, a), BindingOf(a).value))
    ensures Act(s, a).callbacks.Keys == s.callbacks.Keys + (if BindingOf(a).Some? then {BindingOf(a).value.id} else {})
  {
  }

  lemma KeepsOn(s: State, t: State, u: State, b: Binding)
    requires Keeps(s, t) && Keeps(t, u)
    ensures Keeps(s, u) && (Holds(t, b) ==> Holds(u, b))
  {
  }

  /** Every request sent has its own callback and arguments, and those before it keep theirs. */
  lemma {:induction false} BindingsExactly(s: State, actions: seq<Action>)
    requires DrawableAll(s, actions) && s.callbacks.Keys <= s.used && s.reqArgs.Keys <= s.used
    ensures var u := ActAll(s, actions);
      && Keeps(s, u) && (forall b :: b in Bindings(actions) ==> Holds(u, b))
      && (forall id :: id in u.callbacks <==> id in s.callbacks || exists b :: b in Bindings(actions) && b.id == id)
    decreases |actions|
  {
    if actions != [] {
      var a, t, u := actions[0], Act(s, actions[0]), ActAll(s, actions);
      BindingOfOne(s, a);
      BindingsExactly(t, actions[1..]);
      forall b ensures Keeps(s, u) && (Holds(t, b) ==> Holds(u, b)) {
        KeepsOn(s, t, u, b);
      }
      BindingsCons(a, actions[1..], s, t, u);
    }
  }

  lemma BindingsCons(a: Action, rest: seq<Action>, s: State, t: State, u: State)
    requires t.callbacks.Keys == s.callbacks.Keys + (if BindingOf(a).Some? then {BindingOf(a).value.id} else {})
    requires forall id :: id in u.callbacks <==> id in t.callbacks || exists b :: b in Bindings(rest) && b.id == id
    ensures var all := (if BindingOf(a).Some? then [BindingOf(a).value] else []) + Bindings(rest);
      forall id :: id in u.callbacks <==> id in s.callbacks || exists b :: b in all && b.id == id
  {
    var all := (if BindingOf(a).Some? then [BindingOf(a).value] else []) + Bindings(rest);
    assert forall b :: b in all <==> (BindingOf(a).Some? && b == BindingOf(a).value) || b in Bindings(rest);
    if BindingOf(a).Some? {
      assert BindingOf(a).value in all;
    }
  }

  /** Arguments once stored are never replaced, whatever identifiers are drawn. */
  lemma {:induction false} ArgumentsStay(s: State, actions: seq<Action>)
    ensures forall id :: id in s.reqArgs ==> id in ActAll(s, actions).reqArgs && ActAll(s, actions).reqArgs[id] == s.reqArgs[id]
    decreases |actions|
  {
    if actions != [] {
      ArgumentsOfOne(s, actions[0]);
      ArgumentsStay(Act(s, actions[0]), actions[1..]);
    }
  }

  lemma ArgumentsOfOne(s: State, a: Action)
    ensures forall id :: id in s.reqArgs ==> id in Act(s, a).reqArgs && Act(s, a).reqArgs[id] == s.reqArgs[id]
  {
  }

  // ------------------------------------------------------------------- calls

  /** The commands that a call runs, one handing over to the next. */
  function Commands(fct: string, script: Script): (r: seq<string>)
    ensures r != [] && r[0] == fct
    decreases script
  {
    match script
    case Perform(_, _) => [fct]
    case Execute(command, inner) => [fct] + Commands(command, inner)
  }

  /** What the last of them does. */
  function ActionsOf(script: Script): seq<Action> {
    match script
    case Perform(actions, _) => actions
    case Execute(_, inner) => ActionsOf(inner)
  }

  function Runs(commands: seq<string>): seq<Event> {
    seq(|commands|, i requires 0 <= i < |commands| => Ran(commands[i]))
  }

  predicate AllAccepted(cfg: Config, s: State, commands: seq<string>) {
    forall i :: 0 <= i < |commands| ==> Refusal(cfg, s, commands[i]).None?
  }

  /** The state once some commands have been entered. */
  function Entered(s: State, commands: seq<string>): State {
    s.(log := s.log + Runs(commands))
  }

  /** A result goes outwards as it is through requests, and as null from a notification on. */
  function ResultOf(cfg: Config, commands: seq<string>, outcome: Outcome): Called
    requires commands != []
  {
    match outcome
    case RaisesRpc(code) => Rpc(Handler(code))
    case RaisesServerSide => ServerSide
    case Returns(p) =>
      if commands[0] !in cfg.requests then Nothing
      else if forall c :: c in commands ==> c in cfg.requests then Value(p)
      else Value("null")
  }

  lemma RunsCons(s: State, fct: string, rest: seq<string>)
    ensures Entered(Entered(s, [fct]), rest) == Entered(s, [fct] + rest)
    ensures Entered(s, [fct]) == s.(log := s.log + [Ran(fct)])
  {
    assert Runs([fct]) == [Ran(fct)] && Runs([fct] + rest) == [Ran(fct)] + Runs(rest);
    assert (s.log + [Ran(fct)]) + Runs(rest) == s.log + ([Ran(fct)] + Runs(rest));
  }

  lemma ResultCons(cfg: Config, fct: string, rest: seq<string>, outcome: Outcome)
    requires rest != []
    ensures var inner := ResultOf(cfg, rest, outcome);
      var c := if inner.Nothing? then Value("null") else inner;
      ResultOf(cfg, [fct] + rest, outcome) == if c.Value? && fct !in cfg.requests then Nothing else c
  {
    assert rest[0] in rest && forall c :: c in [fct] + rest <==> c == fct || c in rest;
  }

  lemma RefusedOrEntered(cfg: Config, s: State, fct: string, script: Script)
    ensures Refusal(cfg, s, fct).Some? ==> Invoke(cfg, s, fct, script) == (s, Rpc(Refusal(cfg, s, fct).value))
    ensures Refusal(cfg, s, fct).None? ==> Filter(s, fct).None? && Bound(cfg, fct)
  {
  }

  /** Accepted commands run one after the other, then the actions of the last one. */
  lemma {:induction false} AcceptedExactly(cfg: Config, s: State, fct: string, script: Script)
    requires AllAccepted(cfg, s, Commands(fct, script))
    ensures var commands := Commands(fct, script);
      Invoke(cfg, s, fct, script) == (ActAll(Entered(s, commands), ActionsOf(script)), ResultOf(cfg, commands, Innermost(script)))
    decreases script
  {
    assert Refusal(cfg, s, Commands(fct, script)[0]).None?;
    RefusedOrEntered(cfg, s, fct, script);
    RunsCons(s, fct, []);
    if script.Execute? {
      var rest, t := Commands(script.command, script.inner), Entered(s, [fct]);
      forall i | 0 <= i < |rest| ensures Refusal(cfg, t, rest[i]).None? {
        assert rest[i] == Commands(fct, script)[i + 1];
      }
      AcceptedExactly(cfg, t, script.command, script.inner);
      RunsCons(s, fct, rest);
      ResultCons(cfg, fct, rest, Innermost(script.inner));
    }
  }

  /** The first command refused ends the call with its error; those before it have run. */
  lemma {:induction false} RefusedExactly(cfg: Config, s: State, fct: string, script: Script, k: nat)
    requires k < |Commands(fct, script)| && AllAccepted(cfg, s, Commands(fct, script)[..k])
    requires Refusal(cfg, s, Commands(fct, script)[k]).Some?
    ensures var commands := Commands(fct, script);
      Invoke(cfg, s, fct, script) == (Entered(s, commands[..k]), Rpc(Refusal(cfg, s, commands[k]).value))
    decreases script
  {
    var commands := Commands(fct, script);
    RefusedOrEntered(cfg, s, fct, script);
    RunsCons(s, fct, []);
    if k == 0 {
      assert Runs(commands[..0]) == [] && s.log + [] == s.log;
    } else {
      assert Refusal(cfg, s, commands[..k][0]).None?;
      var rest, t := Commands(script.command, script.inner), Entered(s, [fct]);
      var before := rest[..k - 1];
      forall i | 0 <= i < |before| ensures Refusal(cfg, t, before[i]).None? {
        assert before[i] == commands[..k][i + 1];
      }
      RefusedExactly(cfg, t, script.command, script.inner, k - 1);
      assert commands[..k] == [fct] + rest[..k - 1] && commands[k] == rest[k - 1];
      RunsCons(s, fct, rest[..k - 1]);
    }
  }

  /** The answer to a message with a usable id; without id there is none. */
  function WithAnswer(s: State, id: RawId, called: Called): State {
    if id.NoId? || called.Nothing? || called.ServerSide? then s
    else s.(sent := s.sent + [Reply(id, if called.Value? then ResultBody(called.p) else ErrorBody(called.code))])
  }

  /** A call: a request without id is ignored. Otherwise, when no command is refused, all of them run,
      then the actions of the last one, and the answer is its outcome; this goes for notifications too,
      which have no id and no answer. */
  lemma CallExactly(cfg: Config, s: State, raw: Message, script: Script)
    requires Consistent(s.callbacks, s.reqArgs, s.used, {})
    requires !raw.empty && !raw.id.OtherId? && raw.call.Some?
    ensures var commands, after := Commands(raw.call.value, script), Round(cfg, s, Got(raw), script);
      if raw.id.NoId? && raw.call.value in cfg.requests then after == s
      else AllAccepted(cfg, s, commands) ==>
        after == WithAnswer(ActAll(Entered(s, commands), ActionsOf(script)), raw.id, ResultOf(cfg, commands, Innermost(script)))
  {
    if AllAccepted(cfg, s, Commands(raw.call.value, script)) {
      AcceptedExactly(cfg, s, raw.call.value, script);
    }
  }

  /** When a command is refused, those before it have run, nothing else happens, and the answer, if the
      message has an id, is the error of the refusal. */
  lemma RefusedCallExactly(cfg: Config, s: State, raw: Message, script: Script, k: nat)
    requires Consistent(s.callbacks, s.reqArgs, s.used, {})
    requires !raw.empty && !raw.id.OtherId? && raw.call.Some? && !(raw.id.NoId? && raw.call.value in cfg.requests)
    requires k < |Commands(raw.call.value, script)| && AllAccepted(cfg, s, Commands(raw.call.value, script)[..k])
    requires Refusal(cfg, s, Commands(raw.call.value, script)[k]).Some?
    ensures var commands := Commands(raw.call.value, script);
      Round(cfg, s, Got(raw), script)
      == WithAnswer(Entered(s, commands[..k]), raw.id, Rpc(Refusal(cfg, s, commands[k]).value))
  {
    RefusedExactly(cfg, s, raw.call.value, script, k);
  }

  /** A notification that is not refused runs. */
  lemma NotificationsRun(cfg: Config, s: State, m: string, script: Script)
    requires Consistent(s.callbacks, s.reqArgs, s.used, {})
    requires m !in cfg.requests && Refusal(cfg, s, m).None?
    ensures var after := Round(cfg, s, Got(Message(false, NoId, Some(m), false)), script);
      && s.log + [Ran(m)] <= after.log && Replies(after.sent) == Replies(s.sent)
      && (script.Perform? ==> after == ActAll(s.(log := s.log + [Ran(m)]), script.actions))
  {
    LogGrows(cfg, s, m, script);
    InvokeDoesNotReply(cfg, s, m, script);
  }

  // --------------------------------------------------------------- responses

  /** A message that is neither a call nor a response does nothing; one with an unusable id is answered
      without an id. */
  lemma NothingToDo(cfg: Config, s: State, raw: Message, script: Script)
    requires Consistent(s.callbacks, s.reqArgs, s.used, {})
    ensures Round(cfg, s, ClientClosed, script) == s && Round(cfg, s, ConnectionLost, script) == s
    ensures raw.empty || (raw.id.NoId? && raw.call.None?) ==> Round(cfg, s, Got(raw), script) == s
    ensures !raw.empty && raw.id.OtherId? ==>
      Round(cfg, s, Got(raw), script) == s.(sent := s.sent + [Reply(NoId, ErrorBody(InvalidRequest))])
  {
  }

  /** The text of a number is its numeral, which reads back. */
  lemma IdTextReadsBack(n: int)
    ensures n >= 0 ==> (forall i :: 0 <= i < |IdText(NumId(n))| ==> Digit(IdText(NumId(n))[i])) && NumberOf(IdText(NumId(n))) == n
    ensures n < 0 ==> IdText(NumId(n))[0] == '-' && IdText(NumId(n))[1..] == IdText(NumId(-n))
  {
    DecimalReadsBack(if n < 0 then -n else n);
  }

  /** The tables and the log once the callback of a request is over. */
  function CalledBack(s: State, id: Id): State {
    s.(log := s.log + [RanCallback(id)], currentCb := id)
  }

  function Forgotten(s: State, id: Id): State {
    s.(callbacks := map i | i in s.callbacks && i != id :: s.callbacks[i], reqArgs := map i | i in s.reqArgs && i != id :: s.reqArgs[i])
  }

  lemma ForgottenIsFreed(s: State, id: Id)
    ensures Freed(s, id) == Forgotten(s, id)
  {
    assert Freed(s, id).callbacks == Forgotten(s, id).callbacks && Freed(s, id).reqArgs == Forgotten(s, id).reqArgs;
  }

  /** A response: to a request nobody made, an error; an error response only ends the request. The
      client's consent makes a token known, if the client shows progress. A custom callback does what it
      does, and only an error of it is told. */
  lemma ResponseExactly(cfg: Config, s: State, raw: Message, actions: seq<Action>, outcome: Outcome)
    requires Consistent(s.callbacks, s.reqArgs, s.used, {})
    requires !raw.empty && (raw.id.StrId? || raw.id.NumId?) && raw.call.None?
    ensures var id, after := if raw.id.StrId? then raw.id.s else IdText(raw.id), Round(cfg, s, Got(raw), Perform(actions, outcome));
      if id !in s.callbacks then after == s.(sent := s.sent + [Reply(raw.id, ErrorBody(InvalidRequest))])
      else if raw.isError then after == Forgotten(s, id)
      else if s.callbacks[id] == EnableToken then
        id in s.reqArgs && s.reqArgs[id].WorkDone? &&
        var t := s.reqArgs[id].token;
        after == Forgotten(CalledBack(s, id), id).(tokens :=
          if cfg.clientProgress && t !in s.tokens then s.tokens[t := false] else s.tokens)
      else
        after == WithAnswer(Forgotten(ActAll(CalledBack(s, id).(callbacks := s.callbacks - {id}), actions), id), raw.id,
                            match outcome case Returns(_) => Nothing case RaisesRpc(code) => Rpc(Handler(code)) case RaisesServerSide => ServerSide)
  {
    var id := IdText(raw.id);
    if id in s.callbacks {
      ForgottenIsFreed(s, id);
      if !raw.isError {
        ForgottenIsFreed(RunCallback(cfg, s, id, Perform(actions, outcome)).0, id);
        ForgottenAgain(CalledBack(s, id), id);
      }
    }
  }

  lemma ForgottenAgain(s: State, id: Id)
    ensures Forgotten(s.(callbacks := s.callbacks - {id}), id) == Forgotten(s, id)
  {
    assert Forgotten(s.(callbacks := s.callbacks - {id}), id).callbacks == Forgotten(s, id).callbacks;
  }

  /** From the request to create a token to its last message: once the client has agreed, what is told
      about the token arrives. */
  lemma ProgressReachesClient(cfg: Config, s: State, token: ProgressToken, id: Id, script: Script)
    requires Inv(s, {}) && Drawable(s, CreateProgress(token, id)) && cfg.clientProgress
    ensures var asked := Act(s, CreateProgress(token, id));
      && Inv(asked, {}) && asked.sent == s.sent + [Request(id, WorkDone(token))]
      && var agreed := Round(cfg, asked, Got(Message(false, StrId(id), None, false)), script);
         var told := ActAll(agreed, [BeginProgress(token), ReportProgress(token), EndProgress(token)]);
         Emitted(told.sent, token) == [Begin, Report, End] && token !in told.tokens
  {
    var asked := Act(s, CreateProgress(token, id));
    ActKeepsInv(s, CreateProgress(token, id), {});
    assert Pending(asked.callbacks, asked.reqArgs, id, token);
    assert Silent(asked.sent, asked.tokens, asked.used, token);
    var agreed := Round(cfg, asked, Got(Message(false, StrId(id), None, false)), script);
    assert agreed.sent == asked.sent && StandingOf(agreed, token) == Idle;
    var actions := [BeginProgress(token), ReportProgress(token), EndProgress(token)];
    ProgressExactly(agreed, actions, token);
    ThreeWanted(token);
    assert [] + [Begin, Report, End] == [Begin, Report, End];
  }

  lemma ThreeWanted(t: ProgressToken)
    ensures var wanted := Wanted([BeginProgress(t), ReportProgress(t), EndProgress(t)], t);
      wanted == [Begin, Report, End] && Announced(Idle, wanted) == wanted && StandingAfter(Idle, wanted) == Unknown
  {
    var a, b, c := BeginProgress(t), ReportProgress(t), EndProgress(t);
    assert [a, b, c][1..] == [b, c] && [b, c][1..] == [c] && [c][1..] == [];
    assert Wanted([c], t) == [End] + [] && Wanted([b, c], t) == [Report] + Wanted([c], t);
    var kinds := [Begin, Report, End];
    assert kinds[0] == Begin && kinds[2] == End;
    assert FirstOf(kinds, Begin) == 0 && FirstOf(kinds, End) == 2;
    assert kinds[..3] == kinds && kinds[0..] == kinds;
  }
}
