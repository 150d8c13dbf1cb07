/** The dispatch loop of the language server: lifecycle, requests to the client and their
    callbacks, work-done progress, and replies. */
module ServerModel {
  import opened Wrappers
  import opened Decimals

  type Id = string
  type ProgressToken = string
  type Payload = string

  /** The id member of a message, if there is one. */
  datatype RawId = NoId | StrId(s: string) | NumId(n: int) | OtherId

  /** A message from the client, as far as the loop looks at it. */
  datatype Message = Message(empty: bool, id: RawId, call: Option<string>, isError: bool)

  /** What the transport gives the loop. */
  datatype Input = Got(raw: Message) | ClientClosed | ConnectionLost

  datatype Args = WorkDone(token: ProgressToken) | OtherArgs(p: Payload)

  datatype Callback = EnableToken | Custom

  datatype Kind = Begin | Report | End

  datatype ErrorCode = NotInitialized | InvalidRequest | MethodNotFound | Handler(code: int)

  datatype Body = ResultBody(p: Payload) | ErrorBody(code: ErrorCode)

  datatype Sent =
    | Reply(id: RawId, body: Body)
    | Request(reqId: Id, args: Args)
    | Progress(token: ProgressToken, kind: Kind)
    | Notification(name: string)

  /** What a handler or callback does to the server before it ends. */
  datatype Action =
    | SendRequest(id: Id, p: Payload)
    | CreateProgress(token: ProgressToken, id: Id)
    | BeginProgress(token: ProgressToken)
    | ReportProgress(token: ProgressToken)
    | EndProgress(token: ProgressToken)
    | Notify(name: string)
    | SetInitialized
    | Shutdown
    | Exit

  datatype Outcome = Returns(p: Payload) | RaisesRpc(code: int) | RaisesServerSide

  /** A handler's course: its own actions, or handing over to another command. */
  datatype Script = Perform(actions: seq<Action>, outcome: Outcome) | Execute(command: string, inner: Script)

  datatype Event = Ran(name: string) | RanCallback(id: Id) | Initialized | ShutDown

  datatype State = State(
    initialized: bool, stopping: bool, stopped: bool,
    callbacks: map<Id, Callback>,
    reqArgs: map<Id, Args>,
    tokens: map<ProgressToken, bool>,
    currentCb: Id,
    // history
    sent: seq<Sent>,
    log: seq<Event>,
    used: set<string>)

  /** What is fixed before the loop starts. */
  datatype Config = Config(requests: set<string>, notifs: set<string>, clientProgress: bool)

  const START := State(false, false, false, map[], map[], map[], "", [], [], {})

  // ------------------------------------------------------------------- steps

  /** The generator draws identifiers never drawn before. */
  predicate Drawable(s: State, a: Action) {
    match a
    case SendRequest(id, _) => id !in s.used
    case CreateProgress(token, id) => token !in s.used && id !in s.used && token != id
    case _ => true
  }

  function Bind(s: State, id: Id, args: Args, cb: Callback): State {
    s.(reqArgs := if id in s.reqArgs then s.reqArgs else s.reqArgs[id := args],
       callbacks := s.callbacks[id := cb],
       sent := s.sent + [Request(id, args)],
       used := s.used + {id})
  }

  function Act(s: State, a: Action): State {
    match a
    case SendRequest(id, p) => Bind(s, id, OtherArgs(p), Custom)
    case CreateProgress(token, id) => Bind(s.(used := s.used + {token}), id, WorkDone(token), EnableToken)
    case BeginProgress(t) =>
      if t in s.tokens then s.(sent := s.sent + [Progress(t, Begin)], tokens := s.tokens[t := true]) else s
    case ReportProgress(t) =>
      if t in s.tokens && s.tokens[t] then s.(sent := s.sent + [Progress(t, Report)]) else s
    case EndProgress(t) =>
      if t !in s.tokens then s
      else s.(sent := if s.tokens[t] then s.sent + [Progress(t, End)] else s.sent, tokens := s.tokens - {t})
    case Notify(name) => s.(sent := s.sent + [Notification(name)])
    case SetInitialized => s.(initialized := true, log := s.log + [Initialized])
    case Shutdown => s.(stopping := true, log := s.log + [ShutDown])
    case Exit => s.(stopped := true)
  }

  predicate DrawableAll(s: State, actions: seq<Action>)
    decreases |actions|
  {
    actions == [] || (Drawable(s, actions[0]) && DrawableAll(Act(s, actions[0]), actions[1..]))
  }

  function ActAll(s: State, actions: seq<Action>): State
    decreases |actions|
  {
    if actions == [] then s else ActAll(Act(s, actions[0]), actions[1..])
  }

  /** What a call comes to: a value, nothing, or an exception. */
  datatype Called = Value(p: Payload) | Nothing | Rpc(code: ErrorCode) | ServerSide

  function Filter(s: State, fct: string): Option<ErrorCode> {
    if !s.initialized then if fct != "initialize" then Some(NotInitialized) else None
    else if s.stopping then if fct != "exit" then Some(InvalidRequest) else None
    else None
  }

  function Finish(outcome: Outcome): Called {
    match outcome
    case Returns(p) => Value(p)
    case RaisesRpc(code) => Rpc(Handler(code))
    case RaisesServerSide => ServerSide
  }

  predicate Bound(cfg: Config, fct: string) {
    fct in cfg.requests || fct in cfg.notifs
  }

  function Invoke(cfg: Config, s: State, fct: string, script: Script): (State, Called)
    decreases script
  {
    if Filter(s, fct).Some? then (s, Rpc(Filter(s, fct).value))
    else if !Bound(cfg, fct) then (s, Rpc(MethodNotFound))
    else
      var t := s.(log := s.log + [Ran(fct)]);
      var (u, called) := match script
        case Perform(actions, outcome) => (ActAll(t, actions), Finish(outcome))
        case Execute(command, inner) =>
          var (v, c) := Invoke(cfg, t, command, inner);
          (v, if c.Nothing? then Value("null") else c);
      (u, if called.Value? && fct !in cfg.requests then Nothing else called)
  }

  ghost predicate Playable(cfg: Config, s: State, fct: string, script: Script)
    decreases script
  {
    if Filter(s, fct).Some? || !Bound(cfg, fct) then true
    else
      var t := s.(log := s.log + [Ran(fct)]);
      match script
      case Perform(actions, _) => DrawableAll(t, actions)
      case Execute(command, inner) => Playable(cfg, t, command, inner)
  }

  function IdText(id: RawId): string {
    match id
    case StrId(s) => s
    case NumId(n) => if n < 0 then "-" + Decimal(-n) else Decimal(n)
    case _ => ""
  }

  /** Both tables forget the request when the callback's guard goes out of scope. */
  function Freed(s: State, id: Id): State {
    s.(callbacks := s.callbacks - {id}, reqArgs := s.reqArgs - {id})
  }

  function Extracted(s: State, id: Id): State {
    s.(callbacks := s.callbacks - {id}, currentCb := id, log := s.log + [RanCallback(id)])
  }

  function EnabledToken(cfg: Config, s: State): State
    requires s.currentCb in s.reqArgs && s.reqArgs[s.currentCb].WorkDone?
  {
    var t := s.reqArgs[s.currentCb].token;
    if !cfg.clientProgress || t in s.tokens then s else s.(tokens := s.tokens[t := false])
  }

  /** The arguments a callback looks up are there. */
  predicate CallbackReady(s: State, id: Id) {
    id in s.callbacks && (s.callbacks[id].EnableToken? ==> id in s.reqArgs && s.reqArgs[id].WorkDone?)
  }

  function RunCallback(cfg: Config, s: State, id: Id, script: Script): (State, Called)
    requires CallbackReady(s, id)
  {
    var t := Extracted(s, id);
    if s.callbacks[id].EnableToken? then (EnabledToken(cfg, t), Nothing)
    else match script
      case Perform(actions, outcome) =>
        (ActAll(t, actions), match outcome case Returns(_) => Nothing case _ => Finish(outcome))
      case Execute(_, _) => (t, Nothing)
  }

  function Answered(s: State, id: RawId, body: Body): State {
    s.(sent := s.sent + [Reply(id, body)])
  }

  /** A response from the client to one of the server's requests. */
  function HandleResponse(cfg: Config, s: State, raw: Message, script: Script): State
    requires IdText(raw.id) in s.callbacks ==> CallbackReady(s, IdText(raw.id))
  {
    var id := IdText(raw.id);
    if id !in s.callbacks then Answered(s, raw.id, ErrorBody(InvalidRequest))
    else if raw.isError then Freed(s, id)
    else
      var (t, called) := RunCallback(cfg, s, id, script);
      if called.Rpc? then Answered(Freed(t, id), raw.id, ErrorBody(called.code)) else Freed(t, id)
  }

  /** The state once the outcome of a call has been told, unless it is silent. */
  function Told(t: State, id: RawId, called: Called): State {
    match called
    case Value(p) => Answered(t, id, ResultBody(p))
    case Rpc(code) => Answered(t, id, ErrorBody(code))
    case _ => t
  }

  /** A request or notification from the client. */
  function HandleCall(cfg: Config, s: State, raw: Message, script: Script): State
    requires raw.call.Some?
  {
    if raw.call.value in cfg.requests && raw.id.NoId? then s
    else
      var (t, called) := Invoke(cfg, s, raw.call.value, script);
      if raw.id.NoId? then t else Told(t, raw.id, called)
  }

  /** One round of the loop. */
  function Round(cfg: Config, s: State, input: Input, script: Script): State
    requires Consistent(s.callbacks, s.reqArgs, s.used, {})
  {
    if !input.Got? || input.raw.empty then s
    else
      var raw := input.raw;
      if raw.id.OtherId? then Answered(s, NoId, ErrorBody(InvalidRequest))
      else if raw.call.Some? then HandleCall(cfg, s, raw, script)
      else if raw.id.NoId? then s
      else HandleResponse(cfg, s, raw, script)
  }

  // -------------------------------------------------------------- invariants

  /** Stored arguments belong to bound callbacks, or to the one being run; progress callbacks have
      a token to enable. */
  ghost predicate Consistent(callbacks: map<Id, Callback>, reqArgs: map<Id, Args>, used: set<string>, running: set<Id>) {
    && reqArgs.Keys == callbacks.Keys + running
    && (forall id :: id in callbacks && callbacks[id].EnableToken? ==> reqArgs[id].WorkDone?)
    && reqArgs.Keys <= used
  }

  /** The progress messages sent for a token. */
  function Emitted(sent: seq<Sent>, t: ProgressToken): seq<Kind> {
    if sent == [] then []
    else
      var last := sent[|sent| - 1];
      Emitted(sent[..|sent| - 1], t) + (if last.Progress? && last.token == t then [last.kind] else [])
  }

  ghost predicate Running(k: seq<Kind>) {
    k != [] && k[0] == Begin && forall i :: 0 <= i < |k| ==> k[i] != End
  }

  ghost predicate Over(k: seq<Kind>) {
    k != [] && k[|k| - 1] == End && Running(k[..|k| - 1])
  }

  /** Work-done progress as the protocol wants it: nothing, or a begin, then reports and begins,
      then at most one end and nothing after it. */
  ghost predicate ProgressOk(k: seq<Kind>) {
    k == [] || Running(k) || Over(k)
  }

  /** What a token may have sent, given what the server knows of it. */
  ghost predicate TokenOk(sent: seq<Sent>, tokens: map<ProgressToken, bool>, used: set<string>, t: ProgressToken) {
    var k := Emitted(sent, t);
    && (t in tokens ==> t in used && if tokens[t] then Running(k) else k == [])
    && (t !in tokens ==> k == [] || Over(k))
    && (t !in used ==> k == [])
  }

  ghost predicate TokensOk(sent: seq<Sent>, tokens: map<ProgressToken, bool>, used: set<string>) {
    forall t :: TokenOk(sent, tokens, used, t)
  }

  /** A pending request to enable a token. */
  ghost predicate Pending(callbacks: map<Id, Callback>, reqArgs: map<Id, Args>, id: Id, t: ProgressToken) {
    id in callbacks && callbacks[id].EnableToken? && id in reqArgs && reqArgs[id] == WorkDone(t)
  }

  /** The token is drawn, unknown to the server, and silent so far. */
  ghost predicate Silent(sent: seq<Sent>, tokens: map<ProgressToken, bool>, used: set<string>, t: ProgressToken) {
    t in used && t !in tokens && Emitted(sent, t) == []
  }

  ghost predicate PendingOk(s: State) {
    && (forall id, t :: Pending(s.callbacks, s.reqArgs, id, t) ==> Silent(s.sent, s.tokens, s.used, t))
    && (forall id, id', t :: Pending(s.callbacks, s.reqArgs, id, t) && Pending(s.callbacks, s.reqArgs, id', t) ==> id == id')
  }

  function RanIds(log: seq<Event>): seq<Id> {
    if log == [] then []
    else
      var last := log[|log| - 1];
      RanIds(log[..|log| - 1]) + (if last.RanCallback? then [last.id] else [])
  }

  /** No callback has run twice, and none that has run can run again. */
  ghost predicate OncePerCallback(log: seq<Event>, callbacks: map<Id, Callback>, used: set<string>) {
    && (forall i, j :: 0 <= i < j < |RanIds(log)| ==> RanIds(log)[i] != RanIds(log)[j])
    && (forall id :: id in RanIds(log) ==> id in used && id !in callbacks)
    && callbacks.Keys <= used
  }

  /** Before initialisation only initialize runs; after shutdown only exit does. */
  ghost predicate LifecycleOk(log: seq<Event>) {
    log == [] ||
    var before, last := log[..|log| - 1], log[|log| - 1];
    LifecycleOk(before) && (last.Ran? ==>
      && (Initialized !in before ==> last.name == "initialize")
      && (Initialized in before && ShutDown in before ==> last.name == "exit"))
  }

  ghost predicate LogOk(log: seq<Event>, initialized: bool, stopping: bool) {
    && LifecycleOk(log)
    && (initialized <==> Initialized in log)
    && (stopping <==> ShutDown in log)
  }

  ghost predicate Inv(s: State, running: set<Id>) {
    && Consistent(s.callbacks, s.reqArgs, s.used, running)
    && TokensOk(s.sent, s.tokens, s.used) && PendingOk(s)
    && OncePerCallback(s.log, s.callbacks, s.used)
    && LogOk(s.log, s.initialized, s.stopping)
  }

  lemma SentSnoc(sent: seq<Sent>, x: Sent, t: ProgressToken)
    ensures Emitted(sent + [x], t) == if x.Progress? && x.token == t then Emitted(sent, t) + [x.kind] else Emitted(sent, t)
  {
    assert (sent + [x])[..|sent|] == sent;
    assert Emitted(sent, t) + [] == Emitted(sent, t);
  }

  lemma LogSnoc(log: seq<Event>, e: Event)
    ensures RanIds(log + [e]) == RanIds(log) + (if e.RanCallback? then [e.id] else [])
    ensures LifecycleOk(log + [e]) <==> LifecycleOk(log) && (e.Ran? ==>
      && (Initialized !in log ==> e.name == "initialize")
      && (Initialized in log && ShutDown in log ==> e.name == "exit"))
  {
    assert (log + [e])[..|log|] == log;
  }

  /** A message that is not about progress changes nothing for any token. */
  lemma OtherMessage(s: State, x: Sent)
    requires TokensOk(s.sent, s.tokens, s.used) && PendingOk(s) && !x.Progress?
    ensures TokensOk(s.sent + [x], s.tokens, s.used) && PendingOk(s.(sent := s.sent + [x]))
  {
    forall t ensures Emitted(s.sent + [x], t) == Emitted(s.sent, t) {
      SentSnoc(s.sent, x, t);
    }
    forall t ensures TokenOk(s.sent + [x], s.tokens, s.used, t) {
      assert TokenOk(s.sent, s.tokens, s.used, t);
    }
    forall id, t | Pending(s.callbacks, s.reqArgs, id, t) ensures Silent(s.sent + [x], s.tokens, s.used, t) {
      assert Silent(s.sent, s.tokens, s.used, t);
    }
  }

  /** How a progress message and the change of the token table that goes with it fit together. */
  ghost predicate Allows(tokens: map<ProgressToken, bool>, tokens': map<ProgressToken, bool>, t: ProgressToken, k: Kind) {
    t in tokens && match k
    case Begin => tokens' == tokens[t := true]
    case Report => tokens[t] && tokens' == tokens
    case End => tokens[t] && tokens' == tokens - {t}
  }

  lemma TokenAfterProgress(s: State, tokens': map<ProgressToken, bool>, t: ProgressToken, k: Kind, t': ProgressToken)
    requires TokenOk(s.sent, s.tokens, s.used, t') && Allows(s.tokens, tokens', t, k)
    ensures TokenOk(s.sent + [Progress(t, k)], tokens', s.used, t')
  {
    SentSnoc(s.sent, Progress(t, k), t');
    if t' == t {
      OneMoreKind(Emitted(s.sent, t), k);
      assert t in s.used && (k == End <==> t !in tokens');
    } else {
      assert Emitted(s.sent + [Progress(t, k)], t') == Emitted(s.sent, t');
      assert (t' in tokens' <==> t' in s.tokens) && (t' in tokens' ==> tokens'[t'] == s.tokens[t']);
    }
  }

  lemma OneMoreKind(e: seq<Kind>, k: Kind)
    requires Running(e) || (e == [] && k == Begin)
    ensures if k == End then Over(e + [k]) else Running(e + [k])
  {
    var f := e + [k];
    assert f[..|e|] == e && f[|e|] == k;
    if k != End {
      assert f[0] == Begin && forall i :: 0 <= i < |f| ==> f[i] != End;
    }
  }

  lemma ProgressMessage(s: State, tokens': map<ProgressToken, bool>, t: ProgressToken, k: Kind)
    requires TokensOk(s.sent, s.tokens, s.used) && PendingOk(s) && Allows(s.tokens, tokens', t, k)
    ensures TokensOk(s.sent + [Progress(t, k)], tokens', s.used)
    ensures PendingOk(s.(sent := s.sent + [Progress(t, k)], tokens := tokens'))
  {
    forall t' ensures TokenOk(s.sent + [Progress(t, k)], tokens', s.used, t') {
      TokenAfterProgress(s, tokens', t, k, t');
    }
    forall id, t' | Pending(s.callbacks, s.reqArgs, id, t')
      ensures Silent(s.sent + [Progress(t, k)], tokens', s.used, t')
    {
      assert Silent(s.sent, s.tokens, s.used, t');
      SentSnoc(s.sent, Progress(t, k), t');
    }
  }

  /** A silent token forgotten, as by an end that was never begun. */
  lemma Forget(s: State, t: ProgressToken)
    requires TokensOk(s.sent, s.tokens, s.used) && PendingOk(s) && t in s.tokens && !s.tokens[t]
    ensures TokensOk(s.sent, s.tokens - {t}, s.used) && PendingOk(s.(tokens := s.tokens - {t}))
  {
    forall t' ensures TokenOk(s.sent, s.tokens - {t}, s.used, t') {
      assert TokenOk(s.sent, s.tokens, s.used, t');
    }
    forall id, t' | Pending(s.callbacks, s.reqArgs, id, t') ensures Silent(s.sent, s.tokens - {t}, s.used, t') {
      assert Silent(s.sent, s.tokens, s.used, t');
    }
  }

  /** More identifiers drawn. */
  lemma Draw(s: State, x: string)
    requires TokensOk(s.sent, s.tokens, s.used) && PendingOk(s)
    ensures TokensOk(s.sent, s.tokens, s.used + {x}) && PendingOk(s.(used := s.used + {x}))
    ensures x !in s.used ==> x !in s.tokens && Emitted(s.sent, x) == [] && forall id :: !Pending(s.callbacks, s.reqArgs, id, x)
  {
    forall t ensures TokenOk(s.sent, s.tokens, s.used + {x}, t) {
      assert TokenOk(s.sent, s.tokens, s.used, t);
    }
    forall id, t | Pending(s.callbacks, s.reqArgs, id, t) ensures Silent(s.sent, s.tokens, s.used + {x}, t) {
      assert Silent(s.sent, s.tokens, s.used, t);
    }
    assert TokenOk(s.sent, s.tokens, s.used, x);
  }

  /** The arguments name a silent token that no pending request is about. */
  ghost predicate Unclaimed(s: State, args: Args) {
    && args.WorkDone? && Silent(s.sent, s.tokens, s.used, args.token)
    && forall id :: !Pending(s.callbacks, s.reqArgs, id, args.token)
  }

  /** One more request pending, for a token nobody else is to enable. */
  lemma OnePending(s: State, id: Id, args: Args, cb: Callback)
    requires PendingOk(s) && id !in s.reqArgs && id !in s.callbacks
    requires cb.EnableToken? ==> Unclaimed(s, args)
    ensures PendingOk(s.(callbacks := s.callbacks[id := cb], reqArgs := s.reqArgs[id := args]))
  {
    var c, r := s.callbacks[id := cb], s.reqArgs[id := args];
    forall id', t | Pending(c, r, id', t)
      ensures Silent(s.sent, s.tokens, s.used, t)
      ensures id' != id ==> Pending(s.callbacks, s.reqArgs, id', t)
    {
      assert id' != id ==> Pending(s.callbacks, s.reqArgs, id', t);
    }
  }

  lemma BindKeeps(s: State, id: Id, args: Args, cb: Callback, running: set<Id>)
    requires Inv(s, running) && id !in s.used
    requires cb.EnableToken? ==> Unclaimed(s, args)
    ensures Inv(Bind(s, id, args, cb), running)
  {
    OnePending(s, id, args, cb);
    var v := s.(callbacks := s.callbacks[id := cb], reqArgs := s.reqArgs[id := args]);
    OtherMessage(v, Request(id, args));
    Draw(v.(sent := v.sent + [Request(id, args)]), id);
  }

  lemma ProgressKeepsInv(s: State, t: ProgressToken, k: Kind, running: set<Id>)
    requires Inv(s, running)
    ensures Inv(Act(s, if k == Begin then BeginProgress(t) else ReportProgress(t)), running)
  {
    if t in s.tokens && k == Begin {
      ProgressMessage(s, s.tokens[t := true], t, Begin);
    } else if t in s.tokens && s.tokens[t] {
      ProgressMessage(s, s.tokens, t, Report);
    }
  }

  lemma EndKeepsInv(s: State, t: ProgressToken, running: set<Id>)
    requires Inv(s, running)
    ensures Inv(Act(s, EndProgress(t)), running)
  {
    if t in s.tokens {
      if s.tokens[t] {
        ProgressMessage(s, s.tokens - {t}, t, End);
      } else {
        Forget(s, t);
      }
    }
  }

  lemma ActKeepsInv(s: State, a: Action, running: set<Id>)
    requires Inv(s, running) && Drawable(s, a)
    ensures Inv(Act(s, a), running)
  {
    match a
    case SendRequest(id, p) => BindKeeps(s, id, OtherArgs(p), Custom, running);
    case CreateProgress(token, id) =>
      Draw(s, token);
      BindKeeps(s.(used := s.used + {token}), id, WorkDone(token), EnableToken, running);
    case BeginProgress(t) => ProgressKeepsInv(s, t, Begin, running);
    case ReportProgress(t) => ProgressKeepsInv(s, t, Report, running);
    case EndProgress(t) => EndKeepsInv(s, t, running);
    case Notify(name) => OtherMessage(s, Notification(name));
    case SetInitialized => LogSnoc(s.log, Initialized);
    case Shutdown => LogSnoc(s.log, ShutDown);
    case Exit =>
  }

  lemma {:induction false} ActAllKeepsInv(s: State, actions: seq<Action>, running: set<Id>)
    requires Inv(s, running) && DrawableAll(s, actions)
    ensures Inv(ActAll(s, actions), running)
    decreases |actions|
  {
    if actions != [] {
      ActKeepsInv(s, actions[0], running);
      ActAllKeepsInv(Act(s, actions[0]), actions[1..], running);
    }
  }

  lemma RanKeepsInv(s: State, fct: string)
    requires Inv(s, {}) && Filter(s, fct).None?
    ensures Inv(s.(log := s.log + [Ran(fct)]), {})
  {
    LogSnoc(s.log, Ran(fct));
  }

  lemma {:induction false} InvokeKeepsInv(cfg: Config, s: State, fct: string, script: Script)
    requires Inv(s, {}) && Playable(cfg, s, fct, script)
    ensures Inv(Invoke(cfg, s, fct, script).0, {})
    decreases script
  {
    if Filter(s, fct).None? && Bound(cfg, fct) {
      var t := s.(log := s.log + [Ran(fct)]);
      RanKeepsInv(s, fct);
      match script
      case Perform(actions, _) => ActAllKeepsInv(t, actions, {});
      case Execute(command, inner) => InvokeKeepsInv(cfg, t, command, inner);
    }
  }

  /** Taking the callback out leaves its arguments until it has run. */
  lemma ExtractKeepsInv(s: State, id: Id)
    requires Inv(s, {}) && id in s.callbacks
    ensures Inv(Extracted(s, id), {id})
    ensures id in Extracted(s, id).reqArgs && id !in Extracted(s, id).callbacks
  {
    var u := Extracted(s, id);
    LogSnoc(s.log, RanCallback(id));
    forall id', t | Pending(u.callbacks, u.reqArgs, id', t) ensures Pending(s.callbacks, s.reqArgs, id', t) {
    }
  }

  lemma FreeKeepsInv(s: State, id: Id, running: set<Id>)
    requires Inv(s, running) && running <= {id}
    ensures Inv(Freed(s, id), {})
    ensures id !in Freed(s, id).callbacks && id !in Freed(s, id).reqArgs
  {
    var u := Freed(s, id);
    forall id', t | Pending(u.callbacks, u.reqArgs, id', t) ensures Pending(s.callbacks, s.reqArgs, id', t) {
    }
  }

  /** The token of the request just answered becomes known, and is still silent. */
  lemma EnableKeepsInv(cfg: Config, s: State, id: Id)
    requires Inv(s, {}) && id in s.callbacks && s.callbacks[id].EnableToken?
    ensures CallbackReady(s, id)
    ensures Inv(EnabledToken(cfg, Extracted(s, id)), {id})
  {
    ExtractKeepsInv(s, id);
    var v := Extracted(s, id);
    var t := s.reqArgs[id].token;
    assert Pending(s.callbacks, s.reqArgs, id, t);
    assert Silent(s.sent, s.tokens, s.used, t);
    var u := EnabledToken(cfg, v);
    forall t' ensures TokenOk(u.sent, u.tokens, u.used, t') {
      assert TokenOk(v.sent, v.tokens, v.used, t');
    }
    forall id', t' | Pending(u.callbacks, u.reqArgs, id', t') ensures Silent(u.sent, u.tokens, u.used, t') {
      assert Pending(v.callbacks, v.reqArgs, id', t') && Pending(s.callbacks, s.reqArgs, id', t');
    }
  }

  /** Every callback the client may trigger finds its arguments. */
  lemma CallbacksAreReady(s: State, id: Id)
    requires Consistent(s.callbacks, s.reqArgs, s.used, {}) && id in s.callbacks
    ensures CallbackReady(s, id)
  {
  }

  ghost predicate PlayableResponse(s: State, raw: Message, script: Script) {
    var id := IdText(raw.id);
    id in s.callbacks && !raw.isError && s.callbacks[id].Custom? && script.Perform? ==>
      DrawableAll(Extracted(s, id), script.actions)
  }

  lemma ResponseKeepsInv(cfg: Config, s: State, raw: Message, script: Script)
    requires Inv(s, {}) && PlayableResponse(s, raw, script)
    requires IdText(raw.id) in s.callbacks ==> CallbackReady(s, IdText(raw.id))
    ensures var u := HandleResponse(cfg, s, raw, script);
      Inv(u, {}) && IdText(raw.id) !in u.callbacks && IdText(raw.id) !in u.reqArgs
  {
    var id := IdText(raw.id);
    if id !in s.callbacks {
      OtherMessage(s, Reply(raw.id, ErrorBody(InvalidRequest)));
    } else if raw.isError {
      FreeKeepsInv(s, id, {});
    } else {
      ExtractKeepsInv(s, id);
      var (t, called) := RunCallback(cfg, s, id, script);
      if s.callbacks[id].EnableToken? {
        EnableKeepsInv(cfg, s, id);
      } else if script.Perform? {
        ActAllKeepsInv(Extracted(s, id), script.actions, {id});
      }
      FreeKeepsInv(t, id, {id});
      if called.Rpc? {
        OtherMessage(Freed(t, id), Reply(raw.id, ErrorBody(called.code)));
      }
    }
  }

  /** What the environment respects in a round: identifiers drawn are fresh. */
  ghost predicate PlayableRound(cfg: Config, s: State, input: Input, script: Script) {
    input.Got? && !input.raw.empty && !input.raw.id.OtherId? ==>
      if input.raw.call.Some? then
        (input.raw.call.value in cfg.requests && input.raw.id.NoId?) || Playable(cfg, s, input.raw.call.value, script)
      else input.raw.id.NoId? || PlayableResponse(s, input.raw, script)
  }

  lemma RoundKeepsInv(cfg: Config, s: State, input: Input, script: Script)
    requires Inv(s, {}) && PlayableRound(cfg, s, input, script)
    ensures Inv(Round(cfg, s, input, script), {})
  {
    if input.Got? && !input.raw.empty {
      var raw := input.raw;
      if raw.id.OtherId? {
        OtherMessage(s, Reply(NoId, ErrorBody(InvalidRequest)));
      } else if raw.call.Some? {
        if raw.call.value !in cfg.requests || !raw.id.NoId? {
          var (t, called) := Invoke(cfg, s, raw.call.value, script);
          InvokeKeepsInv(cfg, s, raw.call.value, script);
          if called.Value? {
            OtherMessage(t, Reply(raw.id, ResultBody(called.p)));
          } else if called.Rpc? {
            OtherMessage(t, Reply(raw.id, ErrorBody(called.code)));
          }
        }
      } else if !raw.id.NoId? {
        ResponseKeepsInv(cfg, s, raw, script);
      }
    }
  }

  // -------------------------------------------------------------------- runs

  ghost predicate PlayableRun(cfg: Config, s: State, inputs: seq<(Input, Script)>)
    requires Inv(s, {})
    decreases |inputs|
  {
    inputs == [] || s.stopped ||
    (PlayableRound(cfg, s, inputs[0].0, inputs[0].1) &&
      (RoundKeepsInv(cfg, s, inputs[0].0, inputs[0].1);
       PlayableRun(cfg, Round(cfg, s, inputs[0].0, inputs[0].1), inputs[1..])))
  }

  /** The loop: round after round until the server stops or the input ends. */
  ghost function After(cfg: Config, s: State, inputs: seq<(Input, Script)>): State
    requires Inv(s, {}) && PlayableRun(cfg, s, inputs)
    decreases |inputs|
  {
    if inputs == [] || s.stopped then s
    else
      RoundKeepsInv(cfg, s, inputs[0].0, inputs[0].1);
      After(cfg, Round(cfg, s, inputs[0].0, inputs[0].1), inputs[1..])
  }

  lemma StartInv()
    ensures Inv(START, {})
  {
  }

  lemma {:induction false} RunKeepsInv(cfg: Config, s: State, inputs: seq<(Input, Script)>)
    requires Inv(s, {}) && PlayableRun(cfg, s, inputs)
    ensures Inv(After(cfg, s, inputs), {})
    decreases |inputs|
  {
    if inputs != [] && !s.stopped {
      RoundKeepsInv(cfg, s, inputs[0].0, inputs[0].1);
      RunKeepsInv(cfg, Round(cfg, s, inputs[0].0, inputs[0].1), inputs[1..]);
    }
  }

  /** A run of a new server. */
  ghost predicate PlayableFromStart(cfg: Config, inputs: seq<(Input, Script)>) {
    StartInv();
    PlayableRun(cfg, START, inputs)
  }

  ghost function Served(cfg: Config, inputs: seq<(Input, Script)>): State
    requires PlayableFromStart(cfg, inputs)
  {
    StartInv();
    After(cfg, START, inputs)
  }

  /** Over every run: each token's progress messages follow the protocol, no callback runs twice,
      the callback tables match, and handlers run only when the lifecycle lets them. */
  lemma EveryRunIsOrderly(cfg: Config, inputs: seq<(Input, Script)>)
    requires PlayableFromStart(cfg, inputs)
    ensures var s := Served(cfg, inputs);
      && (forall t :: ProgressOk(Emitted(s.sent, t)))
      && (forall i, j :: 0 <= i < j < |RanIds(s.log)| ==> RanIds(s.log)[i] != RanIds(s.log)[j])
      && s.callbacks.Keys == s.reqArgs.Keys
      && LifecycleOk(s.log)
  {
    StartInv();
    RunKeepsInv(cfg, START, inputs);
    var s := Served(cfg, inputs);
    forall t ensures ProgressOk(Emitted(s.sent, t)) {
      assert TokenOk(s.sent, s.tokens, s.used, t);
    }
  }

  // ----------------------------------------------------------------- replies

  function Replies(sent: seq<Sent>): seq<Sent> {
    if sent == [] then []
    else
      var last := sent[|sent| - 1];
      Replies(sent[..|sent| - 1]) + (if last.Reply? then [last] else [])
  }

  lemma OtherIsNoReply(sent: seq<Sent>, x: Sent)
    requires !x.Reply?
    ensures Replies(sent + [x]) == Replies(sent)
  {
    RepliesSnoc(sent, x);
  }

  lemma RepliesSnoc(sent: seq<Sent>, x: Sent)
    ensures Replies(sent + [x]) == if x.Reply? then Replies(sent) + [x] else Replies(sent)
  {
    assert (sent + [x])[..|sent|] == sent;
    assert Replies(sent) + [] == Replies(sent);
  }

  lemma {:induction false} ActionsDoNotReply(s: State, actions: seq<Action>)
    ensures Replies(ActAll(s, actions).sent) == Replies(s.sent)
    decreases |actions|
  {
    if actions != [] {
      ActionDoesNotReply(s, actions[0]);
      ActionsDoNotReply(Act(s, actions[0]), actions[1..]);
    }
  }

  /** What an action sends, if anything, is no reply. */
  lemma ActionSends(s: State, a: Action) returns (x: Sent)
    ensures Act(s, a).sent == s.sent || (!x.Reply? && Act(s, a).sent == s.sent + [x])
  {
    x := match a
      case SendRequest(id, p) => Request(id, OtherArgs(p))
      case CreateProgress(token, id) => Request(id, WorkDone(token))
      case BeginProgress(t) => Progress(t, Begin)
      case ReportProgress(t) => Progress(t, Report)
      case EndProgress(t) => Progress(t, End)
      case Notify(name) => Notification(name)
      case _ => Notification("");
  }

  lemma ActionDoesNotReply(s: State, a: Action)
    ensures Replies(Act(s, a).sent) == Replies(s.sent)
  {
    var x := ActionSends(s, a);
    if Act(s, a).sent != s.sent {
      OtherIsNoReply(s.sent, x);
    }
  }

  lemma {:induction false} InvokeDoesNotReply(cfg: Config, s: State, fct: string, script: Script)
    ensures Replies(Invoke(cfg, s, fct, script).0.sent) == Replies(s.sent)
    decreases script
  {
    if Filter(s, fct).None? && Bound(cfg, fct) {
      var t := s.(log := s.log + [Ran(fct)]);
      match script
      case Perform(actions, _) => ActionsDoNotReply(t, actions);
      case Execute(command, inner) => InvokeDoesNotReply(cfg, t, command, inner);
    }
  }

  /** The id a reply to a message carries: the message's own, unless it is of no usable kind. */
  function OwnId(raw: Message): RawId {
    if raw.id.OtherId? then NoId else raw.id
  }

  /** Each input causes at most one reply, with its own id; messages without id cause none. */
  lemma AtMostOneReply(cfg: Config, s: State, input: Input, script: Script)
    requires Consistent(s.callbacks, s.reqArgs, s.used, {})
    ensures var before, after := Replies(s.sent), Replies(Round(cfg, s, input, script).sent);
      after == before
      || (input.Got? && !input.raw.id.NoId? && exists body :: after == before + [Reply(OwnId(input.raw), body)])
  {
    if input.Got? && !input.raw.empty {
      var raw := input.raw;
      if raw.id.OtherId? {
        RepliesSnoc(s.sent, Reply(NoId, ErrorBody(InvalidRequest)));
        assert Replies(Round(cfg, s, input, script).sent) == Replies(s.sent) + [Reply(OwnId(raw), ErrorBody(InvalidRequest))];
      } else if raw.call.Some? {
        CallReplies(cfg, s, raw, script);
      } else if !raw.id.NoId? {
        ResponseReplies(cfg, s, raw, script);
      }
    }
  }

  lemma CallReplies(cfg: Config, s: State, raw: Message, script: Script)
    requires raw.call.Some?
    ensures var before, after := Replies(s.sent), Replies(HandleCall(cfg, s, raw, script).sent);
      after == before || (!raw.id.NoId? && exists body :: after == before + [Reply(raw.id, body)])
  {
    var (t, called) := Invoke(cfg, s, raw.call.value, script);
    var after := Replies(HandleCall(cfg, s, raw, script).sent);
    InvokeDoesNotReply(cfg, s, raw.call.value, script);
    if called.Value? && !raw.id.NoId? && raw.call.value in cfg.requests {
      RepliesSnoc(t.sent, Reply(raw.id, ResultBody(called.p)));
      assert after == Replies(s.sent) + [Reply(raw.id, ResultBody(called.p))];
    } else if called.Rpc? && !raw.id.NoId? {
      RepliesSnoc(t.sent, Reply(raw.id, ErrorBody(called.code)));
      assert after == Replies(s.sent) + [Reply(raw.id, ErrorBody(called.code))];
    }
  }

  lemma ResponseReplies(cfg: Config, s: State, raw: Message, script: Script)
    requires IdText(raw.id) in s.callbacks ==> CallbackReady(s, IdText(raw.id))
    ensures var before, after := Replies(s.sent), Replies(HandleResponse(cfg, s, raw, script).sent);
      after == before || exists body :: after == before + [Reply(raw.id, body)]
  {
    var id := IdText(raw.id);
    if id !in s.callbacks {
      RepliesSnoc(s.sent, Reply(raw.id, ErrorBody(InvalidRequest)));
      assert Replies(HandleResponse(cfg, s, raw, script).sent) == Replies(s.sent) + [Reply(raw.id, ErrorBody(InvalidRequest))];
    } else if !raw.isError {
      var (t, called) := RunCallback(cfg, s, id, script);
      if s.callbacks[id].Custom? && script.Perform? {
        ActionsDoNotReply(Extracted(s, id), script.actions);
      }
      assert Replies(t.sent) == Replies(s.sent);
      if called.Rpc? {
        RepliesSnoc(t.sent, Reply(raw.id, ErrorBody(called.code)));
        assert Replies(HandleResponse(cfg, s, raw, script).sent) == Replies(s.sent) + [Reply(raw.id, ErrorBody(called.code))];
      }
    }
  }

  /** The outcome of the last command a script hands over to. */
  function Innermost(script: Script): Outcome {
    match script
    case Perform(_, outcome) => outcome
    case Execute(_, inner) => Innermost(inner)
  }

  /** A call ends without result or error only when a handler raised a server-side exception. */
  lemma {:induction false} SilentOnlyOnServerSide(cfg: Config, s: State, fct: string, script: Script)
    requires Invoke(cfg, s, fct, script).1.ServerSide?
    ensures Filter(s, fct).None? && Bound(cfg, fct) && Innermost(script).RaisesServerSide?
    decreases script
  {
    if script.Execute? {
      SilentOnlyOnServerSide(cfg, s.(log := s.log + [Ran(fct)]), script.command, script.inner);
    }
  }

  /** A bound request with an id is answered exactly once, by a result or an error, unless its
      handler raised a server-side exception; then it is not answered at all. */
  lemma RequestsAnsweredExactly(cfg: Config, s: State, raw: Message, script: Script)
    requires Consistent(s.callbacks, s.reqArgs, s.used, {})
    requires !raw.empty && (raw.id.StrId? || raw.id.NumId?) && raw.call.Some? && raw.call.value in cfg.requests
    ensures var called := Invoke(cfg, s, raw.call.value, script).1;
      var before, after := Replies(s.sent), Replies(Round(cfg, s, Got(raw), script).sent);
      && !called.Nothing?
      && (called.Value? ==> after == before + [Reply(raw.id, ResultBody(called.p))])
      && (called.Rpc? ==> after == before + [Reply(raw.id, ErrorBody(called.code))])
      && (called.ServerSide? ==> after == before && Innermost(script).RaisesServerSide?)
  {
    var (t, called) := Invoke(cfg, s, raw.call.value, script);
    InvokeDoesNotReply(cfg, s, raw.call.value, script);
    if called.Value? {
      RepliesSnoc(t.sent, Reply(raw.id, ResultBody(called.p)));
    } else if called.Rpc? {
      RepliesSnoc(t.sent, Reply(raw.id, ErrorBody(called.code)));
    } else if called.ServerSide? {
      SilentOnlyOnServerSide(cfg, s, raw.call.value, script);
    }
  }

  lemma LogGrowsBy(s: State, a: Action)
    ensures s.log <= Act(s, a).log
  {
  }

  lemma {:induction false} LogGrowsByActions(s: State, actions: seq<Action>)
    ensures s.log <= ActAll(s, actions).log
    decreases |actions|
  {
    if actions != [] {
      LogGrowsBy(s, actions[0]);
      LogGrowsByActions(Act(s, actions[0]), actions[1..]);
    }
  }

  lemma {:induction false} LogGrows(cfg: Config, s: State, fct: string, script: Script)
    ensures s.log <= Invoke(cfg, s, fct, script).0.log
    ensures Filter(s, fct).None? && Bound(cfg, fct) ==> s.log + [Ran(fct)] <= Invoke(cfg, s, fct, script).0.log
    decreases script
  {
    var t := s.(log := s.log + [Ran(fct)]);
    match script
    case Perform(actions, _) => LogGrowsByActions(t, actions);
    case Execute(command, inner) => LogGrows(cfg, t, command, inner);
  }

  /** The error that keeps a call from its handler: too early, too late, or nobody to handle it. */
  function Refusal(cfg: Config, s: State, fct: string): Option<ErrorCode> {
    if !s.initialized && fct != "initialize" then Some(NotInitialized)
    else if s.initialized && s.stopping && fct != "exit" then Some(InvalidRequest)
    else if fct !in cfg.requests && fct !in cfg.notifs then Some(MethodNotFound)
    else None
  }

  /** A call with an id runs its handler exactly when it is not refused; a refusal is answered by its
      error and changes nothing else. */
  lemma HandledExactly(cfg: Config, s: State, raw: Message, script: Script)
    requires Consistent(s.callbacks, s.reqArgs, s.used, {})
    requires !raw.empty && (raw.id.StrId? || raw.id.NumId?) && raw.call.Some?
    ensures var refusal, after := Refusal(cfg, s, raw.call.value), Round(cfg, s, Got(raw), script);
      && (refusal.None? <==> s.log + [Ran(raw.call.value)] <= after.log)
      && (refusal.Some? ==> after == s.(sent := s.sent + [Reply(raw.id, ErrorBody(refusal.value))]))
  {
    if Refusal(cfg, s, raw.call.value).Some? {
      RefusedCall(cfg, s, raw, script);
    } else {
      AcceptedCall(cfg, s, raw, script);
    }
  }

  lemma RefusedCall(cfg: Config, s: State, raw: Message, script: Script)
    requires Consistent(s.callbacks, s.reqArgs, s.used, {})
    requires !raw.empty && (raw.id.StrId? || raw.id.NumId?) && raw.call.Some? && Refusal(cfg, s, raw.call.value).Some?
    ensures Round(cfg, s, Got(raw), script)
         == s.(sent := s.sent + [Reply(raw.id, ErrorBody(Refusal(cfg, s, raw.call.value).value))])
  {
  }

  lemma AcceptedCall(cfg: Config, s: State, raw: Message, script: Script)
    requires Consistent(s.callbacks, s.reqArgs, s.used, {})
    requires !raw.empty && (raw.id.StrId? || raw.id.NumId?) && raw.call.Some? && Refusal(cfg, s, raw.call.value).None?
    ensures s.log + [Ran(raw.call.value)] <= Round(cfg, s, Got(raw), script).log
  {
    LogGrows(cfg, s, raw.call.value, script);
    LogOfCall(cfg, s, raw, script);
  }

  /** The reply changes nothing in the log. */
  lemma LogOfCall(cfg: Config, s: State, raw: Message, script: Script)
    requires !raw.id.NoId? && raw.call.Some?
    ensures HandleCall(cfg, s, raw, script).log == Invoke(cfg, s, raw.call.value, script).0.log
  {
    var (t, called) := Invoke(cfg, s, raw.call.value, script);
    TellingLogsNothing(t, raw.id, called);
  }

  lemma TellingLogsNothing(t: State, id: RawId, called: Called)
    ensures Told(t, id, called).log == t.log
  {
  }

  /** Over a run there are never more replies than inputs. */
  lemma {:induction false} NoMoreRepliesThanInputs(cfg: Config, s: State, inputs: seq<(Input, Script)>)
    requires Inv(s, {}) && PlayableRun(cfg, s, inputs)
    ensures |Replies(After(cfg, s, inputs).sent)| <= |Replies(s.sent)| + |inputs|
    decreases |inputs|
  {
    if inputs != [] && !s.stopped {
      RoundKeepsInv(cfg, s, inputs[0].0, inputs[0].1);
      AtMostOneReply(cfg, s, inputs[0].0, inputs[0].1);
      NoMoreRepliesThanInputs(cfg, Round(cfg, s, inputs[0].0, inputs[0].1), inputs[1..]);
    }
  }
}

/** The server object. */
module LspServer {
  import opened ServerModel

  class BaseLSP {
    const config: Config
    var isInitialized: bool
    var isStopping: bool
    var isStopped: bool
    var boundCallbacks: map<Id, Callback>
    var activeReqArgs: map<Id, Args>
    var activeProgressTokens: map<string, bool>
    var currentCbId: Id
    var sent: seq<Sent>             // everything handed to the transport
    ghost var log: seq<Event>
    ghost var used: set<string>

    ghost function Current(): State
      reads this
    {
      State(isInitialized, isStopping, isStopped, boundCallbacks, activeReqArgs, activeProgressTokens,
            currentCbId, sent, log, used)
    }

    constructor (cfg: Config)
      ensures config == cfg && Current() == START && Inv(Current(), {})
    {
      config := cfg;
      isInitialized, isStopping, isStopped := false, false, false;
      boundCallbacks, activeReqArgs, activeProgressTokens, currentCbId := map[], map[], map[], "";
      sent, log, used := [], [], {};
      new;
      StartInv();
    }

    method SendRequestTo(id: Id, args: Args, cb: Callback)
      modifies this
      ensures Current() == Bind(old(Current()), id, args, cb)
    {
      if id !in activeReqArgs {
        activeReqArgs := activeReqArgs[id := args];
      }
      boundCallbacks := boundCallbacks[id := cb];
      sent := sent + [Request(id, args)];
      used := used + {id};
    }

    /** One thing a handler does. */
    method Do(a: Action)
      modifies this
      ensures Current() == Act(old(Current()), a)
    {
      match a {
        case SendRequest(id, p) => SendRequestTo(id, OtherArgs(p), Custom);
        case CreateProgress(token, id) =>
          used := used + {token};
          SendRequestTo(id, WorkDone(token), EnableToken);
        case BeginProgress(t) =>
          if t in activeProgressTokens {
            sent := sent + [Progress(t, Begin)];
            activeProgressTokens := activeProgressTokens[t := true];
          }
        case ReportProgress(t) =>
          if t in activeProgressTokens && activeProgressTokens[t] {
            sent := sent + [Progress(t, Report)];
          }
        case EndProgress(t) =>
          if t in activeProgressTokens && activeProgressTokens[t] {
            sent := sent + [Progress(t, End)];
          }
          if t in activeProgressTokens {
            activeProgressTokens := activeProgressTokens - {t};
          }
        case Notify(name) => sent := sent + [Notification(name)];
        case SetInitialized => isInitialized := true; log := log + [Initialized];
        case Shutdown => isStopping := true; log := log + [ShutDown];
        case Exit => isStopped := true;
      }
    }

    method DoAll(actions: seq<Action>)
      modifies this
      ensures Current() == ActAll(old(Current()), actions)
    {
      ghost var s := Current();
      for i := 0 to |actions|
        invariant ActAll(Current(), actions[i..]) == ActAll(s, actions)
      {
        assert actions[i..][0] == actions[i] && actions[i..][1..] == actions[i + 1..];
        Do(actions[i]);
      }
      assert actions[|actions|..] == [];
    }

    method Call(fct: string, script: Script) returns (called: Called)
      modifies this
      ensures (Current(), called) == Invoke(config, old(Current()), fct, script)
      decreases script
    {
      if !isInitialized {
        if fct != "initialize" {
          return Rpc(NotInitialized);
        }
      } else if isStopping {
        if fct != "exit" {
          return Rpc(InvalidRequest);
        }
      }
      if fct !in config.requests && fct !in config.notifs {
        return Rpc(MethodNotFound);
      }
      log := log + [Ran(fct)];
      match script {
        case Perform(actions, outcome) =>
          DoAll(actions);
          called := Finish(outcome);
        case Execute(command, inner) =>
          called := Call(command, inner);
          if called.Nothing? {
            called := Value("null");
          }
      }
      if called.Value? && fct !in config.requests {
        called := Nothing;
      }
    }

    /** Runs the callback of an answered request; the guard frees both tables whatever happens. */
    method RunGuarded(id: Id, script: Script) returns (called: Called)
      requires CallbackReady(Current(), id)
      modifies this
      ensures var (t, c) := RunCallback(config, old(Current()), id, script);
        Current() == Freed(t, id) && called == c
    {
      var cb := boundCallbacks[id];
      boundCallbacks := boundCallbacks - {id};
      currentCbId := id;
      log := log + [RanCallback(id)];
      called := Nothing;
      if cb.EnableToken? {
        var token := activeReqArgs[currentCbId].token;
        if config.clientProgress && token !in activeProgressTokens {
          activeProgressTokens := activeProgressTokens[token := false];
        }
      } else if script.Perform? {
        DoAll(script.actions);
        if !script.outcome.Returns? {
          called := Finish(script.outcome);
        }
      }
      boundCallbacks := boundCallbacks - {id};
      activeReqArgs := activeReqArgs - {id};
    }

    /** One round of the loop. */
    method HandleInput(input: Input, script: Script)
      requires Inv(Current(), {}) && PlayableRound(config, Current(), input, script)
      modifies this
      ensures Current() == Round(config, old(Current()), input, script) && Inv(Current(), {})
    {
      RoundKeepsInv(config, Current(), input, script);
      if input.Got? && !input.raw.empty {
        HandleMessage(input.raw, script);
      }
    }

    /** A message that is not empty: what is done about it, and then the reply if there is one. */
    method HandleMessage(raw: Message, script: Script)
      requires !raw.empty && Consistent(boundCallbacks, activeReqArgs, used, {})
      modifies this
      ensures Current() == Round(config, old(Current()), Got(raw), script)
    {
      var requireSend, body := true, ErrorBody(InvalidRequest);
      if raw.id.OtherId? || (raw.call.None? && raw.id.NoId?) {
      } else if raw.call.Some? {
        if raw.call.value !in config.requests || !raw.id.NoId? {
          var called := Call(raw.call.value, script);
          requireSend, body := Answer(called);
        }
      } else if IdText(raw.id) in boundCallbacks {
        CallbacksAreReady(Current(), IdText(raw.id));
        requireSend, body := AcceptResponse(IdText(raw.id), raw.isError, script);
      }
      if requireSend && !raw.id.NoId? {
        sent := sent + [Reply(OwnId(raw), body)];
      }
    }

    /** Whether and how a call is answered. */
    method Answer(called: Called) returns (requireSend: bool, body: Body)
      ensures requireSend <==> called.Value? || called.Rpc?
      ensures called.Value? ==> body == ResultBody(called.p)
      ensures called.Rpc? ==> body == ErrorBody(called.code)
    {
      requireSend := called.Value? || called.Rpc?;
      body := if called.Value? then ResultBody(called.p)
              else ErrorBody(if called.Rpc? then called.code else InvalidRequest);
    }

    /** A response to one of the server's own requests. */
    method AcceptResponse(id: Id, isError: bool, script: Script) returns (requireSend: bool, body: Body)
      requires CallbackReady(Current(), id)
      modifies this
      ensures isError ==> Current() == Freed(old(Current()), id) && !requireSend
      ensures !isError ==>
        var (t, c) := RunCallback(config, old(Current()), id, script);
        Current() == Freed(t, id) && (requireSend <==> c.Rpc?) && (c.Rpc? ==> body == ErrorBody(c.code))
    {
      if isError {
        boundCallbacks := boundCallbacks - {id};
        activeReqArgs := activeReqArgs - {id};
        return false, ErrorBody(InvalidRequest);
      }
      var called := RunGuarded(id, script);
      requireSend, body := called.Rpc?, ErrorBody(if called.Rpc? then called.code else InvalidRequest);
    }

    /** The loop. */
    method Serve(inputs: seq<(Input, Script)>)
      requires Inv(Current(), {}) && PlayableRun(config, Current(), inputs)
      modifies this
      ensures Inv(Current(), {}) && Current() == After(config, old(Current()), inputs)
    {
      ghost var s := Current();
      var i := 0;
      while i < |inputs| && !isStopped
        invariant i <= |inputs| && Inv(Current(), {})
        invariant PlayableRun(config, Current(), inputs[i..])
        invariant After(config, Current(), inputs[i..]) == After(config, s, inputs)
        decreases |inputs| - i
      {
        assert inputs[i..][0] == inputs[i] && inputs[i..][1..] == inputs[i + 1..];
        HandleInput(inputs[i].0, inputs[i].1);
        i := i + 1;
      }
    }
  }
}
