/** Diagnostics on their way to the editor: what the server holds for each document, what it
    publishes, and what the editor shows as a result. */
module DiagnosticModel {
  import opened Wrappers

  type Uri = string

  datatype Related = Related(uri: Uri, message: string)

  datatype Diagnostic = Diagnostic(message: string, related: seq<Related>)

  /** The parameters of a publication: they replace what the editor had for the document. */
  datatype Publish = Publish(uri: Uri, diagnostics: seq<Diagnostic>)

  type Store = map<Uri, Publish>

  type View = map<Uri, seq<Diagnostic>>

  // ------------------------------------------------------------------ editor

  function Show(view: View, p: Publish): View {
    if p.diagnostics == [] then view - {p.uri} else view[p.uri := p.diagnostics]
  }

  /** What the editor shows after some publications. */
  function Shown(sent: seq<Publish>): View {
    if sent == [] then map[] else Show(Shown(sent[..|sent| - 1]), sent[|sent| - 1])
  }

  lemma ShownSnoc(sent: seq<Publish>, p: Publish)
    ensures Shown(sent + [p]) == Show(Shown(sent), p)
  {
    assert (sent + [p])[..|sent|] == sent;
  }

  // ------------------------------------------------------------------ server

  /** What the server has to say, document by document. */
  function Live(store: Store): View {
    map u | u in store && store[u].diagnostics != [] :: store[u].diagnostics
  }

  predicate Keyed(store: Store) {
    forall u :: u in store ==> store[u].uri == u
  }

  function Reported(store: Store, uri: Uri, d: Diagnostic): Store {
    store[uri := if uri in store then store[uri].(diagnostics := store[uri].diagnostics + [d]) else Publish(uri, [d])]
  }

  function Emptied(store: Store): Store {
    map u | u in store :: store[u].(diagnostics := [])
  }

  /** A new client starts from the documents of the previous one, without their diagnostics. */
  function Rebuilt(store: Store): Store {
    map u | u in store :: Publish(u, [])
  }

  function Cleaned(store: Store): Store {
    map u | u in store && store[u].diagnostics != [] :: store[u]
  }

  function RenamedRelated(r: Related, old_: Uri, new_: Uri): Related {
    if r.uri == old_ then r.(uri := new_) else r
  }

  function RenamedDiagnostic(d: Diagnostic, old_: Uri, new_: Uri): Diagnostic {
    d.(related := seq(|d.related|, i requires 0 <= i < |d.related| => RenamedRelated(d.related[i], old_, new_)))
  }

  function RenamedAll(ds: seq<Diagnostic>, old_: Uri, new_: Uri): seq<Diagnostic> {
    seq(|ds|, i requires 0 <= i < |ds| => RenamedDiagnostic(ds[i], old_, new_))
  }

  function Renamed(p: Publish, old_: Uri, new_: Uri): Publish {
    Publish(if p.uri == old_ then new_ else p.uri, RenamedAll(p.diagnostics, old_, new_))
  }

  /** The entry under its new key, unless that key is taken: then the entry is dropped. */
  function Moved(store: Store, old_: Uri, new_: Uri): Store
    requires old_ in store
  {
    if new_ in store then store - {old_} else (store - {old_})[new_ := store[old_]]
  }

  function Remapped(store: Store, old_: Uri, new_: Uri): Store {
    if old_ == new_ || old_ !in store then store
    else
      var m := Moved(store, old_, new_);
      (map u | u in m :: Renamed(m[u], old_, new_))[old_ := Publish(old_, [])]
  }

  /** A follow-up goes to the diagnostic reported last for the document, if there is one. */
  function Attached(store: Store, uri: Uri, r: Related): Store {
    if uri !in store || store[uri].diagnostics == [] then store
    else
      var ds := store[uri].diagnostics;
      var d := ds[|ds| - 1];
      store[uri := store[uri].(diagnostics := ds[..|ds| - 1] + [d.(related := d.related + [r])])]
  }

  // ------------------------------------------------------- the last report

  /** What the pointer to the last publication points to: nothing, the entry of a document, or no
      entry any more, as in a new client, which does not set it. */
  datatype Last = Nobody | At(uri: Uri) | Gone

  datatype Session = Session(store: Store, last: Last)

  predicate Sound(s: Session) {
    s.last.At? ==> s.last.uri in s.store
  }

  /** A report without a location is dropped, with its follow-ups; an ignored one is dropped alone. */
  function NewReport(s: Session, located: bool, ignored: bool, uri: Uri, d: Diagnostic): Session {
    if !located then s.(last := Nobody)
    else if ignored then s
    else Session(Reported(s.store, uri, d), At(uri))
  }

  /** None stands for reading a pointer that points to no entry, which has no defined meaning. */
  function FollowUp(s: Session, r: Related): Option<Session> {
    if s.last.Gone? then None
    else if s.last.Nobody? then Some(s)
    else Some(s.(store := Attached(s.store, s.last.uri, r)))
  }

  function FollowUps(s: Session, rs: seq<Related>): Option<Session> {
    if rs == [] then Some(s)
    else
      match FollowUps(s, rs[..|rs| - 1])
      case None => None
      case Some(t) => FollowUp(t, rs[|rs| - 1])
  }

  /** The pointer follows its entry to a new key, and is lost with an entry that is dropped. */
  function LastRemapped(s: Session, old_: Uri, new_: Uri): Last {
    if old_ == new_ || old_ !in s.store || s.last != At(old_) then s.last
    else if new_ in s.store then Gone else At(new_)
  }

  function LastCleaned(s: Session): Last {
    if s.last.At? && s.last.uri !in Cleaned(s.store) then Gone else s.last
  }

  /** Only cleaning an empty entry, and renaming an entry onto another one, lose the last report. */
  lemma LastLostExactly(s: Session, old_: Uri, new_: Uri)
    requires Sound(s) && s.last.At?
    ensures Sound(Session(Remapped(s.store, old_, new_), LastRemapped(s, old_, new_)))
    ensures LastRemapped(s, old_, new_).Gone? <==> s.last.uri == old_ && old_ != new_ && new_ in s.store
    ensures Sound(Session(Cleaned(s.store), LastCleaned(s)))
    ensures LastCleaned(s).Gone? <==> s.store[s.last.uri].diagnostics == []
  {
  }

  lemma OneMoreFollowUp(store: Store, uri: Uri, p: Publish, d: Diagnostic, r: Related)
    ensures Attached(store[uri := p.(diagnostics := p.diagnostics + [d])], uri, r)
         == store[uri := p.(diagnostics := p.diagnostics + [d.(related := d.related + [r])])]
  {
    assert (p.diagnostics + [d])[..|p.diagnostics|] == p.diagnostics;
  }

  /** The follow-ups of a report are attached to it, all of them in order, and to nothing else. */
  lemma {:induction false} FollowUpsAttach(s: Session, uri: Uri, d: Diagnostic, rs: seq<Related>)
    ensures var before := if uri in s.store then s.store[uri] else Publish(uri, []);
      FollowUps(NewReport(s, true, false, uri, d), rs)
      == Some(Session(s.store[uri := before.(diagnostics := before.diagnostics + [d.(related := d.related + rs)])], At(uri)))
    decreases |rs|
  {
    if rs == [] {
      assert d.related + [] == d.related;
      assert [] + [d] == [d];
    } else {
      var n := |rs| - 1;
      FollowUpsAttach(s, uri, d, rs[..n]);
      var before := if uri in s.store then s.store[uri] else Publish(uri, []);
      OneMoreFollowUp(s.store, uri, before, d.(related := d.related + rs[..n]), rs[n]);
      assert (d.related + rs[..n]) + [rs[n]] == d.related + rs;
    }
  }

  /** The follow-up of an ignored report is attached to the report before it, which it has nothing to
      do with; that of a report without a location is dropped. */
  lemma FollowUpOfDropped(s: Session, uri: Uri, d: Diagnostic, dropped: Diagnostic, uri': Uri, located: bool, r: Related)
    ensures var t := NewReport(s, true, false, uri, d);
      var u := NewReport(t, located, true, uri', dropped);
      FollowUp(u, r) == if located then FollowUps(t, [r]) else Some(t.(last := Nobody))
  {
    assert [r][..0] == [];
  }

  // ------------------------------------------------------------ what is kept

  /** Everything the editor still shows is known to the server, under its own name. */
  predicate Tracked(store: Store, sent: seq<Publish>) {
    Keyed(store) && Shown(sent).Keys <= store.Keys
  }

  /** Diagnostics held for one document. */
  function Count(store: Store, u: Uri): nat {
    if u in store then |store[u].diagnostics| else 0
  }

  /** Renaming a document moves its diagnostics and keeps their number exactly when the new name
      is not taken, or there was nothing to move. */
  lemma RemapLosesExactly(store: Store, old_: Uri, new_: Uri)
    requires Keyed(store)
    ensures var r := Remapped(store, old_, new_);
      && Keyed(r)
      && (Count(r, old_) + Count(r, new_) == Count(store, old_) + Count(store, new_)
          <==> old_ == new_ || old_ !in store || new_ !in store || Count(store, old_) == 0)
      && (forall u :: u != old_ && u != new_ ==> Count(r, u) == Count(store, u) && (u in r <==> u in store))
  {
  }

  /** Renaming a document: every entry keeps its diagnostics, in number, order and text, and their
      follow-ups; only the mentions of the old name become the new one. The renamed document's own
      diagnostics move to the new name, and an empty entry stays at the old one. */
  lemma RenamedExactly(store: Store, old_: Uri, new_: Uri)
    requires Keyed(store) && old_ in store && new_ !in store
    ensures var r := Remapped(store, old_, new_);
      && r.Keys == store.Keys + {new_} && r[old_] == Publish(old_, []) && r[new_].uri == new_
      && SameButNames(store[old_].diagnostics, r[new_].diagnostics, old_, new_)
      && forall u :: u in store && u != old_ ==> r[u].uri == u && SameButNames(store[u].diagnostics, r[u].diagnostics, old_, new_)
  {
  }

  ghost predicate SameButNames(before: seq<Diagnostic>, after: seq<Diagnostic>, old_: Uri, new_: Uri) {
    |after| == |before| && forall i :: 0 <= i < |before| ==> SameButName(before[i], after[i], old_, new_)
  }

  ghost predicate SameButName(before: Diagnostic, after: Diagnostic, old_: Uri, new_: Uri) {
    && after.message == before.message && |after.related| == |before.related|
    && forall j :: 0 <= j < |before.related| ==>
         && after.related[j].message == before.related[j].message
         && after.related[j].uri == (if before.related[j].uri == old_ then new_ else before.related[j].uri)
  }

  /** Onto a name that has an entry, the moved diagnostics are dropped and those of the name stay. */
  lemma RenamedOntoExactly(store: Store, old_: Uri, new_: Uri)
    requires Keyed(store) && old_ in store && new_ in store && old_ != new_
    ensures var r := Remapped(store, old_, new_);
      && r.Keys == store.Keys && r[old_] == Publish(old_, [])
      && forall u :: u in store && u != old_ ==> r[u].uri == u && SameButNames(store[u].diagnostics, r[u].diagnostics, old_, new_)
  {
  }

  /** Renaming back and forth loses the diagnostics: the way back finds the empty entry. */
  lemma RenamingBackLoses(store: Store, old_: Uri, new_: Uri)
    requires Keyed(store) && old_ in store && new_ !in store
    ensures var r := Remapped(Remapped(store, old_, new_), new_, old_);
      old_ in r && r[old_].diagnostics == [] && new_ in r && r[new_].diagnostics == []
  {
  }

  /** The editor's view while some of the entries have been published. */
  function Midway(view: View, store: Store, done: set<Uri>): View {
    map u | u in view.Keys + store.Keys && (if u in done then u in store && store[u].diagnostics != [] else u in view) ::
      if u in done && u in store then store[u].diagnostics else if u in view then view[u] else []
  }

  lemma PublishOne(view: View, store: Store, done: set<Uri>, u: Uri)
    requires Keyed(store) && u in store && u !in done
    ensures Show(Midway(view, store, done), store[u]) == Midway(view, store, done + {u})
  {
    var a, b := Show(Midway(view, store, done), store[u]), Midway(view, store, done + {u});
    assert forall v :: v in a <==> v in b;
    assert forall v :: v in a ==> a[v] == b[v];
  }

  lemma MidwayEnds(view: View, store: Store)
    requires view.Keys <= store.Keys
    ensures Midway(view, store, {}) == view && Midway(view, store, store.Keys) == Live(store)
  {
    assert Midway(view, store, {}).Keys == view.Keys;
  }

  lemma OneMorePublication(sent: seq<Publish>, store: Store, order: seq<Uri>)
    requires order != [] && forall i :: 0 <= i < |order| ==> order[i] in store
    ensures var n := |order| - 1;
      && sent + Publications(store, order) == (sent + Publications(store, order[..n])) + [store[order[n]]]
      && (set u | u in order) == (set u | u in order[..n]) + {order[n]}
  {
    assert order == order[..|order| - 1] + [order[|order| - 1]];
  }

  lemma {:induction false} PublishAll(sent: seq<Publish>, store: Store, order: seq<Uri>)
    requires Tracked(store, sent)
    requires forall i :: 0 <= i < |order| ==> order[i] in store
    requires forall i, j :: 0 <= i < j < |order| ==> order[i] != order[j]
    ensures Shown(sent + Publications(store, order)) == Midway(Shown(sent), store, (set u | u in order))
  {
    if order == [] {
      assert sent + Publications(store, order) == sent;
      MidwayEnds(Shown(sent), store);
      assert (set u | u in order) == {};
    } else {
      var n := |order| - 1;
      var before := order[..n];
      PublishAll(sent, store, before);
      OneMorePublication(sent, store, order);
      ShownSnoc(sent + Publications(store, before), store[order[n]]);
      PublishOne(Shown(sent), store, (set u | u in before), order[n]);
    }
  }

  function Publications(store: Store, order: seq<Uri>): seq<Publish>
    requires forall i :: 0 <= i < |order| ==> order[i] in store
  {
    seq(|order|, i requires 0 <= i < |order| => store[order[i]])
  }

  /** Each document once. */
  ghost predicate Enumerates(order: seq<Uri>, store: Store) {
    && (forall u :: u in order <==> u in store)
    && (forall i, j :: 0 <= i < j < |order| ==> order[i] != order[j])
  }

  /** Publishing every entry once, in any order, makes the editor show what the server holds; the
      entries dropped afterwards are the ones that have nothing to show. */
  lemma EmitSynchronises(store: Store, sent: seq<Publish>, order: seq<Uri>)
    requires Tracked(store, sent) && Enumerates(order, store)
    ensures Shown(sent + Publications(store, order)) == Live(store) == Live(Cleaned(store))
    ensures Tracked(Cleaned(store), sent + Publications(store, order))
  {
    PublishAll(sent, store, order);
    assert (set u | u in order) == store.Keys;
    MidwayEnds(Shown(sent), store);
  }

  // -------------------------------------------------------------------- runs

  datatype Op =
    | Report(located: bool, ignored: bool, uri: Uri, d: Diagnostic)
    | Relate(r: Related)
    | Clear
    | Remap(old_: Uri, new_: Uri)
    | Rebuild
    | Emit(order: seq<Uri>)

  /** The client, and what has been sent to the editor. */
  datatype State = State(session: Session, sent: seq<Publish>)

  ghost predicate Inv(st: State) {
    Tracked(st.session.store, st.sent) && Sound(st.session)
  }

  ghost predicate Legal(store: Store, op: Op) {
    op.Emit? ==> Enumerates(op.order, store)
  }

  function Apply(st: State, op: Op): Option<State>
    requires Legal(st.session.store, op)
  {
    var s := st.session;
    match op
    case Report(located, ignored, uri, d) => Some(st.(session := NewReport(s, located, ignored, uri, d)))
    case Relate(r) =>
      var t := FollowUp(s, r);
      if t.None? then None else Some(st.(session := t.value))
    case Clear => Some(st.(session := Session(Emptied(s.store), s.last)))
    case Remap(o, n) => Some(st.(session := Session(Remapped(s.store, o, n), LastRemapped(s, o, n))))
    case Rebuild => Some(st.(session := Session(Rebuilt(s.store), Gone)))
    case Emit(order) =>
      assert forall i :: 0 <= i < |order| ==> order[i] in order;
      Some(State(Session(Cleaned(s.store), LastCleaned(s)), st.sent + Publications(s.store, order)))
  }

  lemma ApplyTracks(st: State, op: Op)
    requires Inv(st) && Legal(st.session.store, op)
    ensures Apply(st, op).None? <==> op.Relate? && st.session.last.Gone?
    ensures Apply(st, op).Some? ==>
      var u := Apply(st, op).value;
      Inv(u) && (op.Emit? ==> Shown(u.sent) == Live(u.session.store))
  {
    match op
    case Emit(order) => EmitSynchronises(st.session.store, st.sent, order);
    case Remap(o, n) => RemapLosesExactly(st.session.store, o, n);
    case _ =>
  }

  ghost predicate LegalRun(st: State, ops: seq<Op>)
    decreases |ops|
  {
    ops == [] || (Legal(st.session.store, ops[0]) && (Apply(st, ops[0]).Some? ==> LegalRun(Apply(st, ops[0]).value, ops[1..])))
  }

  ghost function After(st: State, ops: seq<Op>): Option<State>
    requires LegalRun(st, ops)
    decreases |ops|
  {
    if ops == [] then Some(st)
    else if Apply(st, ops[0]).None? then None
    else After(Apply(st, ops[0]).value, ops[1..])
  }

  /** Over every interleaving: what the editor shows is always known to the server under its own
      name, and right after an emission it is exactly what the server holds. */
  lemma {:induction false} EveryRunSynchronises(st: State, ops: seq<Op>)
    requires Inv(st) && LegalRun(st, ops) && After(st, ops).Some?
    ensures var u := After(st, ops).value;
      Inv(u) && (ops != [] && ops[|ops| - 1].Emit? ==> Shown(u.sent) == Live(u.session.store))
    decreases |ops|
  {
    if ops != [] {
      ApplyTracks(st, ops[0]);
      EveryRunSynchronises(Apply(st, ops[0]).value, ops[1..]);
      if |ops| == 1 {
        assert ops[1..] == [];
      }
    }
  }

  // --------------------------------------------------- what is held in the end

  /** The texts of the diagnostics held for a document. */
  function HeldFor(store: Store, u: Uri): seq<string> {
    if u in store then seq(|store[u].diagnostics|, i requires 0 <= i < |store[u].diagnostics| => store[u].diagnostics[i].message)
    else []
  }

  /** The texts reported for a document since the last new client or clearing, after those there were. */
  function ReportedFor(before: seq<string>, ops: seq<Op>, u: Uri): seq<string>
    decreases |ops|
  {
    if ops == [] then before
    else
      match ops[0]
      case Report(located, ignored, uri, d) =>
        ReportedFor(if located && !ignored && uri == u then before + [d.message] else before, ops[1..], u)
      case Clear => ReportedFor([], ops[1..], u)
      case Rebuild => ReportedFor([], ops[1..], u)
      case _ => ReportedFor(before, ops[1..], u)
  }

  lemma AttachingKeepsTexts(store: Store, uri: Uri, r: Related, u: Uri)
    ensures HeldFor(Attached(store, uri, r), u) == HeldFor(store, u)
  {
  }

  lemma OneReport(store: Store, uri: Uri, d: Diagnostic, u: Uri)
    ensures HeldFor(Reported(store, uri, d), u) == if uri == u then HeldFor(store, u) + [d.message] else HeldFor(store, u)
  {
  }

  lemma HeldAfter(st: State, op: Op, u: Uri)
    requires Legal(st.session.store, op) && !op.Remap? && Apply(st, op).Some?
    ensures var before, after := HeldFor(st.session.store, u), HeldFor(Apply(st, op).value.session.store, u);
      match op
      case Report(located, ignored, uri, d) => after == if located && !ignored && uri == u then before + [d.message] else before
      case Clear => after == []
      case Rebuild => after == []
      case _ => after == before
  {
    match op
    case Report(_, _, uri, d) => OneReport(st.session.store, uri, d, u);
    case Relate(r) => if st.session.last.At? { AttachingKeepsTexts(st.session.store, st.session.last.uri, r, u); }
    case _ =>
  }

  /** Over every run without renaming, the diagnostics held for a document are those reported for it
      since the last new client or clearing, in order: no stale one stays, none is lost or doubled. */
  lemma {:induction false} HeldExactly(st: State, ops: seq<Op>, u: Uri)
    requires LegalRun(st, ops) && After(st, ops).Some? && forall i :: 0 <= i < |ops| ==> !ops[i].Remap?
    ensures HeldFor(After(st, ops).value.session.store, u) == ReportedFor(HeldFor(st.session.store, u), ops, u)
    decreases |ops|
  {
    if ops != [] {
      HeldAfter(st, ops[0], u);
      HeldExactly(Apply(st, ops[0]).value, ops[1..], u);
    }
  }

  /** A new client knows the documents of the one before and none of its diagnostics. */
  lemma RebuildForgets(st: State)
    ensures var u := Apply(st, Rebuild);
      && u.Some? && u.value.session.store.Keys == st.session.store.Keys && u.value.sent == st.sent
      && forall uri :: uri in st.session.store ==> u.value.session.store[uri] == Publish(uri, [])
  {
  }

  /** A new client or a clearing, and an emission at once: the editor shows nothing any more. */
  lemma NothingShownAfter(st: State, op: Op, order: seq<Uri>)
    requires Inv(st) && (op == Rebuild || op == Clear) && LegalRun(st, [op, Emit(order)])
    ensures var u := After(st, [op, Emit(order)]);
      u.Some? && Shown(u.value.sent) == map[] && u.value.session.store == map[]
  {
    var t := Apply(st, op).value;
    TwoSteps(st, op, Emit(order));
    ApplyTracks(st, op);
    ApplyTracks(t, Emit(order));
    assert Cleaned(t.session.store) == map[];
    assert Live(map[]) == map[];
  }

  lemma TwoSteps(st: State, a: Op, b: Op)
    requires LegalRun(st, [a, b]) && Apply(st, a).Some?
    ensures Legal(Apply(st, a).value.session.store, b) && After(st, [a, b]) == Apply(Apply(st, a).value, b)
  {
    var t := Apply(st, a).value;
    assert [a, b][0] == a && [a, b][1..] == [b] && [b][0] == b && [b][1..] == [];
    assert LegalRun(t, [b]);
    if Apply(t, b).Some? {
      assert After(Apply(t, b).value, []) == Apply(t, b);
    }
    assert After(t, [b]) == Apply(t, b);
  }

  /** Every follow-up comes after a report that was kept or had no location, and after any new client,
      emission or renaming such a report comes first. */
  predicate Prompt(reported: bool, ops: seq<Op>)
    decreases |ops|
  {
    ops == []
    || match ops[0]
       case Report(located, ignored, _, _) => Prompt(reported || !located || !ignored, ops[1..])
       case Relate(_) => reported && Prompt(true, ops[1..])
       case Clear => Prompt(reported, ops[1..])
       case _ => Prompt(false, ops[1..])
  }

  /** In such a run no follow-up reads a lost pointer, in whatever state it starts. */
  lemma {:induction false} PromptFollowUpsAreDefined(st: State, reported: bool, ops: seq<Op>)
    requires Inv(st) && LegalRun(st, ops) && Prompt(reported, ops) && (reported ==> !st.session.last.Gone?)
    ensures After(st, ops).Some?
    decreases |ops|
  {
    if ops != [] {
      ApplyTracks(st, ops[0]);
      var next := match ops[0]
        case Report(located, ignored, _, _) => reported || !located || !ignored
        case Relate(_) => true
        case Clear => reported
        case _ => false;
      PromptFollowUpsAreDefined(Apply(st, ops[0]).value, next, ops[1..]);
    }
  }

  /** Without that, the first follow-up of a new client reads a pointer that was never set. */
  lemma FollowUpOfNewClient(st: State, r: Related)
    ensures LegalRun(st, [Rebuild, Relate(r)]) && After(st, [Rebuild, Relate(r)]) == None
  {
    var u := Apply(st, Rebuild).value;
    assert [Rebuild, Relate(r)][1..] == [Relate(r)];
    assert Apply(u, Relate(r)) == None;
    assert LegalRun(u, [Relate(r)]) && After(u, [Relate(r)]) == None;
  }
}

/** The client object of the diagnostic engine and the server's part in emission. */
module DiagnosticClient {
  import opened Wrappers
  import opened DiagnosticModel

  class LSPDiagnosticClient {
    var diagnostics: Store
    var lastPublication: Last

    function Current(): Session
      reads this
    {
      Session(diagnostics, lastPublication)
    }

    /** A client that takes over the documents of the previous one, if there was one. */
    constructor (prev: LSPDiagnosticClient?)
      ensures diagnostics == if prev == null then map[] else map u | u in prev.diagnostics :: Publish(u, [])
      ensures lastPublication == Gone
    {
      diagnostics, lastPublication := map[], Gone;
      new;
      if prev != null {
        var pending := prev.diagnostics.Keys;
        while pending != {}
          invariant pending <= prev.diagnostics.Keys && fresh(this) && prev.diagnostics == old(prev.diagnostics) && lastPublication == Gone
          invariant diagnostics == map u | u in prev.diagnostics && u !in pending :: Publish(u, [])
          decreases pending
        {
          var key :| key in pending;
          pending := pending - {key};
          diagnostics := diagnostics[key := Publish(key, [])];
        }
      }
    }

    method ClearDiagnostics()
      modifies this`diagnostics
      ensures diagnostics == Emptied(old(diagnostics))
    {
      ghost var before := diagnostics;
      var pending := diagnostics.Keys;
      while pending != {}
        invariant pending <= before.Keys && diagnostics.Keys == before.Keys
        invariant forall u :: u in before ==>
          diagnostics[u] == if u in pending then before[u] else before[u].(diagnostics := [])
        decreases pending
      {
        var key :| key in pending;
        pending := pending - {key};
        diagnostics := diagnostics[key := diagnostics[key].(diagnostics := [])];
      }
    }

    method CleanupDiagnostics()
      modifies this
      ensures Current() == Session(Cleaned(old(diagnostics)), LastCleaned(old(Current())))
    {
      lastPublication := LastCleaned(Current());
      diagnostics := map u | u in diagnostics && |diagnostics[u].diagnostics| != 0 :: diagnostics[u];
    }

    /** Diagnostics without a location, and ignored ones, are not kept. */
    method ReportNewDiagnostic(located: bool, ignored: bool, uri: Uri, d: Diagnostic)
      modifies this
      ensures Current() == NewReport(old(Current()), located, ignored, uri, d)
    {
      if !located {
        lastPublication := Nobody;
        return;
      }
      if ignored {
        return;
      }
      var pub;
      if uri !in diagnostics {
        pub := Publish(uri, []);
        assert [] + [d] == [d];
      } else {
        pub := diagnostics[uri];
      }
      diagnostics := diagnostics[uri := pub.(diagnostics := pub.diagnostics + [d])];
      lastPublication := At(uri);
    }

    /** A follow-up report. The last publication is read whatever it points to; the flag says whether
        that was defined. */
    method ReportRelatedDiagnostic(r: Related) returns (defined: bool)
      requires Sound(Current())
      modifies this`diagnostics
      ensures defined <==> FollowUp(old(Current()), r).Some?
      ensures Current() == if defined then FollowUp(old(Current()), r).value else old(Current())
    {
      if lastPublication.Gone? {
        return false;
      }
      defined := true;
      if lastPublication.Nobody? || |diagnostics[lastPublication.uri].diagnostics| == 0 {
        return;
      }
      var pub := diagnostics[lastPublication.uri];
      var n := |pub.diagnostics| - 1;
      var d := pub.diagnostics[n];
      diagnostics := diagnostics[lastPublication.uri :=
        pub.(diagnostics := pub.diagnostics[..n] + [d.(related := d.related + [r])])];
    }

    /** The loop that renames inside all entries. */
    method RenameEntries(orig: Uri, newUri: Uri)
      modifies this`diagnostics
      ensures diagnostics == map u | u in old(diagnostics) :: Renamed(old(diagnostics)[u], orig, newUri)
    {
      ghost var before := diagnostics;
      var pending := diagnostics.Keys;
      while pending != {}
        invariant pending <= before.Keys && diagnostics.Keys == before.Keys
        invariant forall u :: u in before ==>
          diagnostics[u] == if u in pending then before[u] else Renamed(before[u], orig, newUri)
        decreases pending
      {
        var key :| key in pending;
        pending := pending - {key};
        diagnostics := diagnostics[key := Renamed(diagnostics[key], orig, newUri)];
      }
    }

    method RemapDiagnosticUri(orig: Uri, newUri: Uri) returns (done: bool)
      modifies this
      ensures Current() == Session(Remapped(old(diagnostics), orig, newUri), LastRemapped(old(Current()), orig, newUri))
      ensures done <==> orig != newUri && orig in old(diagnostics)
    {
      if orig == newUri || orig !in diagnostics {
        return false;
      }
      lastPublication := LastRemapped(Current(), orig, newUri);
      var record := diagnostics[orig];
      diagnostics := diagnostics - {orig};
      if newUri !in diagnostics {
        diagnostics := diagnostics[newUri := record];
      }
      assert diagnostics == Moved(old(diagnostics), orig, newUri);
      RenameEntries(orig, newUri);
      diagnostics := diagnostics[orig := Publish(orig, [])];
      return true;
    }
  }

  class DiplomatLSP {
    var client: LSPDiagnosticClient?
    var sent: seq<Publish>

    ghost function Held(): Store
      reads this, client
    {
      if client == null then map[] else client.diagnostics
    }

    constructor ()
      ensures client == null && sent == [] && Tracked(Held(), sent)
    {
      client, sent := null, [];
    }

    /** Publishes every entry once, in whatever order the table is walked, then drops the empty ones. */
    method EmitDiagnostics() returns (ghost order: seq<Uri>)
      requires Tracked(Held(), sent)
      modifies this`sent, client
      ensures client == old(client) && Held() == Cleaned(old(Held()))
      ensures Enumerates(order, old(Held()))
      ensures forall i :: 0 <= i < |order| ==> order[i] in old(Held())
      ensures sent == old(sent) + Publications(old(Held()), order)
      ensures Tracked(Held(), sent) && Shown(sent) == Live(Held())
    {
      order := [];
      if client != null {
        ghost var store, before := client.diagnostics, sent;
        var pending := client.diagnostics.Keys;
        while pending != {}
          invariant client == old(client) && client.diagnostics == store && pending <= store.Keys
          invariant forall u :: u in store <==> u in pending || u in order
          invariant forall i :: 0 <= i < |order| ==> order[i] in store && order[i] !in pending
          invariant forall i, j :: 0 <= i < j < |order| ==> order[i] != order[j]
          invariant sent == before + Publications(store, order)
          decreases pending
        {
          var key :| key in pending;
          assert Publications(store, order + [key]) == Publications(store, order) + [store[key]];
          sent := sent + [client.diagnostics[key]];
          pending := pending - {key};
          order := order + [key];
        }
        EmitSynchronises(store, before, order);
        client.CleanupDiagnostics();
      }
    }

    /** Clears everything and tells the editor at once. */
    method EraseDiagnostics()
      requires Tracked(Held(), sent)
      modifies this`sent, client
      ensures client == old(client) && Held() == map[]
      ensures Tracked(Held(), sent) && Shown(sent) == map[]
    {
      if client != null {
        client.ClearDiagnostics();
        ghost var _ := EmitDiagnostics();
      }
    }

    /** A compilation replaces the client by one that remembers its documents. */
    method RebuildClient()
      requires Tracked(Held(), sent)
      modifies this`client
      ensures client != null && fresh(client) && sent == old(sent)
      ensures Held() == (map u | u in old(Held()) :: Publish(u, [])) && Tracked(Held(), sent)
    {
      client := new LSPDiagnosticClient(client);
    }
  }
}
