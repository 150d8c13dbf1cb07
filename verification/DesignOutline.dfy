/** When the walk of a design fails, apart from when it loses something: the answer is computed from
    the design alone, in a table of places and names, without scopes, stack or aliases of scopes. */
module DesignOutline {
  import opened Wrappers
  import opened Choice
  import opened Positions
  import opened ScopeTree
  import opened VisitModel
  import opened DesignIndex

  /** What a name was met with in a place: its range, and whether that text was already covered at
      some meeting. */
  datatype Entry = Entry(range: Option<Range>, again: bool)

  datatype Outline = Outline(names: map<(Key, string), Entry>, texts: set<(Key, Range)>, nameless: map<Key, nat>)

  const BLANK := Outline(map[], {}, map[])

  /** How far a design goes without giving a name two ranges in one place, and how it stops. */
  datatype Verdict = Fine(seen: Outline) | Clash(seen: Outline) | Lost(seen: Outline)

  function Nameless(o: Outline, k: Key): nat {
    if k in o.nameless then o.nameless[k] else 0
  }

  function Mark(o: Outline, k: Key, name: string): string {
    if name == "" then Unnamed(Nameless(o, k)) else name
  }

  predicate Covered(o: Outline, k: Key, range: Option<Range>) {
    range.Some? && (k, range.value) in o.texts
  }

  predicate Again(o: Outline, k: Key, name: string) {
    (k, name) in o.names && o.names[(k, name)].again
  }

  predicate Agrees(o: Outline, k: Key, name: string, range: Option<Range>) {
    name != "" && (k, name) in o.names ==> o.names[(k, name)].range == range
  }

  function Noted(o: Outline, k: Key, name: string, range: Option<Range>): Outline {
    Outline(
      if name == "" then o.names else o.names[(k, name) := Entry(range, Covered(o, k, range) || Again(o, k, name))],
      if range.Some? then o.texts + {(k, range.value)} else o.texts,
      if name == "" then o.nameless[k := Nameless(o, k) + 1] else o.nameless)
  }

  /** The first name met with a second range clashes when that text is covered and the name has been
      met before for a text that was; otherwise something is lost. */
  function Outlined(o: Outline, k: Key, node: Design): Verdict
    decreases node, 1
  {
    match node
    case Unit(members) => OutlinedAll(o, k, members)
    case Node(name, range, _, _, members) =>
      if Agrees(o, k, name, range) then OutlinedAll(Noted(o, k, name, range), KeyOf(k, Mark(o, k, name), range), members)
      else if Covered(o, k, range) && Again(o, k, name) then Clash(o)
      else Lost(o)
  }

  function OutlinedAll(o: Outline, k: Key, nodes: seq<Design>): Verdict
    decreases nodes, 0
  {
    if nodes == [] then Fine(o)
    else
      match Outlined(o, k, nodes[0])
      case Fine(seen) => OutlinedAll(seen, k, nodes[1..])
      case stop => stop
  }

  // ------------------------------------------------------ a schema from it

  /** The outline gives its names the ranges of the schema. */
  ghost predicate Fits(o: Outline, schema: Schema) {
    forall k, n :: (k, n) in o.names ==> schema(k, n) == o.names[(k, n)].range
  }

  function SchemaFrom(o: Outline): Schema {
    (k, n) => if (k, n) in o.names then o.names[(k, n)].range else None
  }

  /** Names keep their ranges. */
  ghost predicate Continues(o: Outline, seen: Outline) {
    forall x :: x in o.names ==> x in seen.names && seen.names[x].range == o.names[x].range
  }

  lemma {:induction false} OutlineContinues(o: Outline, k: Key, node: Design)
    ensures Continues(o, Outlined(o, k, node).seen)
    decreases node, 1
  {
    match node {
      case Unit(members) => OutlineAllContinues(o, k, members);
      case Node(name, range, _, _, members) =>
        if Agrees(o, k, name, range) {
          OutlineAllContinues(Noted(o, k, name, range), KeyOf(k, Mark(o, k, name), range), members);
        }
    }
  }

  lemma {:induction false} OutlineAllContinues(o: Outline, k: Key, nodes: seq<Design>)
    ensures Continues(o, OutlinedAll(o, k, nodes).seen)
    decreases nodes, 0
  {
    if nodes != [] {
      OutlineContinues(o, k, nodes[0]);
      if Outlined(o, k, nodes[0]).Fine? {
        OutlineAllContinues(Outlined(o, k, nodes[0]).seen, k, nodes[1..]);
      }
    }
  }

  lemma {:induction false} FineConforms(o: Outline, k: Key, node: Design, schema: Schema)
    requires Clean(node) && Outlined(o, k, node).Fine? && Fits(Outlined(o, k, node).seen, schema)
    ensures Conforms(node, k, schema)
    decreases node, 1
  {
    match node {
      case Unit(members) => AllFineConform(o, k, members, schema);
      case Node(name, range, _, _, members) =>
        var mark, next := Mark(o, k, name), Noted(o, k, name, range);
        OutlineAllContinues(next, KeyOf(k, mark, range), members);
        AllFineConform(next, KeyOf(k, mark, range), members, schema);
        if name != "" {
          assert (k, name) in next.names;
        }
        assert (name == "" || mark == name) && AllConform(members, KeyOf(k, mark, range), schema);
    }
  }

  lemma {:induction false} AllFineConform(o: Outline, k: Key, nodes: seq<Design>, schema: Schema)
    requires AllClean(nodes) && OutlinedAll(o, k, nodes).Fine? && Fits(OutlinedAll(o, k, nodes).seen, schema)
    ensures AllConform(nodes, k, schema)
    decreases nodes, 0
  {
    if nodes != [] {
      var seen := Outlined(o, k, nodes[0]).seen;
      OutlineAllContinues(seen, k, nodes[1..]);
      assert Fits(seen, schema);
      FineConforms(o, k, nodes[0], schema);
      AllFineConform(seen, k, nodes[1..], schema);
    }
  }

  // ---------------------------------------------------- from any schema to it

  /** A place of the outline, with the marks that a schema uses for nameless scopes. */
  function Renamed(k: Key, marks: map<Key, string>): Key {
    match k
    case Whole => Whole
    case Code(owner, r) => Code(Renamed(owner, marks), r)
    case Part(owner, n) => Part(Renamed(owner, marks), if k in marks then marks[k] else n)
  }

  /** The nameless scopes in the place have been met. */
  ghost predicate Met(o: Outline, k: Key) {
    match k
    case Whole => true
    case Code(owner, _) => Met(o, owner)
    case Part(owner, n) => Met(o, owner) && (UserName(n) || MadeUp(Nameless(o, owner), n))
  }

  ghost predicate Matched(o: Outline, schema: Schema, marks: map<Key, string>) {
    && (forall x :: x in o.names ==> Met(o, x.0) && schema(Renamed(x.0, marks), x.1) == o.names[x].range)
    && (forall k :: k in marks ==> k.Part? && !UserName(k.name) && Met(o, k))
  }

  /** Places met keep their names in the schema. */
  ghost predicate Firm(o: Outline, seen: Outline, marks: map<Key, string>, marks': map<Key, string>) {
    forall k :: Met(o, k) ==> Met(seen, k) && Renamed(k, marks') == Renamed(k, marks)
  }

  lemma {:induction false} MetStays(o: Outline, seen: Outline, k: Key)
    requires Met(o, k) && forall q :: Nameless(o, q) <= Nameless(seen, q)
    ensures Met(seen, k)
    decreases k
  {
    match k {
      case Whole =>
      case Code(owner, _) => MetStays(o, seen, owner);
      case Part(owner, n) => MetStays(o, seen, owner);
    }
  }

  lemma {:induction false} NewMark(o: Outline, k: Key, marks: map<Key, string>, fresh': Key, mark: string)
    requires Met(o, k) && !Met(o, fresh')
    ensures Renamed(k, marks[fresh' := mark]) == Renamed(k, marks)
    decreases k
  {
    match k {
      case Whole =>
      case Code(owner, _) => NewMark(o, owner, marks, fresh', mark);
      case Part(owner, n) => NewMark(o, owner, marks, fresh', mark);
    }
  }

  lemma NextMarkIsNew(o: Outline, k: Key)
    ensures !Met(o, Part(k, Unnamed(Nameless(o, k)))) && !UserName(Unnamed(Nameless(o, k)))
    ensures MadeUp(Nameless(o, k) + 1, Unnamed(Nameless(o, k)))
  {
    var n := Unnamed(Nameless(o, k));
    forall i: nat | i < Nameless(o, k) ensures Unnamed(i) != n {
      if Unnamed(i) == n {
        UnnamedInjective(i, Nameless(o, k));
      }
    }
    assert !MadeUp(Nameless(o, k), n) && !UserName(n);
  }

  lemma FirmTwice(o: Outline, p: Outline, q: Outline, marks: map<Key, string>, marks': map<Key, string>, marks'': map<Key, string>)
    requires Firm(o, p, marks, marks') && Firm(p, q, marks', marks'')
    ensures Firm(o, q, marks, marks'')
  {
  }

  /** One more node of a conforming design. */
  lemma NotedMatches(o: Outline, k: Key, name: string, range: Option<Range>, mark: string, schema: Schema, marks: map<Key, string>)
      returns (marks': map<Key, string>)
    requires Matched(o, schema, marks) && Met(o, k) && CleanName(name) && (name == "" || mark == name)
    requires name != "" ==> schema(Renamed(k, marks), name) == range
    ensures var next, inner := Noted(o, k, name, range), KeyOf(k, Mark(o, k, name), range);
      && Matched(next, schema, marks') && Firm(o, next, marks, marks') && Met(next, inner)
      && Renamed(inner, marks') == KeyOf(Renamed(k, marks), mark, range)
  {
    var next, inner := Noted(o, k, name, range), KeyOf(k, Mark(o, k, name), range);
    forall q | Met(o, q) ensures Met(next, q) {
      MetStays(o, next, q);
    }
    NextMarkIsNew(o, k);
    if name == "" && range.None? {
      marks' := marks[inner := mark];
      forall q | Met(o, q) ensures Renamed(q, marks') == Renamed(q, marks) {
        NewMark(o, q, marks, inner, mark);
      }
    } else {
      marks' := marks;
    }
  }

  lemma {:induction false} ConformingIsFine(o: Outline, k: Key, node: Design, schema: Schema, marks: map<Key, string>)
      returns (marks': map<Key, string>)
    requires Matched(o, schema, marks) && Met(o, k) && Conforms(node, Renamed(k, marks), schema)
    ensures var v := Outlined(o, k, node);
      v.Fine? && Matched(v.seen, schema, marks') && Firm(o, v.seen, marks, marks')
    decreases node, 1
  {
    match node {
      case Unit(members) => marks' := AllConformingAreFine(o, k, members, schema, marks);
      case Node(name, range, _, _, members) =>
        var owner := Renamed(k, marks);
        var mark: string :| (name == "" || mark == name) && AllConform(members, KeyOf(owner, mark, range), schema);
        assert Agrees(o, k, name, range);
        var next, inner := Noted(o, k, name, range), KeyOf(k, Mark(o, k, name), range);
        var between := NotedMatches(o, k, name, range, mark, schema, marks);
        marks' := AllConformingAreFine(next, inner, members, schema, between);
        FirmTwice(o, next, OutlinedAll(next, inner, members).seen, marks, between, marks');
    }
  }

  lemma {:induction false} AllConformingAreFine(o: Outline, k: Key, nodes: seq<Design>, schema: Schema, marks: map<Key, string>)
      returns (marks': map<Key, string>)
    requires Matched(o, schema, marks) && Met(o, k) && AllConform(nodes, Renamed(k, marks), schema)
    ensures var v := OutlinedAll(o, k, nodes);
      v.Fine? && Matched(v.seen, schema, marks') && Firm(o, v.seen, marks, marks')
    decreases nodes, 0
  {
    if nodes == [] {
      marks' := marks;
    } else {
      var between := ConformingIsFine(o, k, nodes[0], schema, marks);
      var seen := Outlined(o, k, nodes[0]).seen;
      marks' := AllConformingAreFine(seen, k, nodes[1..], schema, between);
      FirmTwice(o, seen, OutlinedAll(seen, k, nodes[1..]).seen, marks, between, marks');
    }
  }

  /** The outline tells whether a design gives every name one range in each place. */
  lemma FineExactly(members: seq<Design>)
    requires AllClean(members)
    ensures OutlinedAll(BLANK, Whole, members).Fine? <==> exists schema: Schema :: Consistent(members, schema)
  {
    var v := OutlinedAll(BLANK, Whole, members);
    if v.Fine? {
      AllFineConform(BLANK, Whole, members, SchemaFrom(v.seen));
      assert Consistent(members, SchemaFrom(v.seen));
    }
    if schema: Schema :| Consistent(members, schema) {
      var _ := AllConformingAreFine(BLANK, Whole, members, schema, map[]);
    }
  }

  // ------------------------------------------------- the walk beside it

  /** The place of a scope, its own name for a mark. */
  function PlaceOf(a: Arena, s: ScopeId): Key
    requires ParentsKnow(a) && s in a
  {
    KeyAt(a, s, map[])
  }

  ghost predicate OneRoot(a: Arena) {
    forall s, t :: s in a && t in a && a[s].parent.None? && a[t].parent.None? ==> s == t
  }

  lemma SamePlace(a: Arena, s: ScopeId, t: ScopeId)
    requires Linked(a) && Tabled(a) && OneRoot(a) && s in a && t in a && PlaceOf(a, s) == PlaceOf(a, t)
    ensures s == t
  {
    assert RootOf(a, s) == RootOf(a, t);
    PlacesDiffer(a, s, t);
  }

  ghost predicate IsPlaced(a: Arena, k: Key) {
    ParentsKnow(a) && exists s :: s in a && PlaceOf(a, s) == k
  }

  /** The outline knows what names of the design stand for something, and which are aliases. */
  ghost predicate NamesMirrored(sc: Scope, k: Key, o: Outline) {
    Nameless(o, k) == sc.unnamedCount && forall n :: UserName(n) ==> NameMirrored(sc, k, o, n)
  }

  predicate NameMirrored(sc: Scope, k: Key, o: Outline, n: string) {
    && ((k, n) in o.names <==> n in sc.children || n in sc.aliases)
    && (Again(o, k, n) <==> n in sc.aliases)
  }

  /** The outline knows what texts are covered. */
  ghost predicate TextsMirrored(a: Arena, s: ScopeId, k: Key, o: Outline)
    requires s in a
  {
    forall r :: (k, r) in o.texts <==> SameRange(a, s, r) != {}
  }

  ghost predicate MirrorsAt(a: Arena, s: ScopeId, k: Key, o: Outline)
    requires s in a
  {
    NamesMirrored(a[s], k, o) && TextsMirrored(a, s, k, o)
  }

  ghost predicate MirrorsHere(a: Arena, s: ScopeId, o: Outline)
    requires ParentsKnow(a) && s in a
  {
    MirrorsAt(a, s, PlaceOf(a, s), o)
  }

  /** The outline knows all scopes, and nothing else. */
  ghost predicate Mirrored(a: Arena, o: Outline)
    requires ParentsKnow(a)
  {
    Placed(a, o) && AllMirror(a, a.Keys, o)
  }

  ghost predicate AllMirror(a: Arena, scopes: set<ScopeId>, o: Outline)
    requires ParentsKnow(a) && scopes <= a.Keys
  {
    forall s {:trigger MirrorsHere(a, s, o)} :: s in scopes ==> MirrorsHere(a, s, o)
  }

  /** Two outlines know the same of one place. */
  ghost predicate SameAt(o: Outline, o': Outline, k: Key) {
    && (forall n :: (k, n) in o'.names <==> (k, n) in o.names)
    && (forall n :: Again(o', k, n) <==> Again(o, k, n))
    && (forall r :: (k, r) in o'.texts <==> (k, r) in o.texts)
    && Nameless(o', k) == Nameless(o, k)
  }

  ghost predicate SameElsewhere(o: Outline, o': Outline, k: Key) {
    forall q :: q != k ==> SameAt(o, o', q)
  }

  /** The second arena continues the first, and of the old scopes only one has other tables. */
  ghost predicate Touched(a: Arena, b: Arena, t: ScopeId) {
    && Extends(a, b) && t in a
    && (forall s :: s in a ==> b[s].range == a[s].range)
    && (forall s :: s in a && s != t ==>
          b[s].children == a[s].children && b[s].aliases == a[s].aliases && b[s].unnamedCount == a[s].unnamedCount)
  }

  lemma PlaceStays(a: Arena, b: Arena, t: ScopeId, s: ScopeId)
    requires Linked(a) && Linked(b) && Touched(a, b, t) && s in a
    ensures PlaceOf(b, s) == PlaceOf(a, s)
  {
    var p := Plan((k, n) => None, map[]);
    KeyStays(a, b, s, p, p);
  }

  lemma MirrorTransfers(a: Arena, b: Arena, s: ScopeId, k: Key, o: Outline, o': Outline)
    requires s in a && s in b && MirrorsAt(a, s, k, o) && SameAt(o, o', k)
    requires b[s].children == a[s].children && b[s].aliases == a[s].aliases && b[s].unnamedCount == a[s].unnamedCount
    requires forall c :: c in a[s].children.Values ==> c in a && c in b && b[c].range == a[c].range
    ensures MirrorsAt(b, s, k, o')
  {
    forall r ensures SameRange(b, s, r) == SameRange(a, s, r) {
    }
  }

  lemma MirrorStays(a: Arena, b: Arena, t: ScopeId, s: ScopeId, o: Outline, o': Outline)
    requires Linked(a) && Linked(b) && Touched(a, b, t) && Tabled(b) && OneRoot(b) && SameElsewhere(o, o', PlaceOf(a, t))
    requires s in a && s != t && MirrorsHere(a, s, o)
    ensures MirrorsHere(b, s, o')
  {
    PlaceStays(a, b, t, s);
    PlaceStays(a, b, t, t);
    if PlaceOf(b, s) == PlaceOf(b, t) {
      SamePlace(b, s, t);
    }
    MirrorTransfers(a, b, s, PlaceOf(a, s), o, o');
  }

  /** Everything the outline knows is known of certain places. */
  ghost predicate KnownOf(o: Outline, places: Key -> bool) {
    && (forall x :: x in o.names ==> places(x.0))
    && (forall x :: x in o.texts ==> places(x.0))
    && (forall k :: k in o.nameless ==> places(k))
  }

  ghost predicate Placed(a: Arena, o: Outline) {
    KnownOf(o, k => IsPlaced(a, k))
  }

  lemma NothingKnown(o: Outline, places: Key -> bool, k: Key)
    requires KnownOf(o, places) && !places(k)
    ensures SameAt(BLANK, o, k)
  {
    assert forall n :: (k, n) in o.names ==> places((k, n).0);
    assert forall r :: (k, r) in o.texts ==> places((k, r).0);
  }

  lemma NotedKnown(o: Outline, k: Key, name: string, range: Option<Range>, places: Key -> bool, more: Key -> bool)
    requires KnownOf(o, places) && more(k) && forall q :: places(q) ==> more(q)
    ensures KnownOf(Noted(o, k, name, range), more)
  {
  }

  lemma PlacedStays(a: Arena, b: Arena, t: ScopeId, k: Key)
    requires Linked(a) && Linked(b) && Touched(a, b, t) && IsPlaced(a, k)
    ensures IsPlaced(b, k)
  {
    var s :| s in a && PlaceOf(a, s) == k;
    PlaceStays(a, b, t, s);
  }

  /** One more node adds to the outline in one place only. */
  lemma NotedElsewhere(o: Outline, k: Key, name: string, range: Option<Range>, q: Key)
    requires q != k
    ensures SameAt(o, Noted(o, k, name, range), q)
  {
    var next := Noted(o, k, name, range);
    assert forall n :: (q, n) != (k, name);
  }

  lemma NotedPlaced(a: Arena, b: Arena, t: ScopeId, o: Outline, name: string, range: Option<Range>)
    requires Linked(a) && Linked(b) && Touched(a, b, t) && Placed(a, o)
    ensures Placed(b, Noted(o, PlaceOf(a, t), name, range))
  {
    forall k | IsPlaced(a, k) ensures IsPlaced(b, k) {
      PlacedStays(a, b, t, k);
    }
    assert IsPlaced(a, PlaceOf(a, t));
    NotedKnown(o, PlaceOf(a, t), name, range, k => IsPlaced(a, k), k => IsPlaced(b, k));
  }

  lemma OthersMirror(a: Arena, b: Arena, t: ScopeId, o: Outline, o': Outline)
    requires Linked(a) && Linked(b) && Touched(a, b, t) && Tabled(b) && OneRoot(b) && SameElsewhere(o, o', PlaceOf(a, t))
    requires AllMirror(a, a.Keys, o)
    ensures a.Keys - {t} <= b.Keys && AllMirror(b, a.Keys - {t}, o')
  {
    forall s | s in a.Keys - {t} ensures s in b && MirrorsHere(b, s, o') {
      assert MirrorsHere(a, s, o);
      MirrorStays(a, b, t, s, o, o');
    }
  }

  lemma NotedSame(o: Outline, k: Key, name: string, range: Option<Range>)
    ensures SameElsewhere(o, Noted(o, k, name, range), k)
  {
    forall q | q != k ensures SameAt(o, Noted(o, k, name, range), q) {
      NotedElsewhere(o, k, name, range, q);
    }
  }

  lemma AllMirrorTogether(b: Arena, old_: set<ScopeId>, t: ScopeId, c: ScopeId, o: Outline)
    requires ParentsKnow(b) && b.Keys == old_ + {c} && t in b && AllMirror(b, old_ - {t}, o)
    requires MirrorsHere(b, t, o) && (c !in old_ ==> MirrorsHere(b, c, o))
    ensures AllMirror(b, b.Keys, o)
  {
  }

  /** Mirroring goes on when it does so for the scope touched and for the new scope, if there is one. */
  lemma MirrorStep(a: Arena, b: Arena, t: ScopeId, c: ScopeId, o: Outline, o': Outline)
    requires Linked(a) && Linked(b) && Touched(a, b, t) && Tabled(b) && OneRoot(b) && b.Keys == a.Keys + {c}
    requires AllMirror(a, a.Keys, o) && SameElsewhere(o, o', PlaceOf(a, t)) && MirrorsHere(b, t, o')
    requires c !in a ==> MirrorsHere(b, c, o')
    ensures AllMirror(b, b.Keys, o')
  {
    OthersMirror(a, b, t, o, o');
    AllMirrorTogether(b, a.Keys, t, c, o');
  }

  // ---------------------------------------------------------- three openings

  function UsedName(sc: Scope, name: string): string {
    if name == "" then Unnamed(sc.unnamedCount) else name
  }

  /** The scope that a new child is, with its range. */
  function NewScope(st: State, name: string, range: Option<Range>, isVirtual: bool): Scope
    requires HasTop(st)
  {
    var t := Top(st);
    ChildScope(t, UsedName(st.arena[t], name), range.Some? && isVirtual, name == "").(range := range)
  }

  /** The scopes once the child was made. */
  function WithNew(st: State, name: string, range: Option<Range>, isVirtual: bool): Arena
    requires HasTop(st)
  {
    WithChild(if name == "" then Counted(st.arena, Top(st)) else st.arena, Top(st), st.next, NewScope(st, name, range, isVirtual))
  }

  lemma OpeningNew(st: State, name: string, range: Option<Range>, isVirtual: bool)
    requires Inv(st) && st.stack != [] && CleanName(name) && name !in st.arena[Top(st)].children
    requires range.Some? ==> SameRange(st.arena, Top(st), range.value) == {}
    ensures OpenFor(st, name, range, isVirtual)
         == Opened(State(WithNew(st, name, range, isVirtual), st.next + 1, st.stack + [st.next]), name)
  {
    var a, t := st.arena, Top(st);
    assert TabledAt(a, t);
    NextNameIsFresh(a, t);
    NoEmptyAlias(a, t);
    var u := Open(st, name, range.Some? && isVirtual);
    assert u.stack == st.stack + [st.next] && t != st.next;
    if range.Some? {
      assert Ranged(u, range.value).arena == WithNew(st, name, range, isVirtual);
    } else {
      assert u.arena == WithNew(st, name, range, isVirtual);
    }
  }

  lemma NewIsGained(st: State, name: string, range: Option<Range>, isVirtual: bool)
    requires HasTop(st) && st.next !in st.arena
    ensures var a, b, t := st.arena, WithNew(st, name, range, isVirtual), Top(st);
      && Gained(a, b, t, st.next, NewScope(st, name, range, isVirtual))
      && b[t].unnamedCount == a[t].unnamedCount + (if name == "" then 1 else 0)
  {
  }

  lemma GainedTouches(a: Arena, b: Arena, t: ScopeId, c: ScopeId, child: Scope)
    requires OneRoot(a) && Gained(a, b, t, c, child) && child.name !in a[t].children
    ensures Touched(a, b, t) && OneRoot(b)
  {
    GainedExtends(a, b, t, c, child, "", Plan((k, n) => None, map[]));
  }

  lemma GainedValues(a: Arena, b: Arena, t: ScopeId, c: ScopeId, child: Scope)
    requires Gained(a, b, t, c, child) && child.name !in a[t].children
    ensures b[t].children.Values == a[t].children.Values + {c}
  {
    assert b[t].children[child.name] == c;
    forall x | x in a[t].children.Values ensures x in b[t].children.Values {
      var n :| n in a[t].children && a[t].children[n] == x;
      assert b[t].children[n] == x;
    }
  }

  lemma GainedRanges(a: Arena, b: Arena, t: ScopeId, c: ScopeId, child: Scope, r: Range)
    requires ChildrenPlaced(a) && Gained(a, b, t, c, child) && child.name !in a[t].children
    ensures SameRange(b, t, r) == SameRange(a, t, r) + (if child.range == Some(r) then {c} else {})
  {
    GainedValues(a, b, t, c, child);
    forall x | x in a[t].children.Values ensures x in a && x != t {
      var n :| n in a[t].children && a[t].children[n] == x;
    }
  }

  /** A new child under a name that stood for nothing. */
  lemma NamesOfParent(sc: Scope, sc': Scope, c: ScopeId, name: string, range: Option<Range>, k: Key, o: Outline)
    requires NamesMirrored(sc, k, o) && CleanName(name) && name !in sc.children && name !in sc.aliases && !Covered(o, k, range)
    requires sc'.children == sc.children[UsedName(sc, name) := c] && sc'.aliases == sc.aliases
    requires sc'.unnamedCount == sc.unnamedCount + (if name == "" then 1 else 0)
    ensures NamesMirrored(sc', k, Noted(o, k, name, range))
  {
    forall n | UserName(n) ensures NameMirrored(sc', k, Noted(o, k, name, range), n) {
      assert n != Unnamed(sc.unnamedCount) && NameMirrored(sc, k, o, n);
    }
  }

  lemma TextsOfParent(a: Arena, b: Arena, t: ScopeId, c: ScopeId, child: Scope, name: string, k: Key, o: Outline)
    requires ChildrenPlaced(a) && Gained(a, b, t, c, child) && TextsMirrored(a, t, k, o) && child.name !in a[t].children
    ensures TextsMirrored(b, t, k, Noted(o, k, name, child.range))
  {
    forall r ensures (k, r) in Noted(o, k, name, child.range).texts <==> SameRange(b, t, r) != {} {
      GainedRanges(a, b, t, c, child, r);
    }
  }

  /** The place of a new child is new. */
  lemma PlaceIsNew(a: Arena, b: Arena, t: ScopeId, c: ScopeId)
    requires Linked(a) && Linked(b) && Touched(a, b, t) && Tabled(b) && OneRoot(b) && c in b && c !in a
    ensures PlaceOf(b, c) != PlaceOf(a, t) && !IsPlaced(a, PlaceOf(b, c))
  {
    forall s | s in a ensures PlaceOf(a, s) != PlaceOf(b, c) {
      PlaceStays(a, b, t, s);
      if PlaceOf(b, s) == PlaceOf(b, c) {
        SamePlace(b, c, s);
      }
    }
  }

  lemma MirrorOfChild(b: Arena, c: ScopeId, o: Outline, kc: Key)
    requires c in b && b[c].children == map[] && b[c].aliases == map[] && b[c].unnamedCount == 0 && SameAt(BLANK, o, kc)
    ensures MirrorsAt(b, c, kc, o)
  {
  }

  lemma ParentIsMirrored(a: Arena, b: Arena, t: ScopeId, c: ScopeId, child: Scope, name: string, k: Key, o: Outline)
    requires ChildrenPlaced(a) && Gained(a, b, t, c, child) && MirrorsAt(a, t, k, o)
    requires child.name == UsedName(a[t], name) && child.name !in a[t].children
    requires CleanName(name) && name !in a[t].children && name !in a[t].aliases
    requires b[t].unnamedCount == a[t].unnamedCount + (if name == "" then 1 else 0)
    requires child.range.Some? ==> SameRange(a, t, child.range.value) == {}
    ensures MirrorsAt(b, t, k, Noted(o, k, name, child.range))
  {
    NamesOfParent(a[t], b[t], c, name, child.range, k, o);
    TextsOfParent(a, b, t, c, child, name, k, o);
  }

  /** The new child is mirrored as well: nothing was known of its place. */
  lemma NewMirrors(a: Arena, b: Arena, t: ScopeId, c: ScopeId, o: Outline, name: string, range: Option<Range>)
    requires Linked(a) && Linked(b) && Tabled(b) && OneRoot(b) && Touched(a, b, t) && Placed(a, o) && c in b && c !in a
    requires b[c].children == map[] && b[c].aliases == map[] && b[c].unnamedCount == 0
    ensures MirrorsHere(b, c, Noted(o, PlaceOf(a, t), name, range))
  {
    PlaceIsNew(a, b, t, c);
    ChildIsMirrored(a, b, t, c, o, name, range);
  }

  lemma HereStays(a: Arena, b: Arena, t: ScopeId, o: Outline)
    requires Linked(a) && Linked(b) && Touched(a, b, t) && MirrorsAt(b, t, PlaceOf(a, t), o)
    ensures MirrorsHere(b, t, o)
  {
    PlaceStays(a, b, t, t);
  }

  lemma MirrorGained(a: Arena, b: Arena, t: ScopeId, c: ScopeId, child: Scope, name: string, o: Outline)
    requires Linked(a) && Linked(b) && Tabled(b) && OneRoot(b) && Touched(a, b, t) && Placed(a, o) && AllMirror(a, a.Keys, o)
    requires Gained(a, b, t, c, child) && child.unnamedCount == 0
    requires MirrorsAt(b, t, PlaceOf(a, t), Noted(o, PlaceOf(a, t), name, child.range))
    ensures AllMirror(b, b.Keys, Noted(o, PlaceOf(a, t), name, child.range))
  {
    NewMirrors(a, b, t, c, o, name, child.range);
    NotedSame(o, PlaceOf(a, t), name, child.range);
    HereStays(a, b, t, Noted(o, PlaceOf(a, t), name, child.range));
    MirrorStep(a, b, t, c, o, Noted(o, PlaceOf(a, t), name, child.range));
  }

  lemma NewTouches(st: State, name: string, range: Option<Range>, isVirtual: bool)
    requires Inv(st) && st.stack != [] && CleanName(name) && OneRoot(st.arena) && name !in st.arena[Top(st)].children
    ensures var a, t, b, child := st.arena, Top(st), WithNew(st, name, range, isVirtual), NewScope(st, name, range, isVirtual);
      && Gained(a, b, t, st.next, child) && Touched(a, b, t) && OneRoot(b)
      && child.name !in a[t].children && b[t].unnamedCount == a[t].unnamedCount + (if name == "" then 1 else 0)
  {
    assert TabledAt(st.arena, Top(st));
    NextNameIsFresh(st.arena, Top(st));
    NewIsGained(st, name, range, isVirtual);
    GainedTouches(st.arena, WithNew(st, name, range, isVirtual), Top(st), st.next, NewScope(st, name, range, isVirtual));
  }

  lemma MirrorNew(st: State, name: string, range: Option<Range>, isVirtual: bool, o: Outline)
    requires Inv(st) && st.stack != [] && CleanName(name) && OneRoot(st.arena) && Mirrored(st.arena, o)
    requires name !in st.arena[Top(st)].children && name !in st.arena[Top(st)].aliases
    requires range.Some? ==> SameRange(st.arena, Top(st), range.value) == {}
    requires Linked(WithNew(st, name, range, isVirtual)) && Tabled(WithNew(st, name, range, isVirtual))
    ensures var b := WithNew(st, name, range, isVirtual);
      Touched(st.arena, b, Top(st)) && OneRoot(b) && AllMirror(b, b.Keys, Noted(o, PlaceOf(st.arena, Top(st)), name, range))
  {
    var a, b, t, child := st.arena, WithNew(st, name, range, isVirtual), Top(st), NewScope(st, name, range, isVirtual);
    NewTouches(st, name, range, isVirtual);
    assert MirrorsHere(a, t, o);
    ParentIsMirrored(a, b, t, st.next, child, name, PlaceOf(a, t), o);
    MirrorGained(a, b, t, st.next, child, name, o);
  }

  lemma ChildIsMirrored(a: Arena, b: Arena, t: ScopeId, c: ScopeId, o: Outline, name: string, range: Option<Range>)
    requires ParentsKnow(a) && ParentsKnow(b) && t in a && c in b && Placed(a, o)
    requires PlaceOf(b, c) != PlaceOf(a, t) && !IsPlaced(a, PlaceOf(b, c))
    requires b[c].children == map[] && b[c].aliases == map[] && b[c].unnamedCount == 0
    ensures MirrorsHere(b, c, Noted(o, PlaceOf(a, t), name, range))
  {
    NothingKnown(o, k => IsPlaced(a, k), PlaceOf(b, c));
    NotedElsewhere(o, PlaceOf(a, t), name, range, PlaceOf(b, c));
    MirrorOfChild(b, c, Noted(o, PlaceOf(a, t), name, range), PlaceOf(b, c));
  }

  lemma AliasedTouches(a: Arena, t: ScopeId, name: string, c: ScopeId)
    requires t in a && OneRoot(a) && Unnamed(a[t].unnamedCount) !in a[t].aliases
    ensures Touched(a, Aliased(a, t, name, c), t) && OneRoot(Aliased(a, t, name, c))
  {
    var b := Aliased(a, t, name, c);
    assert b.Keys == a.Keys && forall s :: s in a ==> b[s].parent == a[s].parent;
  }

  /** The name becomes an alias, if it was none. */
  lemma NamesOfAliased(sc: Scope, name: string, c: ScopeId, r: Range, k: Key, o: Outline)
    requires CleanName(name) && NamesMirrored(sc, k, o) && (k, r) in o.texts
    ensures NamesMirrored(AliasedScope(sc, name, c), k, Noted(o, k, name, Some(r)))
  {
    forall n | UserName(n) ensures NameMirrored(AliasedScope(sc, name, c), k, Noted(o, k, name, Some(r)), n) {
      assert n != Unnamed(sc.unnamedCount) && NameMirrored(sc, k, o, n);
    }
  }

  lemma TextsOfAliased(a: Arena, t: ScopeId, name: string, c: ScopeId, r: Range, k: Key, o: Outline)
    requires t in a && TextsMirrored(a, t, k, o) && SameRange(a, t, r) != {}
    ensures TextsMirrored(Aliased(a, t, name, c), t, k, Noted(o, k, name, Some(r)))
  {
    forall x ensures SameRange(Aliased(a, t, name, c), t, x) == SameRange(a, t, x) {
    }
  }

  lemma AliasedMirrors(a: Arena, t: ScopeId, name: string, c: ScopeId, r: Range, k: Key, o: Outline)
    requires t in a && CleanName(name) && MirrorsAt(a, t, k, o) && SameRange(a, t, r) != {}
    ensures MirrorsAt(Aliased(a, t, name, c), t, k, Noted(o, k, name, Some(r)))
  {
    NamesOfAliased(a[t], name, c, r, k, o);
    TextsOfAliased(a, t, name, c, r, k, o);
  }

  /** Of the scopes there were, an opening changes only the current one; the one entered may be new. */
  ghost predicate Steps(a: Arena, t: ScopeId, name: string, b: Arena, c: ScopeId) {
    && Linked(b) && Tabled(b) && Touched(a, b, t) && OneRoot(b) && b.Keys == a.Keys + {c}
    && (c !in a ==> b[c].name == UsedName(a[t], name))
  }

  lemma MirrorDuplicate(a: Arena, t: ScopeId, name: string, c: ScopeId, r: Range, o: Outline)
    requires Linked(a) && t in a && c in a && CleanName(name) && AllMirror(a, a.Keys, o) && SameRange(a, t, r) != {}
    requires Steps(a, t, name, Aliased(a, t, name, c), c)
    ensures var b := Aliased(a, t, name, c); AllMirror(b, b.Keys, Noted(o, PlaceOf(a, t), name, Some(r)))
  {
    var b, k := Aliased(a, t, name, c), PlaceOf(a, t);
    assert MirrorsHere(a, t, o);
    AliasedMirrors(a, t, name, c, r, k, o);
    StepMirrors(a, t, name, b, c, o, Some(r));
  }

  lemma StepMirrors(a: Arena, t: ScopeId, name: string, b: Arena, c: ScopeId, o: Outline, range: Option<Range>)
    requires Linked(a) && t in a && c in a && AllMirror(a, a.Keys, o) && Steps(a, t, name, b, c)
    requires MirrorsAt(b, t, PlaceOf(a, t), Noted(o, PlaceOf(a, t), name, range))
    ensures AllMirror(b, b.Keys, Noted(o, PlaceOf(a, t), name, range))
  {
    NotedSame(o, PlaceOf(a, t), name, range);
    HereStays(a, b, t, Noted(o, PlaceOf(a, t), name, range));
    MirrorStep(a, b, t, c, o, Noted(o, PlaceOf(a, t), name, range));
  }

  /** Coming back to a name without a range tells nothing new. */
  lemma NotedAgain(o: Outline, k: Key, name: string)
    requires name != "" && (k, name) in o.names && Agrees(o, k, name, None)
    ensures Noted(o, k, name, None) == o
  {
    assert o.names[(k, name) := o.names[(k, name)]] == o.names;
  }

  // ---------------------------------------------------------- one opening

  /** The plan's places are those of the scopes' own names. */
  ghost predicate PlainPlan(a: Arena, p: Plan)
    requires ParentsKnow(a)
  {
    forall s {:trigger PlainAt(a, s, p)} :: s in a ==> PlainAt(a, s, p)
  }

  predicate PlainAt(a: Arena, s: ScopeId, p: Plan)
    requires ParentsKnow(a) && s in a
  {
    KeyAt(a, s, p.marks) == PlaceOf(a, s)
  }

  ghost predicate Beside(st: State, o: Outline, p: Plan) {
    && Inv(st) && st.stack != [] && OneRoot(st.arena)
    && Keyed(st.arena, p) && PlainPlan(st.arena, p) && Mirrored(st.arena, o)
  }

  /** An alias denotes a scope over a range, the one of the schema. */
  lemma AliasHasRange(a: Arena, t: ScopeId, name: string, p: Plan)
    requires Linked(a) && t in a && TabledAt(a, t) && KeyedAt(a, t, p) && UserName(name) && name in a[t].aliases
    ensures var c := a[t].aliases[name];
      && c in a && a[c].parent == Some(t) && a[c].range.Some? && a[c].range == p.schema(KeyAt(a, t, p.marks), name)
      && SameRange(a, t, a[c].range.value) == {c}
  {
    var c := a[t].aliases[name];
    assert HasRange(a, c);
    OnlyOfItsRange(a, t, c, a[c].range.value);
  }

  /** A name that the schema knows under its range: whether the scope is new, covered or known. */
  lemma NewIsUnknown(a: Arena, t: ScopeId, name: string, range: Option<Range>, p: Plan)
    requires Linked(a) && Tabled(a) && Keyed(a, p) && t in a && Foreseen(a, t, name, range, p)
    requires if range.Some? then SameRange(a, t, range.value) == {} else name !in a[t].children
    ensures name !in a[t].children && name !in a[t].aliases
  {
    assert TabledAt(a, t) && KeyedAt(a, t, p);
    NoEmptyAlias(a, t);
    if range.Some? {
      FreshNameIsNew(a, t, name, range.value, p);
    }
    if name in a[t].aliases {
      AliasHasRange(a, t, name, p);
    }
  }

  /** And the outline goes on. */
  ghost predicate Follows(st: State, o: Outline, name: string, range: Option<Range>, u: State)
    requires Inv(st) && st.stack != []
  {
    && u.stack != [] && Steps(st.arena, Top(st), name, u.arena, Top(u))
    && AllMirror(u.arena, u.arena.Keys, Noted(o, PlaceOf(st.arena, Top(st)), name, range))
  }

  lemma NewSteps(st: State, name: string, range: Option<Range>, isVirtual: bool)
    requires Inv(st) && st.stack != [] && CleanName(name) && OneRoot(st.arena) && name !in st.arena[Top(st)].children
    requires Linked(WithNew(st, name, range, isVirtual)) && Tabled(WithNew(st, name, range, isVirtual))
    ensures Steps(st.arena, Top(st), name, WithNew(st, name, range, isVirtual), st.next)
  {
    NewTouches(st, name, range, isVirtual);
  }

  lemma NewOpens(st: State, name: string, range: Option<Range>, isVirtual: bool, o: Outline)
    requires Inv(st) && st.stack != [] && CleanName(name) && OneRoot(st.arena) && Mirrored(st.arena, o)
    requires name !in st.arena[Top(st)].children && name !in st.arena[Top(st)].aliases
    requires range.Some? ==> SameRange(st.arena, Top(st), range.value) == {}
    ensures OpenFor(st, name, range, isVirtual).Opened? && Follows(st, o, name, range, OpenFor(st, name, range, isVirtual).st)
  {
    OpeningNew(st, name, range, isVirtual);
    OpenForKeeps(st, name, range, isVirtual);
    NewSteps(st, name, range, isVirtual);
    MirrorNew(st, name, range, isVirtual, o);
  }

  lemma AliasedSteps(a: Arena, t: ScopeId, name: string, c: ScopeId)
    requires t in a && c in a && OneRoot(a) && Unnamed(a[t].unnamedCount) !in a[t].aliases
    requires Linked(Aliased(a, t, name, c)) && Tabled(Aliased(a, t, name, c))
    ensures Steps(a, t, name, Aliased(a, t, name, c), c)
  {
    AliasedTouches(a, t, name, c);
  }

  lemma CoveredFollows(st: State, name: string, r: Range, o: Outline, c: ScopeId)
    requires Inv(st) && st.stack != [] && CleanName(name) && OneRoot(st.arena) && AllMirror(st.arena, st.arena.Keys, o)
    requires c in SameRange(st.arena, Top(st), r)
    ensures Follows(st, o, name, Some(r), st.(arena := Aliased(st.arena, Top(st), name, c), stack := st.stack + [c]))
  {
    var a, t := st.arena, Top(st);
    SiblingOfRange(a, t, r, c);
    AliasedKeeps(st, t, name, c);
    assert TabledAt(a, t);
    NextNameIsFresh(a, t);
    AliasedSteps(a, t, name, c);
    MirrorDuplicate(a, t, name, c, r, o);
  }

  lemma CoveredOpens(st: State, name: string, r: Range, isVirtual: bool, o: Outline)
    requires Inv(st) && st.stack != [] && CleanName(name) && OneRoot(st.arena) && AllMirror(st.arena, st.arena.Keys, o)
    requires SameRange(st.arena, Top(st), r) != {} && !Taken(st.arena[Top(st)], name, Least(SameRange(st.arena, Top(st), r)))
    ensures OpenFor(st, name, Some(r), isVirtual).Opened? && Follows(st, o, name, Some(r), OpenFor(st, name, Some(r), isVirtual).st)
  {
    var c := Least(SameRange(st.arena, Top(st), r));
    SoundIsCovering(st, r, c);
    OpeningCovered(st, name, r, isVirtual, c);
    CoveredFollows(st, name, r, o, c);
  }

  lemma SameSteps(a: Arena, t: ScopeId, name: string, c: ScopeId)
    requires Linked(a) && Tabled(a) && OneRoot(a) && t in a && c in a
    ensures Steps(a, t, name, a, c)
  {
    SameTouches(a, t, c);
  }

  lemma SameTouches(a: Arena, t: ScopeId, c: ScopeId)
    requires t in a && c in a
    ensures Touched(a, a, t) && a.Keys == a.Keys + {c}
  {
  }

  lemma KnownOpens(st: State, name: string, isVirtual: bool, o: Outline)
    requires Inv(st) && st.stack != [] && CleanName(name) && OneRoot(st.arena) && AllMirror(st.arena, st.arena.Keys, o)
    requires name in st.arena[Top(st)].children && Agrees(o, PlaceOf(st.arena, Top(st)), name, None)
    ensures OpenFor(st, name, None, isVirtual).Opened? && Follows(st, o, name, None, OpenFor(st, name, None, isVirtual).st)
  {
    var a, t, c := st.arena, Top(st), st.arena[Top(st)].children[name];
    OpeningKnown(st, name, isVirtual);
    NothingNew(a, t, name, o);
    SameSteps(a, t, name, c);
  }

  lemma OpeningKnown(st: State, name: string, isVirtual: bool)
    requires Inv(st) && st.stack != [] && name in st.arena[Top(st)].children
    ensures var c := st.arena[Top(st)].children[name];
      c in st.arena && OpenFor(st, name, None, isVirtual) == Opened(st.(stack := st.stack + [c]), name)
  {
    OpenExisting(st, name, false);
  }

  lemma NothingNew(a: Arena, t: ScopeId, name: string, o: Outline)
    requires Linked(a) && Tabled(a) && t in a && AllMirror(a, a.Keys, o) && CleanName(name) && name in a[t].children
    requires Agrees(o, PlaceOf(a, t), name, None)
    ensures Noted(o, PlaceOf(a, t), name, None) == o
  {
    assert TabledAt(a, t) && MirrorsHere(a, t, o);
    NoEmptyAlias(a, t);
    assert NameMirrored(a[t], PlaceOf(a, t), o, name);
    NotedAgain(o, PlaceOf(a, t), name);
  }

  lemma OpeningFollows(st: State, name: string, range: Option<Range>, isVirtual: bool, o: Outline, p: Plan)
    requires Beside(st, o, p) && Foreseen(st.arena, Top(st), name, range, p)
    requires Agrees(o, PlaceOf(st.arena, Top(st)), name, range)
    ensures OpenFor(st, name, range, isVirtual).Opened? && Follows(st, o, name, range, OpenFor(st, name, range, isVirtual).st)
  {
    if range.Some? && SameRange(st.arena, Top(st), range.value) != {} {
      CoveredIsFree(st.arena, Top(st), name, range.value, p);
      CoveredOpens(st, name, range.value, isVirtual, o);
    } else if range.None? && name in st.arena[Top(st)].children {
      KnownOpens(st, name, isVirtual, o);
    } else {
      NewIsUnknown(st.arena, Top(st), name, range, p);
      NewOpens(st, name, range, isVirtual, o);
    }
  }

  lemma CoveredIsFree(a: Arena, t: ScopeId, name: string, r: Range, p: Plan)
    requires Linked(a) && Tabled(a) && Keyed(a, p) && t in a && Foreseen(a, t, name, Some(r), p) && SameRange(a, t, r) != {}
    ensures !Taken(a[t], name, Least(SameRange(a, t, r)))
  {
    var c := Least(SameRange(a, t, r));
    SiblingOfRange(a, t, r, c);
    assert TabledAt(a, t) && KeyedAt(a, t, p);
    AliasIsFree(a, t, c, name, r, p);
  }

  lemma PlainStays(a: Arena, b: Arena, t: ScopeId, c: ScopeId, name: string, range: Option<Range>, p: Plan, q: Plan)
    requires Linked(a) && Linked(b) && Touched(a, b, t) && Steady(a, b, p, q) && PlainPlan(a, p)
    requires c in b && b.Keys == a.Keys + {c} && b[c].parent == Some(t) && b[c].range == range
    requires KeyAt(b, c, q.marks) == KeyOf(KeyAt(a, t, p.marks), name, range) && (c !in a ==> b[c].name == name)
    ensures PlainPlan(b, q) && PlaceOf(b, c) == KeyOf(PlaceOf(a, t), name, range)
  {
    PlaceStays(a, b, t, t);
    assert PlainAt(a, t, p);
    forall s | s in a ensures PlainAt(b, s, q) {
      assert PlainAt(a, s, p);
      KeyStays(a, b, s, p, q);
      PlaceStays(a, b, t, s);
    }
  }

  /** A node that gives no name a second range is entered, and the outline follows. */
  lemma OpenOutlined(st: State, name: string, range: Option<Range>, isVirtual: bool, o: Outline, p: Plan) returns (q: Plan)
    requires Beside(st, o, p) && Foreseen(st.arena, Top(st), name, range, p)
    requires Agrees(o, PlaceOf(st.arena, Top(st)), name, range)
    ensures var k, r := PlaceOf(st.arena, Top(st)), OpenFor(st, name, range, isVirtual);
      && r.Opened? && Beside(r.st, Noted(o, k, name, range), q)
      && Entered(st.arena, Top(st), r.st.arena, Top(r.st), name, Mark(o, k, name), range, p, q)
      && PlaceOf(r.st.arena, Top(r.st)) == KeyOf(k, Mark(o, k, name), range)
  {
    var a, t, k := st.arena, Top(st), PlaceOf(st.arena, Top(st));
    assert MirrorsHere(a, t, o);
    OpeningFollows(st, name, range, isVirtual, o, p);
    OpenForKeeps(st, name, range, isVirtual);
    q := OpenForEnters(st, name, Mark(o, k, name), range, isVirtual, p);
    var u := OpenFor(st, name, range, isVirtual).st;
    PlainStays(a, u.arena, t, Top(u), Mark(o, k, name), range, p, q);
    NotedPlaced(a, u.arena, t, o, name, range);
  }

  // -------------------------------------------------------------- the conflict

  /** At the first name met with a second range, the walk fails exactly when the text is covered and
      the name is an alias. */
  lemma ConflictFails(st: State, name: string, range: Option<Range>, isVirtual: bool, o: Outline, p: Plan)
    requires Beside(st, o, p) && CleanName(name) && Fits(o, p.schema)
    requires !Agrees(o, PlaceOf(st.arena, Top(st)), name, range)
    ensures var k := PlaceOf(st.arena, Top(st));
      OpenFor(st, name, range, isVirtual).Failed? <==> Covered(o, k, range) && Again(o, k, name)
  {
    var a, t, k := st.arena, Top(st), PlaceOf(st.arena, Top(st));
    assert TabledAt(a, t) && MirrorsHere(a, t, o);
    OpenForKeeps(st, name, range, isVirtual);
    if range.Some? && SameRange(a, t, range.value) != {} {
      var c := Least(SameRange(a, t, range.value));
      SoundIsCovering(st, range.value, c);
      OpeningCovered(st, name, range.value, isVirtual, c);
      ConflictIsTaken(a, t, name, range.value, c, o, p);
    } else {
      UncoveredOpens(st, name, range, isVirtual);
    }
  }

  lemma UncoveredOpens(st: State, name: string, range: Option<Range>, isVirtual: bool)
    requires Inv(st) && st.stack != [] && CleanName(name)
    requires range.Some? ==> SameRange(st.arena, Top(st), range.value) == {}
    ensures OpenFor(st, name, range, isVirtual).Opened?
  {
    OpenKeeps(st, name, isVirtual);
  }

  lemma ConflictIsTaken(a: Arena, t: ScopeId, name: string, r: Range, c: ScopeId, o: Outline, p: Plan)
    requires Linked(a) && Tabled(a) && t in a && Keyed(a, p) && PlainPlan(a, p) && AllMirror(a, a.Keys, o)
    requires CleanName(name) && Fits(o, p.schema) && !Agrees(o, PlaceOf(a, t), name, Some(r)) && c in SameRange(a, t, r)
    ensures Taken(a[t], name, c) <==> Again(o, PlaceOf(a, t), name)
  {
    assert TabledAt(a, t) && KeyedAt(a, t, p) && PlainAt(a, t, p) && MirrorsHere(a, t, o);
    assert NameMirrored(a[t], PlaceOf(a, t), o, name);
    if name in a[t].aliases {
      AliasHasRange(a, t, name, p);
    }
  }

  // ------------------------------------------------------------ the whole walk

  /** What the outline says of a walk from here. */
  ghost predicate Foretells(st: State, r: Result, v: Verdict, p: Plan, q: Plan)
    requires Inv(st) && st.stack != []
  {
    match v
    case Fine(seen) => Succeeds(st, r, p, q) && Beside(r.st, seen, q)
    case Clash(_) => r.Err?
    case Lost(_) => true
  }

  lemma {:induction false} VisitOutlined(st: State, node: Design, o: Outline, p: Plan) returns (q: Plan)
    requires Beside(st, o, p) && Clean(node) && Fits(Outlined(o, PlaceOf(st.arena, Top(st)), node).seen, p.schema)
    ensures Foretells(st, Visit(st, node), Outlined(o, PlaceOf(st.arena, Top(st)), node), p, q)
    decreases node, 1
  {
    if node.Unit? {
      q := VisitAllOutlined(st, node.members, o, p);
    } else if Agrees(o, PlaceOf(st.arena, Top(st)), node.name, node.range) {
      q := VisitAgreeing(st, node, o, p);
    } else {
      OutlinedStops(o, PlaceOf(st.arena, Top(st)), node);
      VisitConflicting(st, node, o, p);
      q := p;
    }
  }

  lemma OutlinedStops(o: Outline, k: Key, node: Design)
    requires node.Node? && !Agrees(o, k, node.name, node.range)
    ensures Outlined(o, k, node) == if Covered(o, k, node.range) && Again(o, k, node.name) then Clash(o) else Lost(o)
  {
  }

  lemma FailedOpeningFails(st: State, node: Design)
    requires node.Node? && OpenFor(st, node.name, node.range, node.isVirtual).Failed?
    ensures Visit(st, node).Err?
  {
  }

  lemma VisitConflicting(st: State, node: Design, o: Outline, p: Plan)
    requires Beside(st, o, p) && Clean(node) && Fits(o, p.schema)
    requires node.Node? && !Agrees(o, PlaceOf(st.arena, Top(st)), node.name, node.range)
    ensures Outlined(o, PlaceOf(st.arena, Top(st)), node).Clash? ==> Visit(st, node).Err?
  {
    OutlinedStops(o, PlaceOf(st.arena, Top(st)), node);
    ConflictFails(st, node.name, node.range, node.isVirtual, o, p);
    if Outlined(o, PlaceOf(st.arena, Top(st)), node).Clash? {
      FailedOpeningFails(st, node);
    }
  }

  lemma {:induction false} VisitAgreeing(st: State, node: Design, o: Outline, p: Plan) returns (q: Plan)
    requires Beside(st, o, p) && Clean(node) && Fits(Outlined(o, PlaceOf(st.arena, Top(st)), node).seen, p.schema)
    requires node.Node? && Agrees(o, PlaceOf(st.arena, Top(st)), node.name, node.range)
    ensures Foretells(st, Visit(st, node), Outlined(o, PlaceOf(st.arena, Top(st)), node), p, q)
    decreases node, 0
  {
    var Node(name, range, isVirtual, isInstance, members) := node;
    var k := PlaceOf(st.arena, Top(st));
    var next, inner := Noted(o, k, name, range), KeyOf(k, Mark(o, k, name), range);
    OutlineAllContinues(next, inner, members);
    IsForeseen(st.arena, Top(st), name, range, o, OutlinedAll(next, inner, members).seen, p);
    var p' := OpenOutlined(st, name, range, isVirtual, o, p);
    var u := OpenFor(st, name, range, isVirtual).st;
    q := VisitAllOutlined(u, members, next, p');
    OpenForKeeps(st, name, range, isVirtual);
    if OutlinedAll(next, inner, members).Fine? {
      NodeCloses(st, node);
      GrowsMore(st.arena, u.arena, VisitAll(u, members).st.arena, p, p', q);
    }
  }

  lemma IsForeseen(a: Arena, t: ScopeId, name: string, range: Option<Range>, o: Outline, seen: Outline, p: Plan)
    requires Linked(a) && t in a && PlainPlan(a, p) && CleanName(name)
    requires Continues(Noted(o, PlaceOf(a, t), name, range), seen) && Fits(seen, p.schema)
    ensures Foreseen(a, t, name, range, p)
  {
    assert PlainAt(a, t, p);
    if name != "" {
      assert (PlaceOf(a, t), name) in Noted(o, PlaceOf(a, t), name, range).names;
    }
  }

  lemma GrownPlace(a: Arena, b: Arena, s: ScopeId, p: Plan, q: Plan)
    requires Linked(a) && Linked(b) && Extends(a, b) && Steady(a, b, p, q) && s in a
    ensures PlaceOf(b, s) == PlaceOf(a, s)
  {
    var plain := Plan(p.schema, map[]);
    assert Steady(a, b, plain, plain);
    KeyStays(a, b, s, plain, plain);
  }

  lemma OneAfterAnother(st: State, u: State, r: Result, v: Verdict, p: Plan, p': Plan, q: Plan)
    requires Inv(st) && st.stack != [] && u.stack == st.stack && Inv(u) && Grows(st.arena, u.arena, p, p') && Foretells(u, r, v, p', q)
    ensures Foretells(st, r, v, p, q)
  {
    if v.Fine? {
      GrowsMore(st.arena, u.arena, r.st.arena, p, p', q);
    }
  }

  lemma {:induction false} VisitAllOutlined(st: State, nodes: seq<Design>, o: Outline, p: Plan) returns (q: Plan)
    requires Beside(st, o, p) && AllClean(nodes) && Fits(OutlinedAll(o, PlaceOf(st.arena, Top(st)), nodes).seen, p.schema)
    ensures Foretells(st, VisitAll(st, nodes), OutlinedAll(o, PlaceOf(st.arena, Top(st)), nodes), p, q)
    decreases nodes, 0
  {
    q := p;
    if nodes != [] {
      var k := PlaceOf(st.arena, Top(st));
      var v := Outlined(o, k, nodes[0]);
      if v.Fine? {
        OutlineAllContinues(v.seen, k, nodes[1..]);
        var p' := VisitOutlined(st, nodes[0], o, p);
        var u := Visit(st, nodes[0]).st;
        GrownPlace(st.arena, u.arena, Top(st), p, p');
        q := VisitAllOutlined(u, nodes[1..], v.seen, p');
        OneAfterAnother(st, u, VisitAll(u, nodes[1..]), OutlinedAll(v.seen, k, nodes[1..]), p, p', q);
      } else {
        q := VisitOutlined(st, nodes[0], o, p);
      }
    }
  }

  lemma StartedIsMirrored(name: string, schema: Schema)
    ensures Beside(Started(name), BLANK, Plan(schema, map[])) && PlaceOf(Started(name).arena, 0) == Whole
  {
    StartedIsSound(name, schema);
    var a := Started(name).arena;
    assert MirrorsHere(a, 0, BLANK);
  }

  /** The outline of a design, which knows no scopes, tells how its walk ends: well, with everything in
      the index; in the alias error; or after something was lost, with or without an error later on. */
  lemma WalkEndsExactly(name: string, isVirtual: bool, members: seq<Design>)
    requires AllClean(members)
    ensures var v, r := OutlinedAll(BLANK, Whole, members), Visit(EMPTY, Node(name, None, isVirtual, false, members));
      && (v.Fine? <==> r.Ok? && Linked(r.st.arena) && 0 in r.st.arena && HoldsAll(r.st.arena, 0, members))
      && (v.Clash? ==> r == Err(AliasClash))
      && (!v.Lost? ==> (r == Err(AliasClash) <==> v.Clash?))
  {
    var v := OutlinedAll(BLANK, Whole, members);
    FineExactly(members);
    IndexedExactly(name, isVirtual, members);
    DesignIsWalked(name, isVirtual, members);
    StartedIsMirrored(name, SchemaFrom(v.seen));
    var q := VisitAllOutlined(Started(name), members, BLANK, Plan(SchemaFrom(v.seen), map[]));
  }
}
