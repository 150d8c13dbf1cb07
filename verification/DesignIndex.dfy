/** What the index holds after a whole design was walked. Duplicated instances share one scope, so
    the walk succeeds, and every scope of the design can be found, when scopes over the same source
    text give the same range to the same name. */
module DesignIndex {
  import opened Wrappers
  import opened Choice
  import opened Positions
  import opened ScopeTree
  import opened VisitModel

  /** The place of a scope once scopes over the same range are shared: below its parent, by its range
      or else by a mark. */
  datatype Key = Whole | Code(owner: Key, range: Range) | Part(owner: Key, name: string)

  /** The source range that each name has in each place. */
  type Schema = (Key, string) -> Option<Range>

  function KeyOf(owner: Key, mark: string, range: Option<Range>): Key {
    if range.Some? then Code(owner, range.value) else Part(owner, mark)
  }

  /** In one place, a name always has the same range. A scope without name and range is a place of
      its own, under any mark. */
  ghost predicate Conforms(node: Design, owner: Key, schema: Schema)
    decreases node, 1
  {
    match node
    case Unit(members) => AllConform(members, owner, schema)
    case Node(name, range, _, _, members) =>
      && CleanName(name) && (name != "" ==> schema(owner, name) == range)
      && exists mark: string :: (name == "" || mark == name) && AllConform(members, KeyOf(owner, mark, range), schema)
  }

  ghost predicate AllConform(nodes: seq<Design>, owner: Key, schema: Schema)
    decreases nodes, 0
  {
    nodes == [] || (Conforms(nodes[0], owner, schema) && AllConform(nodes[1..], owner, schema))
  }

  /** The members of the root conform to a schema. */
  ghost predicate Consistent(members: seq<Design>, schema: Schema) {
    AllConform(members, Whole, schema)
  }

  lemma {:induction false} ConformingIsClean(node: Design, owner: Key, schema: Schema)
    requires Conforms(node, owner, schema)
    ensures Clean(node)
    decreases node, 1
  {
    match node {
      case Unit(members) => AllConformingAreClean(members, owner, schema);
      case Node(name, range, _, _, members) =>
        var mark: string :| (name == "" || mark == name) && AllConform(members, KeyOf(owner, mark, range), schema);
        AllConformingAreClean(members, KeyOf(owner, mark, range), schema);
    }
  }

  lemma {:induction false} AllConformingAreClean(nodes: seq<Design>, owner: Key, schema: Schema)
    requires AllConform(nodes, owner, schema)
    ensures AllClean(nodes)
    decreases nodes, 0
  {
    if nodes != [] {
      ConformingIsClean(nodes[0], owner, schema);
      AllConformingAreClean(nodes[1..], owner, schema);
    }
  }

  // --------------------------------------------------------------- the index

  /** A schema, and the marks given so far to scopes without name and range. */
  datatype Plan = Plan(schema: Schema, marks: map<ScopeId, string>)

  function KeyAt(a: Arena, s: ScopeId, marks: map<ScopeId, string>): Key
    requires ParentsKnow(a) && s in a
    decreases s
  {
    if a[s].parent.None? then Whole
    else KeyOf(KeyAt(a, a[s].parent.value, marks), if s in marks then marks[s] else a[s].name, a[s].range)
  }

  /** Scopes keep their ranges and marks. */
  ghost predicate Steady(a: Arena, b: Arena, p: Plan, q: Plan) {
    && p.schema == q.schema
    && forall s :: s in a ==> s in b && b[s].range == a[s].range
                              && (s in p.marks <==> s in q.marks) && (s in p.marks ==> p.marks[s] == q.marks[s])
  }

  lemma {:induction false} KeyStays(a: Arena, b: Arena, s: ScopeId, p: Plan, q: Plan)
    requires ParentsKnow(a) && ParentsKnow(b) && Extends(a, b) && Steady(a, b, p, q) && s in a
    ensures KeyAt(b, s, q.marks) == KeyAt(a, s, p.marks)
    decreases s
  {
    if a[s].parent.Some? {
      KeyStays(a, b, a[s].parent.value, p, q);
    }
  }

  /** The names of a scope stand for what the schema says; only nameless scopes have marks. */
  ghost predicate KeyedAt(a: Arena, s: ScopeId, p: Plan)
    requires Linked(a) && s in a
  {
    && (s in p.marks ==> a[s].anonymous)
    && ChildrenKeyed(a, s, KeyAt(a, s, p.marks), p.schema) && AliasesKeyed(a, s, KeyAt(a, s, p.marks), p.schema)
  }

  ghost predicate ChildrenKeyed(a: Arena, s: ScopeId, k: Key, schema: Schema)
    requires ChildrenPlaced(a) && s in a
  {
    forall n :: n in a[s].children && !a[a[s].children[n]].anonymous ==> schema(k, n) == a[a[s].children[n]].range
  }

  ghost predicate AliasesKeyed(a: Arena, s: ScopeId, k: Key, schema: Schema)
    requires AliasesInside(a) && s in a
  {
    forall n :: n in a[s].aliases && UserName(n) ==> schema(k, n) == a[a[s].aliases[n]].range
  }

  ghost predicate Keyed(a: Arena, p: Plan)
    requires Linked(a)
  {
    forall s :: s in a ==> KeyedAt(a, s, p)
  }

  lemma KeyedStays(a: Arena, b: Arena, x: ScopeId, p: Plan, q: Plan)
    requires Linked(a) && Linked(b) && Extends(a, b) && Steady(a, b, p, q) && x in a && KeyedAt(a, x, p)
    requires b[x].children == a[x].children && b[x].aliases == a[x].aliases
    ensures KeyedAt(b, x, q)
  {
    KeyStays(a, b, x, p, q);
  }

  /** One scope of the design is in the index: a child of the given scope, over its source range,
      reached under its name; and so are the scopes inside it. */
  ghost predicate Holds(a: Arena, s: ScopeId, node: Design)
    requires Linked(a) && s in a
    decreases node, 1
  {
    match node
    case Unit(members) => HoldsAll(a, s, members)
    case Node(name, range, _, _, members) =>
      exists c :: c in a && HeldAs(a, s, c, name, range) && HoldsAll(a, c, members)
  }

  ghost predicate HeldAs(a: Arena, s: ScopeId, c: ScopeId, name: string, range: Option<Range>)
    requires s in a && c in a
  {
    && a[c].parent == Some(s) && a[c].range == range
    && (name != "" ==> ByName(a, s, name) == Some(c))
    && (range.Some? ==> SameRange(a, s, range.value) == {c})
  }

  ghost predicate HoldsAll(a: Arena, s: ScopeId, nodes: seq<Design>)
    requires Linked(a) && s in a
    decreases nodes, 0
  {
    nodes == [] || (Holds(a, s, nodes[0]) && HoldsAll(a, s, nodes[1..]))
  }

  /** Both arenas are well-formed and the second continues the first. */
  ghost predicate Grows(a: Arena, b: Arena, p: Plan, q: Plan) {
    && Linked(a) && Linked(b) && Tabled(a) && Tabled(b) && Extends(a, b) && Steady(a, b, p, q)
    && Keyed(a, p) && Keyed(b, q)
  }

  lemma OnlyOfItsRange(a: Arena, s: ScopeId, c: ScopeId, r: Range)
    requires Linked(a) && s in a && TabledAt(a, s) && c in a && a[c].parent == Some(s) && a[c].range == Some(r)
    ensures SameRange(a, s, r) == {c}
  {
    assert a[s].children[a[c].name] == c;
    assert c in a[s].children.Values;
    forall d | d in SameRange(a, s, r) ensures d == c {
      SiblingOfRange(a, s, r, d);
      assert d != c ==> Distinct(a, a[s].children[a[c].name], a[s].children[a[d].name]);
    }
  }

  /** A name of the design denotes a child that has the range the schema gives for it. */
  lemma NamedRange(a: Arena, s: ScopeId, name: string, p: Plan)
    requires Linked(a) && s in a && TabledAt(a, s) && KeyedAt(a, s, p)
    requires UserName(name) && ByName(a, s, name).Some?
    ensures var c := ByName(a, s, name).value;
      && c in a && a[c].parent == Some(s) && p.schema(KeyAt(a, s, p.marks), name) == a[c].range
      && (name !in a[s].children ==> a[c].range.Some?)
  {
    if name in a[s].children {
      assert !a[a[s].children[name]].anonymous;
    }
  }

  /** A name that denoted a scope goes on denoting it. */
  lemma NameStays(a: Arena, b: Arena, s: ScopeId, c: ScopeId, name: string, p: Plan, q: Plan)
    requires Grows(a, b, p, q) && s in a && c in a && UserName(name) && ByName(a, s, name) == Some(c)
    ensures ByName(b, s, name) == Some(c)
  {
    assert TabledAt(a, s) && TabledAt(b, s) && KeyedAt(a, s, p) && KeyedAt(b, s, q);
    NameStaysAt(a, b, s, c, name, p, q);
  }

  lemma NameStaysAt(a: Arena, b: Arena, s: ScopeId, c: ScopeId, name: string, p: Plan, q: Plan)
    requires Linked(a) && Linked(b) && Extends(a, b) && Steady(a, b, p, q) && s in a && c in a
    requires TabledAt(a, s) && TabledAt(b, s) && KeyedAt(a, s, p) && KeyedAt(b, s, q)
    requires UserName(name) && ByName(a, s, name) == Some(c)
    ensures ByName(b, s, name) == Some(c)
  {
    KeyStays(a, b, s, p, q);
    NamedRange(a, s, name, p);
    NamedRange(b, s, name, q);
    if name !in a[s].children {
      var r := a[c].range.value;
      OnlyOfItsRange(b, s, c, r);
      OnlyOfItsRange(b, s, ByName(b, s, name).value, r);
    } else {
      assert b[s].children[b[c].name] == c;
    }
  }

  lemma HeldStays(a: Arena, b: Arena, s: ScopeId, c: ScopeId, name: string, range: Option<Range>, p: Plan, q: Plan)
    requires Grows(a, b, p, q) && s in a && c in a && CleanName(name) && HeldAs(a, s, c, name, range)
    ensures HeldAs(b, s, c, name, range)
  {
    if name != "" {
      NameStays(a, b, s, c, name, p, q);
    }
    if range.Some? {
      assert TabledAt(b, s);
      OnlyOfItsRange(b, s, c, range.value);
    }
  }

  lemma {:induction false} HoldsStays(a: Arena, b: Arena, s: ScopeId, node: Design, p: Plan, q: Plan)
    requires Grows(a, b, p, q) && s in a && Clean(node) && Holds(a, s, node)
    ensures Holds(b, s, node)
    decreases node, 1
  {
    match node {
      case Unit(members) => HoldsAllStays(a, b, s, members, p, q);
      case Node(name, range, _, _, members) =>
        var c :| c in a && HeldAs(a, s, c, name, range) && HoldsAll(a, c, members);
        HeldStays(a, b, s, c, name, range, p, q);
        HoldsAllStays(a, b, c, members, p, q);
    }
  }

  lemma {:induction false} HoldsAllStays(a: Arena, b: Arena, s: ScopeId, nodes: seq<Design>, p: Plan, q: Plan)
    requires Grows(a, b, p, q) && s in a && AllClean(nodes) && HoldsAll(a, s, nodes)
    ensures HoldsAll(b, s, nodes)
    decreases nodes, 0
  {
    if nodes != [] {
      HoldsStays(a, b, s, nodes[0], p, q);
      HoldsAllStays(a, b, s, nodes[1..], p, q);
    }
  }

  // ------------------------------------------------------------ one opening

  /** A scope gained a child, and nothing else changed but its count of made-up names. */
  ghost predicate Gained(a: Arena, b: Arena, t: ScopeId, id: ScopeId, child: Scope) {
    && t in a && id !in a && b.Keys == a.Keys + {id} && b[id] == child
    && child.parent == Some(t) && child.children == map[] && child.aliases == map[]
    && (forall x :: x in a && x != t ==> b[x] == a[x])
    && b[t].parent == a[t].parent && b[t].name == a[t].name && b[t].anonymous == a[t].anonymous && b[t].range == a[t].range
    && b[t].children == a[t].children[child.name := id] && b[t].aliases == a[t].aliases
  }

  /** The plan once a child was gained: a nameless one gets a mark. */
  function Planned(p: Plan, id: ScopeId, child: Scope, mark: string): Plan {
    if child.anonymous then p.(marks := p.marks[id := mark]) else p.(marks := p.marks - {id})
  }

  lemma GainedExtends(a: Arena, b: Arena, t: ScopeId, id: ScopeId, child: Scope, mark: string, p: Plan)
    requires Gained(a, b, t, id, child)
    ensures Extends(a, b) && Steady(a, b, p, Planned(p, id, child, mark))
  {
  }

  lemma GainedIsKeyed(a: Arena, b: Arena, t: ScopeId, id: ScopeId, child: Scope, mark: string, p: Plan)
    requires Linked(a) && Linked(b) && Gained(a, b, t, id, child) && Keyed(a, p)
    requires !child.anonymous ==> p.schema(KeyAt(a, t, p.marks), child.name) == child.range
    ensures Keyed(b, Planned(p, id, child, mark))
  {
    var q := Planned(p, id, child, mark);
    GainedExtends(a, b, t, id, child, mark, p);
    forall x | x in b ensures KeyedAt(b, x, q) {
      if x == t {
        GainedIsKeyedAt(a, b, t, id, child, p, q);
      } else if x != id {
        KeyedStays(a, b, x, p, q);
      }
    }
  }

  lemma GainedIsKeyedAt(a: Arena, b: Arena, t: ScopeId, id: ScopeId, child: Scope, p: Plan, q: Plan)
    requires Linked(a) && Linked(b) && Gained(a, b, t, id, child) && KeyedAt(a, t, p)
    requires Extends(a, b) && Steady(a, b, p, q)
    requires !child.anonymous ==> p.schema(KeyAt(a, t, p.marks), child.name) == child.range
    ensures KeyedAt(b, t, q)
  {
    KeyStays(a, b, t, p, q);
    GainedChildren(a, b, t, id, child, KeyAt(a, t, p.marks), p.schema);
    GainedAliases(a, b, t, id, child, KeyAt(a, t, p.marks), p.schema);
  }

  lemma GainedChildren(a: Arena, b: Arena, t: ScopeId, id: ScopeId, child: Scope, k: Key, schema: Schema)
    requires ChildrenPlaced(a) && ChildrenPlaced(b) && Gained(a, b, t, id, child) && ChildrenKeyed(a, t, k, schema)
    requires !child.anonymous ==> schema(k, child.name) == child.range
    ensures ChildrenKeyed(b, t, k, schema)
  {
    forall n | n in b[t].children && !b[b[t].children[n]].anonymous ensures schema(k, n) == b[b[t].children[n]].range {
      assert n == child.name || n in a[t].children;
    }
  }

  lemma GainedAliases(a: Arena, b: Arena, t: ScopeId, id: ScopeId, child: Scope, k: Key, schema: Schema)
    requires AliasesInside(a) && AliasesInside(b) && Gained(a, b, t, id, child) && AliasesKeyed(a, t, k, schema)
    ensures AliasesKeyed(b, t, k, schema)
  {
  }

  /** The schema knows the name in the scope. */
  ghost predicate Foreseen(a: Arena, t: ScopeId, name: string, range: Option<Range>, p: Plan)
    requires Linked(a) && t in a
  {
    CleanName(name) && (name != "" ==> p.schema(KeyAt(a, t, p.marks), name) == range)
  }

  /** The scope entered is the one that the design means. */
  ghost predicate Entered(a: Arena, t: ScopeId, b: Arena, c: ScopeId, name: string, mark: string, range: Option<Range>, p: Plan, q: Plan)
    requires Linked(a) && t in a
  {
    && Grows(a, b, p, q) && c in b && HeldAs(b, t, c, name, range)
    && KeyAt(b, c, q.marks) == KeyOf(KeyAt(a, t, p.marks), mark, range)
  }

  lemma EnterGained(a: Arena, t: ScopeId, b: Arena, c: ScopeId, child: Scope, name: string, mark: string, range: Option<Range>, p: Plan)
    requires Linked(a) && Tabled(a) && Keyed(a, p) && Linked(b) && Tabled(b)
    requires Gained(a, b, t, c, child) && Foreseen(a, t, name, range, p) && (name == "" || mark == name)
    requires child.range == range && child.anonymous == (name == "") && (name != "" ==> child.name == name)
    ensures Entered(a, t, b, c, name, mark, range, p, Planned(p, c, child, mark))
  {
    GainedExtends(a, b, t, c, child, mark, p);
    GainedIsKeyed(a, b, t, c, child, mark, p);
    HeldGained(a, t, b, c, child, name, mark, range, p);
  }

  lemma HeldGained(a: Arena, t: ScopeId, b: Arena, c: ScopeId, child: Scope, name: string, mark: string, range: Option<Range>, p: Plan)
    requires Linked(a) && Linked(b) && Extends(a, b) && Steady(a, b, p, Planned(p, c, child, mark))
    requires Gained(a, b, t, c, child) && TabledAt(b, t) && (name == "" || mark == name)
    requires child.range == range && child.anonymous == (name == "") && (name != "" ==> child.name == name)
    ensures HeldAs(b, t, c, name, range)
    ensures KeyAt(b, c, Planned(p, c, child, mark).marks) == KeyOf(KeyAt(a, t, p.marks), mark, range)
  {
    KeyStays(a, b, t, p, Planned(p, c, child, mark));
    if range.Some? {
      OnlyOfItsRange(b, t, c, range.value);
    }
  }

  /** A child already there under the name, without a range. */
  lemma EnterNamed(a: Arena, t: ScopeId, name: string, p: Plan)
    requires Linked(a) && Tabled(a) && Keyed(a, p) && t in a && name in a[t].children
    requires Foreseen(a, t, name, None, p)
    ensures Entered(a, t, a, a[t].children[name], name, name, None, p, p)
  {
    assert TabledAt(a, t) && KeyedAt(a, t, p);
    NoEmptyAlias(a, t);
    NamedRange(a, t, name, p);
    assert !a[a[t].children[name]].anonymous && KeyedAt(a, a[t].children[name], p);
  }

  lemma OpenGains(st: State, name: string, isVirtual: bool)
    requires st.stack != [] && HasTop(st) && ChildrenPlaced(st.arena) && TabledAt(st.arena, Top(st)) && Numbered(st.arena, st.next)
    requires CleanName(name) && name !in st.arena[Top(st)].children
    ensures var t := Top(st); var used := if name == "" then Unnamed(st.arena[t].unnamedCount) else name;
      var u := Open(st, name, isVirtual);
      u.stack != [] && Gained(st.arena, u.arena, t, Top(u), ChildScope(t, used, isVirtual, name == ""))
  {
    NextNameIsFresh(st.arena, Top(st));
  }

  /** Setting the range of a child just gained is gaining it with the range. */
  lemma GainedWithRange(a: Arena, b: Arena, t: ScopeId, id: ScopeId, child: Scope, r: Range)
    requires Gained(a, b, t, id, child)
    ensures Gained(a, b[id := child.(range := Some(r))], t, id, child.(range := Some(r)))
  {
  }

  lemma EnterFresh(st: State, name: string, r: Range, isVirtual: bool, p: Plan) returns (q: Plan)
    requires Inv(st) && st.stack != [] && Keyed(st.arena, p) && Foreseen(st.arena, Top(st), name, Some(r), p)
    requires SameRange(st.arena, Top(st), r) == {}
    ensures var o := OpenFor(st, name, Some(r), isVirtual);
      o.Opened? && o.st.stack != [] && Entered(st.arena, Top(st), o.st.arena, Top(o.st), name, name, Some(r), p, q)
  {
    var t := Top(st);
    FreshNameIsNew(st.arena, t, name, r, p);
    OpenFresh(st, name, r, isVirtual);
    assert TabledAt(st.arena, t);
    OpenGains(st, name, isVirtual);
    var u := Open(st, name, isVirtual);
    var c := Top(u);
    var child := u.arena[c].(range := Some(r));
    GainedWithRange(st.arena, u.arena, t, c, u.arena[c], r);
    EnterGained(st.arena, t, Ranged(u, r).arena, c, child, name, name, Some(r), p);
    q := Planned(p, c, child, name);
  }

  lemma FreshNameIsNew(a: Arena, t: ScopeId, name: string, r: Range, p: Plan)
    requires Linked(a) && Tabled(a) && Keyed(a, p) && t in a && Foreseen(a, t, name, Some(r), p)
    requires SameRange(a, t, r) == {}
    ensures name !in a[t].children
  {
    assert TabledAt(a, t) && KeyedAt(a, t, p);
    NoEmptyAlias(a, t);
    if name in a[t].children {
      NamedRange(a, t, name, p);
      OnlyOfItsRange(a, t, a[t].children[name], r);
    }
  }

  /** Whatever the name already stands for is the scope over that range. */
  lemma AliasIsFree(a: Arena, t: ScopeId, c: ScopeId, name: string, r: Range, p: Plan)
    requires Linked(a) && t in a && TabledAt(a, t) && KeyedAt(a, t, p) && Foreseen(a, t, name, Some(r), p)
    requires c in a && a[c].parent == Some(t) && a[c].range == Some(r)
    ensures SameRange(a, t, r) == {c}
    ensures name in a[t].aliases ==> a[t].aliases[name] == c
    ensures name in a[t].children ==> a[t].children[name] == c
  {
    NoEmptyAlias(a, t);
    OnlyOfItsRange(a, t, c, r);
    if name in a[t].aliases {
      OnlyOfItsRange(a, t, a[t].aliases[name], r);
    }
    if name in a[t].children {
      NamedRange(a, t, name, p);
      OnlyOfItsRange(a, t, a[t].children[name], r);
    }
  }

  /** A sibling over the same range: the alias cannot be taken by another scope. */
  lemma EnterDuplicate(st: State, name: string, r: Range, isVirtual: bool, p: Plan)
    requires Inv(st) && st.stack != [] && Keyed(st.arena, p) && Foreseen(st.arena, Top(st), name, Some(r), p)
    requires SameRange(st.arena, Top(st), r) != {}
    ensures var o := OpenFor(st, name, Some(r), isVirtual);
      o.Opened? && o.st.stack != [] && Entered(st.arena, Top(st), o.st.arena, Top(o.st), name, name, Some(r), p, p)
  {
    var a, t, c := st.arena, Top(st), Least(SameRange(st.arena, Top(st), r));
    SiblingOfRange(a, t, r, c);
    assert TabledAt(a, t) && KeyedAt(a, t, p);
    AliasIsFree(a, t, c, name, r, p);
    SoundIsCovering(st, r, c);
    OpeningCovered(st, name, r, isVirtual, c);
    AliasedKeeps(st, t, name, c);
    EnterAliased(a, t, c, name, r, p);
  }

  lemma EnterAliased(a: Arena, t: ScopeId, c: ScopeId, name: string, r: Range, p: Plan)
    requires Linked(a) && Tabled(a) && Keyed(a, p) && t in a && Foreseen(a, t, name, Some(r), p)
    requires c in a && a[c].parent == Some(t) && a[c].range == Some(r)
    requires Linked(Aliased(a, t, name, c)) && Tabled(Aliased(a, t, name, c)) && Extends(a, Aliased(a, t, name, c))
    ensures Entered(a, t, Aliased(a, t, name, c), c, name, name, Some(r), p, p)
  {
    AliasedIsKeyed(a, t, c, name, r, p);
    HeldAliased(a, t, c, name, r, p);
    KeyStays(a, Aliased(a, t, name, c), t, p, p);
  }

  lemma HeldAliased(a: Arena, t: ScopeId, c: ScopeId, name: string, r: Range, p: Plan)
    requires Linked(a) && Tabled(a) && Keyed(a, p) && t in a && Foreseen(a, t, name, Some(r), p)
    requires c in a && a[c].parent == Some(t) && a[c].range == Some(r)
    requires Linked(Aliased(a, t, name, c)) && Tabled(Aliased(a, t, name, c))
    ensures HeldAs(Aliased(a, t, name, c), t, c, name, Some(r))
  {
    var b := Aliased(a, t, name, c);
    assert TabledAt(a, t) && KeyedAt(a, t, p) && TabledAt(b, t);
    AliasIsFree(a, t, c, name, r, p);
    OnlyOfItsRange(b, t, c, r);
  }

  lemma AliasedIsSteady(a: Arena, t: ScopeId, c: ScopeId, name: string, p: Plan)
    requires t in a
    ensures Steady(a, Aliased(a, t, name, c), p, p)
  {
  }

  lemma AliasedIsKeyed(a: Arena, t: ScopeId, c: ScopeId, name: string, r: Range, p: Plan)
    requires Linked(a) && Keyed(a, p) && t in a && Foreseen(a, t, name, Some(r), p)
    requires c in a && a[c].parent == Some(t) && a[c].range == Some(r)
    requires Linked(Aliased(a, t, name, c)) && Extends(a, Aliased(a, t, name, c))
    ensures Steady(a, Aliased(a, t, name, c), p, p) && Keyed(Aliased(a, t, name, c), p)
  {
    var b := Aliased(a, t, name, c);
    AliasedIsSteady(a, t, c, name, p);
    forall x | x in b ensures KeyedAt(b, x, p) {
      assert KeyedAt(a, x, p);
      if x == t {
        AliasedIsKeyedAt(a, t, c, name, r, p);
      } else {
        KeyedStays(a, b, x, p, p);
      }
    }
  }

  lemma AliasedIsKeyedAt(a: Arena, t: ScopeId, c: ScopeId, name: string, r: Range, p: Plan)
    requires Linked(a) && t in a && KeyedAt(a, t, p) && Foreseen(a, t, name, Some(r), p)
    requires c in a && a[c].parent == Some(t) && a[c].range == Some(r)
    requires Linked(Aliased(a, t, name, c)) && Extends(a, Aliased(a, t, name, c)) && Steady(a, Aliased(a, t, name, c), p, p)
    ensures KeyedAt(Aliased(a, t, name, c), t, p)
  {
    var b := Aliased(a, t, name, c);
    KeyStays(a, b, t, p, p);
    AliasedTableIsKeyed(a, t, c, name, r, KeyAt(a, t, p.marks), p.schema);
    assert ChildrenKeyed(b, t, KeyAt(a, t, p.marks), p.schema);
  }

  lemma AliasedTableIsKeyed(a: Arena, t: ScopeId, c: ScopeId, name: string, r: Range, k: Key, schema: Schema)
    requires AliasesInside(a) && t in a && AliasesKeyed(a, t, k, schema) && CleanName(name)
    requires name != "" ==> schema(k, name) == Some(r)
    requires c in a && a[c].range == Some(r) && AliasesInside(Aliased(a, t, name, c))
    ensures AliasesKeyed(Aliased(a, t, name, c), t, k, schema)
  {
    var b := Aliased(a, t, name, c);
    assert !UserName(Unnamed(a[t].unnamedCount));
    forall n | n in b[t].aliases && UserName(n) ensures schema(k, n) == b[b[t].aliases[n]].range {
      assert n == name || n in a[t].aliases;
    }
  }

  lemma OpenForEnters(st: State, name: string, mark: string, range: Option<Range>, isVirtual: bool, p: Plan) returns (q: Plan)
    requires Inv(st) && st.stack != [] && Keyed(st.arena, p) && Foreseen(st.arena, Top(st), name, range, p)
    requires name == "" || mark == name
    ensures var o := OpenFor(st, name, range, isVirtual);
      o.Opened? && o.st.stack != [] && Entered(st.arena, Top(st), o.st.arena, Top(o.st), name, mark, range, p, q)
  {
    if range.Some? {
      if SameRange(st.arena, Top(st), range.value) == {} {
        q := EnterFresh(st, name, range.value, isVirtual, p);
      } else {
        EnterDuplicate(st, name, range.value, isVirtual, p);
        q := p;
      }
    } else {
      q := EnterPlain(st, name, mark, isVirtual, p);
    }
  }

  lemma EnterPlain(st: State, name: string, mark: string, isVirtual: bool, p: Plan) returns (q: Plan)
    requires Inv(st) && st.stack != [] && Keyed(st.arena, p) && Foreseen(st.arena, Top(st), name, None, p)
    requires name == "" || mark == name
    ensures var o := OpenFor(st, name, None, isVirtual);
      o.Opened? && o.st.stack != [] && Entered(st.arena, Top(st), o.st.arena, Top(o.st), name, mark, None, p, q)
  {
    var t := Top(st);
    assert TabledAt(st.arena, t);
    NoEmptyAlias(st.arena, t);
    if name in st.arena[t].children {
      OpenExisting(st, name, false);
      EnterNamed(st.arena, t, name, p);
      q := p;
    } else {
      OpenKeeps(st, name, false);
      OpenGains(st, name, false);
      var u := Open(st, name, false);
      EnterGained(st.arena, t, u.arena, Top(u), u.arena[Top(u)], name, mark, None, p);
      q := Planned(p, Top(u), u.arena[Top(u)], mark);
    }
  }

  // ------------------------------------------------------------- whole walks

  lemma GrowsMore(a: Arena, b: Arena, c: Arena, p: Plan, q: Plan, r: Plan)
    requires Grows(a, b, p, q) && Grows(b, c, q, r)
    ensures Grows(a, c, p, r)
  {
  }

  /** What a walk of a conforming design brings about. */
  ghost predicate Succeeds(st: State, r: Result, p: Plan, q: Plan)
    requires Inv(st) && st.stack != []
  {
    r.Ok? && r.st.stack == st.stack && Inv(r.st) && Grows(st.arena, r.st.arena, p, q)
  }

  /** Walking a conforming design cannot fail, and afterwards the index holds every scope of it. */
  lemma {:induction false} VisitIndexes(st: State, node: Design, p: Plan) returns (q: Plan)
    requires Inv(st) && st.stack != [] && Keyed(st.arena, p)
    requires Conforms(node, KeyAt(st.arena, Top(st), p.marks), p.schema)
    ensures Succeeds(st, Visit(st, node), p, q) && Holds(Visit(st, node).st.arena, Top(st), node)
    decreases node, 1
  {
    match node {
      case Unit(members) => q := VisitAllIndexes(st, members, p);
      case Node(name, range, isVirtual, isInstance, members) =>
        var owner := KeyAt(st.arena, Top(st), p.marks);
        var mark: string :| (name == "" || mark == name) && AllConform(members, KeyOf(owner, mark, range), p.schema);
        var p' := OpenForEnters(st, name, mark, range, isVirtual, p);
        OpenForKeeps(st, name, range, isVirtual);
        var o := OpenFor(st, name, range, isVirtual);
        q := VisitAllIndexes(o.st, members, p');
        var v := VisitAll(o.st, members).st;
        NodeCloses(st, node);
        EnteredStays(st.arena, Top(st), o.st.arena, Top(o.st), v.arena, name, mark, range, p, p', q);
    }
  }

  lemma EnteredStays(a: Arena, t: ScopeId, b: Arena, c: ScopeId, d: Arena, name: string, mark: string, range: Option<Range>,
                     p: Plan, q: Plan, r: Plan)
    requires Linked(a) && t in a && CleanName(name)
    requires Entered(a, t, b, c, name, mark, range, p, q) && Grows(b, d, q, r)
    ensures Grows(a, d, p, r) && HeldAs(d, t, c, name, range)
  {
    GrowsMore(a, b, d, p, q, r);
    HeldStays(b, d, t, c, name, range, q, r);
  }

  lemma {:induction false} VisitAllIndexes(st: State, nodes: seq<Design>, p: Plan) returns (q: Plan)
    requires Inv(st) && st.stack != [] && Keyed(st.arena, p)
    requires AllConform(nodes, KeyAt(st.arena, Top(st), p.marks), p.schema)
    ensures Succeeds(st, VisitAll(st, nodes), p, q) && HoldsAll(VisitAll(st, nodes).st.arena, Top(st), nodes)
    decreases nodes, 0
  {
    if nodes == [] {
      q := p;
    } else {
      var p' := VisitIndexes(st, nodes[0], p);
      var u := Visit(st, nodes[0]).st;
      KeyStays(st.arena, u.arena, Top(st), p, p');
      q := VisitAllIndexes(u, nodes[1..], p');
      var v := VisitAll(u, nodes[1..]).st;
      GrowsMore(st.arena, u.arena, v.arena, p, p', q);
      ConformingIsClean(nodes[0], KeyAt(st.arena, Top(st), p.marks), p.schema);
      HoldsStays(u.arena, v.arena, Top(st), nodes[0], p', q);
    }
  }

  // ------------------------------------------------------ the other way round

  /** Without marks, no two scopes below one root have the same place. */
  lemma {:induction false} PlacesDiffer(a: Arena, s: ScopeId, t: ScopeId)
    requires Linked(a) && Tabled(a) && s in a && t in a && RootOf(a, s) == RootOf(a, t)
    requires KeyAt(a, s, map[]) == KeyAt(a, t, map[])
    ensures s == t
    decreases s
  {
    if a[s].parent.Some? {
      var u := a[s].parent.value;
      PlacesDiffer(a, u, a[t].parent.value);
      assert TabledAt(a, u);
      SiblingPlacesDiffer(a, u, s, t);
    }
  }

  lemma SiblingPlacesDiffer(a: Arena, u: ScopeId, s: ScopeId, t: ScopeId)
    requires Linked(a) && u in a && TabledAt(a, u) && s in a && t in a && a[s].parent == Some(u) == a[t].parent
    requires a[s].range == a[t].range && (a[s].range.None? ==> a[s].name == a[t].name)
    ensures s == t
  {
    if a[s].range.Some? {
      OnlyOfItsRange(a, u, s, a[s].range.value);
      OnlyOfItsRange(a, u, t, a[s].range.value);
    }
  }

  ghost predicate IsPlace(a: Arena, root: ScopeId, k: Key, s: ScopeId)
    requires Linked(a)
  {
    s in a && RootOf(a, s) == root && KeyAt(a, s, map[]) == k
  }

  /** The range that a name has in a place of the index. */
  ghost function RangeThere(a: Arena, root: ScopeId, k: Key, name: string): Option<Range>
    requires Linked(a)
  {
    if exists s :: IsPlace(a, root, k, s) then
      var s :| IsPlace(a, root, k, s);
      if ByName(a, s, name).Some? && ByName(a, s, name).value in a then a[ByName(a, s, name).value].range else None
    else None
  }

  ghost function SchemaOf(a: Arena, root: ScopeId): Schema
    requires Linked(a)
  {
    (k, n) => RangeThere(a, root, k, n)
  }

  /** What the index holds conforms to the index itself. */
  lemma {:induction false} HeldConforms(a: Arena, s: ScopeId, node: Design)
    requires Linked(a) && Tabled(a) && s in a && Clean(node) && Holds(a, s, node)
    ensures Conforms(node, KeyAt(a, s, map[]), SchemaOf(a, RootOf(a, s)))
    decreases node, 1
  {
    var root, k := RootOf(a, s), KeyAt(a, s, map[]);
    match node {
      case Unit(members) => AllHeldConform(a, s, members);
      case Node(name, range, _, _, members) =>
        var c :| c in a && HeldAs(a, s, c, name, range) && HoldsAll(a, c, members);
        AllHeldConform(a, c, members);
        var mark := if name != "" then name else a[c].name;
        HeldPlace(a, s, c, name, range);
        assert AllConform(members, KeyOf(k, mark, range), SchemaOf(a, root));
    }
  }

  lemma HeldPlace(a: Arena, s: ScopeId, c: ScopeId, name: string, range: Option<Range>)
    requires Linked(a) && Tabled(a) && s in a && c in a && HeldAs(a, s, c, name, range)
    ensures RootOf(a, c) == RootOf(a, s)
    ensures KeyAt(a, c, map[]) == KeyOf(KeyAt(a, s, map[]), if name != "" then name else a[c].name, range)
    ensures name != "" ==> SchemaOf(a, RootOf(a, s))(KeyAt(a, s, map[]), name) == range
  {
    if name != "" {
      assert TabledAt(a, s);
      ThereIs(a, s, c, name);
    }
  }

  lemma OnlyPlace(a: Arena, s: ScopeId)
    requires Linked(a) && Tabled(a) && s in a
    ensures forall t :: IsPlace(a, RootOf(a, s), KeyAt(a, s, map[]), t) <==> t == s
  {
    forall t | IsPlace(a, RootOf(a, s), KeyAt(a, s, map[]), t) ensures t == s {
      PlacesDiffer(a, t, s);
    }
  }

  lemma RangeAt(a: Arena, root: ScopeId, k: Key, s: ScopeId, c: ScopeId, name: string)
    requires Linked(a) && s in a && c in a && ByName(a, s, name) == Some(c)
    requires forall t :: IsPlace(a, root, k, t) <==> t == s
    ensures RangeThere(a, root, k, name) == a[c].range
  {
    assert IsPlace(a, root, k, s);
  }

  lemma ThereIs(a: Arena, s: ScopeId, c: ScopeId, name: string)
    requires Linked(a) && Tabled(a) && s in a && c in a && ByName(a, s, name) == Some(c)
    ensures SchemaOf(a, RootOf(a, s))(KeyAt(a, s, map[]), name) == a[c].range
  {
    OnlyPlace(a, s);
    RangeAt(a, RootOf(a, s), KeyAt(a, s, map[]), s, c, name);
  }

  lemma {:induction false} AllHeldConform(a: Arena, s: ScopeId, nodes: seq<Design>)
    requires Linked(a) && Tabled(a) && s in a && AllClean(nodes) && HoldsAll(a, s, nodes)
    ensures AllConform(nodes, KeyAt(a, s, map[]), SchemaOf(a, RootOf(a, s)))
    decreases nodes, 0
  {
    if nodes != [] {
      HeldConforms(a, s, nodes[0]);
      AllHeldConform(a, s, nodes[1..]);
    }
  }

  // ----------------------------------------------------------- from scratch

  /** The root scope opened on an empty index. */
  function Started(name: string): State {
    Open(EMPTY, name, false)
  }

  lemma StartedIsSound(name: string, schema: Schema)
    ensures Inv(Started(name)) && Started(name).stack == [0] && Keyed(Started(name).arena, Plan(schema, map[]))
    ensures KeyAt(Started(name).arena, 0, map[]) == Whole
  {
  }

  /** A whole design, from an empty index: the walk ends with no scope open and the root in place, or
      stops at an alias already taken. */
  lemma DesignIsWalked(name: string, isVirtual: bool, members: seq<Design>)
    requires AllClean(members)
    ensures var r := Visit(EMPTY, Node(name, None, isVirtual, false, members));
      if r.Err? then r.fault == AliasClash
      else r.st.stack == [] && Inv(r.st) && 0 in r.st.arena && r.st.arena[0].name == name && r.st.arena[0].parent == None
  {
    var st := Started(name);
    StartedIsSound(name, (k, n) => None);
    VisitAllKeeps(st, members);
    if VisitAll(st, members).Ok? {
      CloseKeeps(EMPTY, VisitAll(st, members).st, name);
    }
  }

  lemma ConformingIsHeld(name: string, isVirtual: bool, members: seq<Design>, schema: Schema)
    requires Consistent(members, schema)
    ensures var r := Visit(EMPTY, Node(name, None, isVirtual, false, members));
      r.Ok? && Inv(r.st) && 0 in r.st.arena && HoldsAll(r.st.arena, 0, members)
  {
    var st := Started(name);
    StartedIsSound(name, schema);
    AllConformingAreClean(members, Whole, schema);
    var q := VisitAllIndexes(st, members, Plan(schema, map[]));
    CloseKeeps(EMPTY, VisitAll(st, members).st, name);
  }

  /** The walk succeeds with every scope of the design in the index, each under its name and over its
      range, exactly when a name never means two ranges in one place. */
  lemma IndexedExactly(name: string, isVirtual: bool, members: seq<Design>)
    requires AllClean(members)
    ensures var r := Visit(EMPTY, Node(name, None, isVirtual, false, members));
      (r.Ok? && Linked(r.st.arena) && 0 in r.st.arena && HoldsAll(r.st.arena, 0, members))
      <==> exists schema: Schema :: Consistent(members, schema)
  {
    var r := Visit(EMPTY, Node(name, None, isVirtual, false, members));
    DesignIsWalked(name, isVirtual, members);
    if r.Ok? && HoldsAll(r.st.arena, 0, members) {
      AllHeldConform(r.st.arena, 0, members);
      assert Consistent(members, SchemaOf(r.st.arena, 0));
    }
    if schema: Schema :| Consistent(members, schema) {
      ConformingIsHeld(name, isVirtual, members, schema);
    }
  }

  // ------------------------------------------------------- the silent failure

  /** A name met with a second range, which no sibling covers: the scope it stands for is entered and
      takes the new range without any error, and its first text is no longer covered. */
  lemma SecondRangeOverwrites(st: State, name: string, r: Range, r': Range, isVirtual: bool)
    requires Inv(st) && st.stack != [] && name in st.arena[Top(st)].children && r != r'
    requires st.arena[st.arena[Top(st)].children[name]].range == Some(r) && SameRange(st.arena, Top(st), r') == {}
    ensures var t, c := Top(st), st.arena[Top(st)].children[name];
      var a := st.arena[c := st.arena[c].(range := Some(r'))];
      && OpenFor(st, name, Some(r'), isVirtual) == Opened(st.(arena := a, stack := st.stack + [c]), name)
      && SameRange(a, t, r) == {} && SameRange(a, t, r') == {c}
  {
    var t, c := Top(st), st.arena[Top(st)].children[name];
    OpenExisting(st, name, isVirtual);
    var a := st.arena[c := st.arena[c].(range := Some(r'))];
    assert TabledAt(st.arena, t) && t != c;
    assert c in a[t].children.Values;
    forall d | d in a[t].children.Values && d in a && d != c ensures a[d].range != Some(r) && a[d].range != Some(r') {
      var n :| n in a[t].children && a[t].children[n] == d;
      assert Distinct(st.arena, c, d) && d in st.arena[t].children.Values;
      assert d !in SameRange(st.arena, t, r');
    }
  }
}
