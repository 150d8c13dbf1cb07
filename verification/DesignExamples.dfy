/** Two designs with unique sibling names that the index does not take in: one is refused, of the
    other a scope is lost. */
module DesignExamples {
  import opened Wrappers
  import opened Positions
  import opened ScopeTree
  import opened VisitModel
  import opened DesignIndex
  import opened DesignOutline

  /** The source texts: the top module, the module it instantiates, and two modules instantiated there. */
  datatype Texts = Texts(top: Range, body: Range, m: Range, n: Range)

  /** A whole design: the root, a top module, and the members given. */
  function DesignOf(text: Texts, members: seq<Design>): Design {
    Node("$root", None, false, false, UnderTop(text, members))
  }

  /** A top module under the root. */
  function UnderTop(text: Texts, members: seq<Design>): seq<Design> {
    [Node("top", Some(text.top), false, true, members)]
  }

  // ----------------------------------------------------------- unique names

  ghost predicate UniqueNames(node: Design)
    decreases node, 1
  {
    UniqueSiblings(node.members) && AllUniqueNames(node.members)
  }

  ghost predicate UniqueSiblings(nodes: seq<Design>) {
    forall i, j :: 0 <= i < j < |nodes| && nodes[i].Node? && nodes[j].Node? ==> nodes[i].name != nodes[j].name
  }

  ghost predicate AllUniqueNames(nodes: seq<Design>)
    decreases nodes, 0
  {
    nodes == [] || (UniqueNames(nodes[0]) && AllUniqueNames(nodes[1..]))
  }

  lemma ShortNames()
    ensures UserName("i") && UserName("j") && UserName("x") && UserName("y") && UserName("z") && UserName("top")
  {
    assert forall k: nat :: |Unnamed(k)| >= 7;
  }

  lemma LeavesAreFine(leaves: seq<Design>)
    requires forall i :: 0 <= i < |leaves| ==> leaves[i].Node? && leaves[i].members == [] && UserName(leaves[i].name)
    ensures AllClean(leaves) && AllUniqueNames(leaves)
  {
    if leaves != [] {
      LeavesAreFine(leaves[1..]);
    }
  }

  /** Two instances with distinct members each. */
  lemma PairIsFine(text: Texts, a: Design, b: Design)
    requires a.Node? && a.name == "i" && b.Node? && b.name == "j"
    requires AllClean(a.members) && AllUniqueNames(a.members) && UniqueSiblings(a.members)
    requires AllClean(b.members) && AllUniqueNames(b.members) && UniqueSiblings(b.members)
    ensures AllClean(UnderTop(text, [a, b])) && UniqueNames(DesignOf(text, [a, b]))
  {
    ShortNames();
    assert [a, b][1..] == [b] && [b][1..] == [];
    assert Clean(a) && Clean(b) && UniqueNames(a) && UniqueNames(b);
    assert AllClean([b]) && AllUniqueNames([b]);
    assert AllClean([a, b]) && AllUniqueNames([a, b]);
    var top := UnderTop(text, [a, b])[0];
    assert UnderTop(text, [a, b]) == [top] && [top][1..] == [];
    assert Clean(top) && UniqueNames(top);
  }

  // -------------------------------------------------------- a design refused

  /** The instance of a module without members. */
  function Instance(name: string, r: Range): Design {
    Node(name, Some(r), false, true, [])
  }

  /** A top module with two instances of one body, which has an instance x of module M and an instance
      y of module N. Two bind directives add an instance z to each: of M to the first, of N to the
      second. */
  function BoundInstances(text: Texts): seq<Design> {
    [Node("i", Some(text.body), false, true, [Instance("x", text.m), Instance("y", text.n), Instance("z", text.m)]),
     Node("j", Some(text.body), false, true, [Instance("x", text.m), Instance("y", text.n), Instance("z", text.n)])]
  }

  lemma BoundInstancesAreFine(text: Texts)
    ensures AllClean(UnderTop(text, BoundInstances(text))) && UniqueNames(DesignOf(text, BoundInstances(text)))
  {
    ShortNames();
    var a, b := BoundInstances(text)[0], BoundInstances(text)[1];
    LeavesAreFine(a.members);
    LeavesAreFine(b.members);
    PairIsFine(text, a, b);
    assert BoundInstances(text) == [a, b];
  }

  lemma OutlinedCons(o: Outline, k: Key, node: Design, rest: seq<Design>)
    ensures OutlinedAll(o, k, [node] + rest)
         == if Outlined(o, k, node).Fine? then OutlinedAll(Outlined(o, k, node).seen, k, rest) else Outlined(o, k, node)
  {
    assert ([node] + rest)[1..] == rest;
  }

  lemma ThreeOutlined(o: Outline, k: Key, a: Design, b: Design, c: Design)
    requires Outlined(o, k, a).Fine? && Outlined(Outlined(o, k, a).seen, k, b).Fine?
    ensures OutlinedAll(o, k, [a, b, c]) == Outlined(Outlined(Outlined(o, k, a).seen, k, b).seen, k, c)
  {
    var p := Outlined(o, k, a).seen;
    assert [a, b, c] == [a] + ([b] + ([c] + []));
    OutlinedCons(o, k, a, [b] + ([c] + []));
    OutlinedCons(p, k, b, [c] + []);
    OutlinedCons(Outlined(p, k, b).seen, k, c, []);
  }

  /** The outline of a design is that of the members of its top module. */
  lemma TopOutlined(text: Texts, members: seq<Design>)
    ensures OutlinedAll(BLANK, Whole, UnderTop(text, members))
         == OutlinedAll(Noted(BLANK, Whole, "top", Some(text.top)), Code(Whole, text.top), members)
  {
    var top := UnderTop(text, members)[0];
    assert UnderTop(text, members) == [top] + [];
    OutlinedCons(BLANK, Whole, top, []);
  }

  /** What is known of the body after its first instance: z stands for M, whose text was covered then. */
  predicate FirstSeen(o: Outline, k: Key, text: Texts) {
    && (k, "x") in o.names && o.names[(k, "x")].range == Some(text.m)
    && (k, "y") in o.names && o.names[(k, "y")].range == Some(text.n)
    && (k, "z") in o.names && o.names[(k, "z")] == Entry(Some(text.m), true)
    && (k, text.n) in o.texts
  }

  lemma FirstOutlined(o: Outline, k: Key, text: Texts)
    requires (k, "x") !in o.names && (k, "y") !in o.names && (k, "z") !in o.names
    ensures var v := OutlinedAll(o, k, [Instance("x", text.m), Instance("y", text.n), Instance("z", text.m)]);
      v.Fine? && FirstSeen(v.seen, k, text) && forall q, n :: q != k ==> ((q, n) in v.seen.names <==> (q, n) in o.names)
  {
    ThreeOutlined(o, k, Instance("x", text.m), Instance("y", text.n), Instance("z", text.m));
  }

  lemma SecondOutlined(o: Outline, k: Key, text: Texts)
    requires text.m != text.n && FirstSeen(o, k, text)
    ensures OutlinedAll(o, k, [Instance("x", text.m), Instance("y", text.n), Instance("z", text.n)]).Clash?
  {
    ThreeOutlined(o, k, Instance("x", text.m), Instance("y", text.n), Instance("z", text.n));
  }

  lemma BoundInstancesClash(text: Texts)
    requires text.m != text.n
    ensures OutlinedAll(BLANK, Whole, UnderTop(text, BoundInstances(text))).Clash?
  {
    var k := Code(Whole, text.top);
    var inner := Code(k, text.body);
    var a, b := BoundInstances(text)[0], BoundInstances(text)[1];
    var o := Noted(BLANK, Whole, "top", Some(text.top));
    TopOutlined(text, BoundInstances(text));
    assert BoundInstances(text) == [a] + ([b] + []);
    OutlinedCons(o, k, a, [b] + []);
    FirstOutlined(Noted(o, k, "i", Some(text.body)), inner, text);
    var p := Outlined(o, k, a).seen;
    OutlinedCons(p, k, b, []);
    SecondIsEntered(p, k, text, b);
  }

  /** Unless its own name was met with another range, the second instance ends as its members do. */
  lemma SecondIsEntered(o: Outline, k: Key, text: Texts, b: Design)
    requires text.m != text.n && FirstSeen(o, Code(k, text.body), text) && b == BoundInstances(text)[1]
    requires Agrees(o, k, "j", Some(text.body))
    ensures Outlined(o, k, b).Clash?
  {
    SecondOutlined(Noted(o, k, "j", Some(text.body)), Code(k, text.body), text);
  }

  /** Sibling names are unique everywhere and none is made up, and still the second instance cannot be
      indexed. */
  lemma UniqueNamesMayClash(text: Texts)
    requires text.m != text.n
    ensures AllClean(UnderTop(text, BoundInstances(text))) && UniqueNames(DesignOf(text, BoundInstances(text)))
    ensures Visit(EMPTY, DesignOf(text, BoundInstances(text))) == Err(AliasClash)
  {
    BoundInstancesAreFine(text);
    BoundInstancesClash(text);
    WalkEndsExactly("$root", false, UnderTop(text, BoundInstances(text)));
  }

  // ----------------------------------------------------------- a scope lost

  /** A generate block without members. */
  function Block(name: string, r: Range): Design {
    Node(name, Some(r), true, false, [])
  }

  /** Two instances of one body in which a parameter selects the first or the second branch of a
      conditional generate, both of them named z. */
  function SelectedBlocks(text: Texts): seq<Design> {
    [Node("i", Some(text.body), false, true, [Block("z", text.m)]),
     Node("j", Some(text.body), false, true, [Block("z", text.n)])]
  }

  function RootScope(): Scope {
    Scope("$root", None, map["top" := 1], map[], None, false, false, 0)
  }

  function TopScope(text: Texts, children: map<string, ScopeId>, aliases: map<string, ScopeId>): Scope {
    ChildScope(0, "top", false, false).(range := Some(text.top), children := children, aliases := aliases)
  }

  function BodyScope(text: Texts, children: map<string, ScopeId>, aliases: map<string, ScopeId>): Scope {
    ChildScope(1, "i", false, false).(range := Some(text.body), children := children, aliases := aliases)
  }

  /** Inside the top module, before its members. */
  function InTop(text: Texts): State {
    State(map[0 := RootScope(), 1 := TopScope(text, map[], map[])], 2, [0, 1])
  }

  /** Inside the first instance, before its members. */
  function InBody(text: Texts): State {
    State(map[0 := RootScope(), 1 := TopScope(text, map["i" := 2], map[]), 2 := BodyScope(text, map[], map[])], 3, [0, 1, 2])
  }

  /** Coming back to a name that stands for a child leaves everything as it is. */
  lemma RetouchKnown(st: State, name: string, c: ScopeId)
    requires HasTop(st) && ByName(st.arena, Top(st), name) == Some(c) && c in st.arena
    requires st.arena[c].name != "" && !st.arena[c].anonymous
    requires st.arena[c].name in st.arena[Top(st)].children && st.arena[Top(st)].children[st.arena[c].name] == c
    ensures Retouch(st, name) == Ok(st)
  {
    assert (st.stack + [c])[..|st.stack|] == st.stack;
  }

  lemma VisitAllCons(st: State, node: Design, rest: seq<Design>)
    ensures VisitAll(st, [node] + rest) == if Visit(st, node).Err? then Visit(st, node) else VisitAll(Visit(st, node).st, rest)
  {
    assert ([node] + rest)[1..] == rest;
  }

  lemma TopOpened(text: Texts)
    ensures OpenFor(Started("$root"), "top", Some(text.top), false) == Opened(InTop(text), "top")
  {
    var s := Started("$root");
    assert SameRange(s.arena, 0, text.top) == {};
    assert Ranged(Open(s, "top", false), text.top).arena == InTop(text).arena;
    assert [0] + [1] == [0, 1];
  }

  /** The scopes of the root and of the top module are as they were opened. */
  predicate TopKept(st: State) {
    && st.stack == [0, 1] && 0 in st.arena && st.arena[0] == RootScope()
    && 1 in st.arena && !st.arena[1].anonymous && st.arena[1].name == "top"
  }

  lemma TopVisited(text: Texts, members: seq<Design>)
    ensures var r := VisitAll(InTop(text), members);
      && (r.Err? ==> Visit(Started("$root"), UnderTop(text, members)[0]) == r)
      && (r.Ok? && TopKept(r.st) ==> Visit(Started("$root"), UnderTop(text, members)[0]) == Ok(r.st.(stack := [0])))
  {
    TopOpened(text);
    var r := VisitAll(InTop(text), members);
    if r.Ok? && TopKept(r.st) {
      assert [0, 1][..1] == [0];
      RetouchKnown(r.st.(stack := [0]), "top", 1);
    }
  }

  /** The walk of a design is that of the members of its top module. */
  lemma DesignVisited(text: Texts, members: seq<Design>)
    ensures var r := VisitAll(InTop(text), members);
      && (r.Err? ==> Visit(EMPTY, DesignOf(text, members)) == r)
      && (r.Ok? && TopKept(r.st) ==> Visit(EMPTY, DesignOf(text, members)) == Ok(r.st.(stack := [])))
  {
    var r, top := VisitAll(InTop(text), members), UnderTop(text, members)[0];
    TopVisited(text, members);
    VisitAllCons(Started("$root"), top, []);
    assert UnderTop(text, members) == [top] + [];
    if r.Ok? && TopKept(r.st) {
      var u := r.st.(stack := [0]);
      assert VisitAll(Started("$root"), UnderTop(text, members)) == Ok(u);
      assert Close(u, "$root") == Ok(r.st.(stack := [])) by {
        assert u.stack[..0] == [];
      }
    }
  }

  lemma OpeningFirst(text: Texts)
    ensures OpenFor(InTop(text), "i", Some(text.body), false) == Opened(InBody(text), "i")
  {
    var s := InTop(text);
    assert SameRange(s.arena, 1, text.body) == {};
    assert Ranged(Open(s, "i", false), text.body).arena == InBody(text).arena;
    assert [0, 1] + [2] == [0, 1, 2];
  }

  /** The scopes, with the range that z has in the end. */
  function Selected(text: Texts, topAliases: map<string, ScopeId>, z: Range): Arena {
    map[0 := RootScope(), 1 := TopScope(text, map["i" := 2], topAliases), 2 := BodyScope(text, map["z" := 3], map[]),
        3 := ChildScope(2, "z", true, false).(range := Some(z))]
  }

  lemma FirstBlockVisited(text: Texts)
    ensures Visit(InTop(text), SelectedBlocks(text)[0]) == Ok(State(Selected(text, map[], text.m), 4, [0, 1]))
  {
    var s, z := InBody(text), Block("z", text.m);
    OpeningFirst(text);
    assert SameRange(s.arena, 2, text.m) == {};
    assert Ranged(Open(s, "z", true), text.m).arena == Selected(text, map[], text.m);
    assert [0, 1, 2] + [3] == [0, 1, 2, 3] && [0, 1, 2, 3][..3] == [0, 1, 2] && [0, 1, 2][..2] == [0, 1];
    assert Visit(s, z) == Ok(State(Selected(text, map[], text.m), 4, [0, 1, 2]));
    VisitAllCons(s, z, []);
    assert [z] == [z] + [];
    RetouchKnown(State(Selected(text, map[], text.m), 4, [0, 1]), "i", 2);
  }

  lemma OpeningSecond(text: Texts)
    ensures OpenFor(State(Selected(text, map[], text.m), 4, [0, 1]), "j", Some(text.body), false)
         == Opened(State(Selected(text, map["j" := 2], text.m), 4, [0, 1, 2]), "i")
  {
    var s := State(Selected(text, map[], text.m), 4, [0, 1]);
    assert s.arena[1].children["i"] == 2 && 2 in s.arena[1].children.Values;
    assert SameRange(s.arena, 1, text.body) == {2};
    assert 2 in SameRange(s.arena, 1, text.body);
    OpeningCovered(s, "j", text.body, false, 2);
    assert Aliased(s.arena, 1, "j", 2) == Selected(text, map["j" := 2], text.m);
    assert [0, 1] + [2] == [0, 1, 2];
  }

  lemma SecondBlockVisited(text: Texts)
    requires text.m != text.n
    ensures Visit(State(Selected(text, map[], text.m), 4, [0, 1]), SelectedBlocks(text)[1])
         == Ok(State(Selected(text, map["j" := 2], text.n), 4, [0, 1]))
  {
    var u, z := State(Selected(text, map["j" := 2], text.m), 4, [0, 1, 2]), Block("z", text.n);
    OpeningSecond(text);
    BlockOverwritten(text, u);
    VisitAllCons(u, z, []);
    assert [z] == [z] + [] && [0, 1, 2][..2] == [0, 1];
    RetouchKnown(State(Selected(text, map["j" := 2], text.n), 4, [0, 1]), "j", 2);
  }

  lemma BlockOverwritten(text: Texts, u: State)
    requires text.m != text.n && u == State(Selected(text, map["j" := 2], text.m), 4, [0, 1, 2])
    ensures Visit(u, Block("z", text.n)) == Ok(State(Selected(text, map["j" := 2], text.n), 4, [0, 1, 2]))
  {
    assert SameRange(u.arena, 2, text.n) == {};
    assert Ranged(Open(u, "z", true), text.n).arena == Selected(text, map["j" := 2], text.n);
    assert [0, 1, 2] + [3] == [0, 1, 2, 3] && [0, 1, 2, 3][..3] == [0, 1, 2];
  }

  lemma SelectedBlocksAreFine(text: Texts)
    ensures AllClean(UnderTop(text, SelectedBlocks(text))) && UniqueNames(DesignOf(text, SelectedBlocks(text)))
  {
    ShortNames();
    var a, b := SelectedBlocks(text)[0], SelectedBlocks(text)[1];
    LeavesAreFine(a.members);
    LeavesAreFine(b.members);
    PairIsFine(text, a, b);
    assert SelectedBlocks(text) == [a, b];
  }

  lemma BothBlocksVisited(text: Texts)
    requires text.m != text.n
    ensures VisitAll(InTop(text), SelectedBlocks(text)) == Ok(State(Selected(text, map["j" := 2], text.n), 4, [0, 1]))
  {
    FirstBlockVisited(text);
    SecondBlockVisited(text);
    var a, b := SelectedBlocks(text)[0], SelectedBlocks(text)[1];
    assert SelectedBlocks(text) == [a] + ([b] + []);
    VisitAllCons(InTop(text), a, [b] + []);
    VisitAllCons(State(Selected(text, map[], text.m), 4, [0, 1]), b, []);
  }

  lemma SelectedWalked(text: Texts)
    requires text.m != text.n
    ensures Visit(EMPTY, DesignOf(text, SelectedBlocks(text))) == Ok(State(Selected(text, map["j" := 2], text.n), 4, []))
  {
    BothBlocksVisited(text);
    DesignVisited(text, SelectedBlocks(text));
  }

  /** Such a design is walked without an error, and its first block cannot be found in the index. */
  lemma BlocksMayBeLost(text: Texts)
    requires text.m != text.n
    ensures AllClean(UnderTop(text, SelectedBlocks(text))) && UniqueNames(DesignOf(text, SelectedBlocks(text)))
    ensures var r := Visit(EMPTY, DesignOf(text, SelectedBlocks(text)));
      r.Ok? && Linked(r.st.arena) && 0 in r.st.arena && !HoldsAll(r.st.arena, 0, UnderTop(text, SelectedBlocks(text)))
  {
    SelectedBlocksAreFine(text);
    SelectedWalked(text);
    SelectedBlocksAreLost(text);
    DesignIsWalked("$root", false, UnderTop(text, SelectedBlocks(text)));
    WalkEndsExactly("$root", false, UnderTop(text, SelectedBlocks(text)));
  }

  lemma SelectedBlocksAreLost(text: Texts)
    requires text.m != text.n
    ensures OutlinedAll(BLANK, Whole, UnderTop(text, SelectedBlocks(text))).Lost?
  {
    var k, o := Code(Whole, text.top), Noted(BLANK, Whole, "top", Some(text.top));
    var inner := Code(k, text.body);
    var a, b := SelectedBlocks(text)[0], SelectedBlocks(text)[1];
    TopOutlined(text, SelectedBlocks(text));
    assert SelectedBlocks(text) == [a] + ([b] + []);
    OutlinedCons(o, k, a, [b] + []);
    OutlinedCons(Noted(o, k, "i", Some(text.body)), inner, Block("z", text.m), []);
    assert a.members == [Block("z", text.m)] + [] && b.members == [Block("z", text.n)] + [];
    var p := Outlined(o, k, a).seen;
    OutlinedCons(p, k, b, []);
    OutlinedCons(Noted(p, k, "j", Some(text.body)), inner, Block("z", text.n), []);
  }
}
