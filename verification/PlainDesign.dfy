/** Designs in which siblings have different names and different texts: the index is the design
    itself, scope by scope, so that the search for the scope around a position runs on the design. */
module PlainDesign {
  import opened Wrappers
  import opened Positions
  import opened ScopeTree
  import opened VisitModel
  import opened DesignIndex
  import opened DesignOutline
  import Search = InnermostScope

  /** Scopes with names and texts of their own among their siblings. */
  ghost predicate Plain(node: Design)
    decreases node, 1
  {
    node.Node? && UserName(node.name) && node.range.Some? && AllPlain(node.members)
  }

  ghost predicate AllPlain(nodes: seq<Design>)
    decreases nodes, 0
  {
    nodes == [] || (Plain(nodes[0]) && AllPlain(nodes[1..]) && forall i :: 1 <= i < |nodes| ==> Apart(nodes[0], nodes[i]))
  }

  ghost predicate Apart(a: Design, b: Design) {
    a.Node? && b.Node? && a.name != b.name && a.range != b.range
  }

  /** The design as the search sees it. */
  function TreeOf(node: Design): Search.Scope
    decreases node, 1
  {
    match node
    case Unit(members) => Search.Scope("", None, TreesOf(members))
    case Node(name, range, _, _, members) => Search.Scope(name, range, TreesOf(members))
  }

  function TreesOf(nodes: seq<Design>): (r: seq<Search.Scope>)
    ensures |r| == |nodes|
    decreases nodes, 0
  {
    if nodes == [] then [] else [TreeOf(nodes[0])] + TreesOf(nodes[1..])
  }

  /** The scope of the index, with all below it, is the node: name, text, whether it is virtual, and the
      members one by one under their names. */
  ghost predicate IsNode(a: Arena, s: ScopeId, node: Design)
    decreases node, 1
  {
    && node.Node? && s in a && a[s].name == node.name && a[s].range == node.range && a[s].isVirtual == node.isVirtual
    && AreNodes(a, a[s].children, node.members)
  }

  ghost predicate AreNodes(a: Arena, children: map<string, ScopeId>, nodes: seq<Design>)
    decreases nodes, 0
  {
    if nodes == [] then children == map[]
    else
      && nodes[0].Node? && nodes[0].name in children && IsNode(a, children[nodes[0].name], nodes[0])
      && AreNodes(a, children - {nodes[0].name}, nodes[1..])
  }

  /** Scopes that do not change stay what they are. */
  lemma {:induction false} NodeStays(a: Arena, b: Arena, s: ScopeId, node: Design)
    requires ChildrenPlaced(a) && s in a && IsNode(a, s, node)
    requires forall x :: x in a && x >= s ==> x in b && b[x] == a[x]
    ensures IsNode(b, s, node)
    decreases node, 1
  {
    assert forall n :: n in a[s].children ==> a[s].children[n] in a && s < a[s].children[n];
    NodesStay(a, b, s, a[s].children, node.members);
  }

  lemma {:induction false} NodesStay(a: Arena, b: Arena, s: ScopeId, children: map<string, ScopeId>, nodes: seq<Design>)
    requires ChildrenPlaced(a) && AreNodes(a, children, nodes)
    requires forall n :: n in children ==> children[n] in a && s < children[n]
    requires forall x :: x in a && x > s ==> x in b && b[x] == a[x]
    ensures AreNodes(b, children, nodes)
    decreases nodes, 0
  {
    if nodes != [] {
      NodeStays(a, b, children[nodes[0].name], nodes[0]);
      NodesStay(a, b, s, children - {nodes[0].name}, nodes[1..]);
    }
  }

  /** The scope of the index, with all below it, is the tree. */
  ghost predicate IsTree(a: Arena, s: ScopeId, tree: Search.Scope)
    decreases tree, 1
  {
    s in a && a[s].name == tree.name && a[s].range == tree.range && AreTrees(a, a[s].children, tree.children)
  }

  /** The children are the trees, one by one, under their names. */
  ghost predicate AreTrees(a: Arena, children: map<string, ScopeId>, trees: seq<Search.Scope>)
    decreases trees, 0
  {
    if trees == [] then children == map[]
    else
      && trees[0].name in children && IsTree(a, children[trees[0].name], trees[0])
      && AreTrees(a, children - {trees[0].name}, trees[1..])
  }

  /** What the search sees of nodes. */
  lemma {:induction false} NodesAreTrees(a: Arena, children: map<string, ScopeId>, nodes: seq<Design>)
    requires AreNodes(a, children, nodes)
    ensures AreTrees(a, children, TreesOf(nodes))
    decreases nodes, 0
  {
    if nodes != [] {
      NodesAreTrees(a, a[children[nodes[0].name]].children, nodes[0].members);
      NodesAreTrees(a, children - {nodes[0].name}, nodes[1..]);
      assert TreesOf(nodes)[0] == TreeOf(nodes[0]) && TreesOf(nodes)[1..] == TreesOf(nodes[1..]);
    }
  }

  lemma {:induction false} PlainIsClean(node: Design)
    requires Plain(node)
    ensures Clean(node)
    decreases node, 1
  {
    AllPlainAreClean(node.members);
  }

  lemma {:induction false} AllPlainAreClean(nodes: seq<Design>)
    requires AllPlain(nodes)
    ensures AllClean(nodes)
    decreases nodes, 0
  {
    if nodes != [] {
      PlainIsClean(nodes[0]);
      AllPlainAreClean(nodes[1..]);
    }
  }

  /** Neither name nor text is there yet. */
  ghost predicate Free(a: Arena, t: ScopeId, node: Design)
    requires t in a
  {
    node.Node? && node.range.Some? && node.name !in a[t].children && SameRange(a, t, node.range.value) == {}
  }

  lemma {:induction false} EmptyIsFree(a: Arena, t: ScopeId, nodes: seq<Design>)
    requires t in a && a[t].children == map[] && AllPlain(nodes)
    ensures forall i :: 0 <= i < |nodes| ==> Free(a, t, nodes[i])
    decreases nodes
  {
    if nodes != [] {
      EmptyIsFree(a, t, nodes[1..]);
      assert forall i :: 1 <= i < |nodes| ==> nodes[i] == nodes[1..][i - 1];
    }
  }

  /** Of the scopes there were, only the current one changed, by what it gained. */
  ghost predicate Kept(a: Arena, b: Arena, t: ScopeId) {
    && t in a && t in b && b[t].name == a[t].name && b[t].range == a[t].range && b[t].isVirtual == a[t].isVirtual
    && (forall x :: x in a && x != t ==> x in b && b[x] == a[x])
    && (forall n :: n in a[t].children ==> n in b[t].children && b[t].children[n] == a[t].children[n])
  }

  /** And it gained the nodes. */
  ghost predicate Planted(a: Arena, b: Arena, t: ScopeId, nodes: seq<Design>) {
    Kept(a, b, t) && AreNodes(b, b[t].children - a[t].children.Keys, nodes)
  }

  /** A node became a new child. */
  ghost predicate PlantedOne(a: Arena, b: Arena, t: ScopeId, node: Design) {
    && Kept(a, b, t) && node.Node? && node.name in b[t].children && b[t].children == a[t].children[node.name := b[t].children[node.name]]
    && t < b[t].children[node.name] && IsNode(b, b[t].children[node.name], node)
  }

  lemma StillFree(a: Arena, b: Arena, t: ScopeId, node: Design, other: Design)
    requires ChildrenPlaced(a) && PlantedOne(a, b, t, node) && Free(a, t, other) && Apart(node, other)
    ensures Free(b, t, other)
  {
    forall n | n in b[t].children && b[t].children[n] in b ensures b[b[t].children[n]].range != other.range {
      if n != node.name {
        assert a[t].children[n] in a[t].children.Values;
        assert a[t].children[n] !in SameRange(a, t, other.range.value);
      }
    }
  }

  lemma OneMorePlanted(a: Arena, b: Arena, d: Arena, t: ScopeId, nodes: seq<Design>)
    requires nodes != [] && ChildrenPlaced(b) && PlantedOne(a, b, t, nodes[0]) && Planted(b, d, t, nodes[1..])
    requires nodes[0].name !in a[t].children
    ensures Planted(a, d, t, nodes)
  {
    NodeStays(b, d, b[t].children[nodes[0].name], nodes[0]);
    var gained := d[t].children - a[t].children.Keys;
    assert gained - {nodes[0].name} == d[t].children - b[t].children.Keys;
  }

  lemma {:induction false} PlainIsPlanted(st: State, node: Design)
    requires Inv(st) && st.stack != [] && Plain(node) && Free(st.arena, Top(st), node)
    ensures var r := Visit(st, node);
      r.Ok? && Inv(r.st) && r.st.stack == st.stack && PlantedOne(st.arena, r.st.arena, Top(st), node)
    decreases node, 1
  {
    var Node(name, range, isVirtual, _, members) := node;
    OpeningNew(st, name, range, isVirtual);
    OpenForKeeps(st, name, range, isVirtual);
    NewIsPlanted(st, name, range, isVirtual);
    PlainIsClean(node);
    var u := OpenFor(st, name, range, isVirtual).st;
    EmptyIsFree(u.arena, Top(u), members);
    AllPlainArePlanted(u, members);
    VisitAllKeeps(u, members);
    NodeCloses(st, node);
    MembersPlanted(st.arena, u.arena, VisitAll(u, members).st.arena, Top(st), Top(u), node);
  }

  /** The scope is new, a child of the other one under its name, and still empty. */
  ghost predicate Sown(a: Arena, b: Arena, t: ScopeId, c: ScopeId, name: string, range: Option<Range>, isVirtual: bool) {
    && Kept(a, b, t) && c !in a && c in b && t < c && b[t].children == a[t].children[name := c]
    && b[c].children == map[] && b[c].name == name && b[c].range == range && b[c].isVirtual == isVirtual
  }

  lemma NewIsPlanted(st: State, name: string, range: Option<Range>, isVirtual: bool)
    requires Inv(st) && st.stack != [] && UserName(name) && name !in st.arena[Top(st)].children && range.Some?
    ensures Sown(st.arena, WithNew(st, name, range, isVirtual), Top(st), st.next, name, range, isVirtual)
  {
  }

  lemma MembersPlanted(a: Arena, b: Arena, d: Arena, t: ScopeId, c: ScopeId, node: Design)
    requires node.Node? && Sown(a, b, t, c, node.name, node.range, node.isVirtual) && Planted(b, d, c, node.members)
    ensures PlantedOne(a, d, t, node)
  {
    assert d[c].children - b[c].children.Keys == d[c].children;
  }

  lemma {:induction false} AllPlainArePlanted(st: State, nodes: seq<Design>)
    requires Inv(st) && st.stack != [] && AllPlain(nodes) && forall i :: 0 <= i < |nodes| ==> Free(st.arena, Top(st), nodes[i])
    ensures var r := VisitAll(st, nodes);
      r.Ok? && Inv(r.st) && r.st.stack == st.stack && Planted(st.arena, r.st.arena, Top(st), nodes)
    decreases nodes, 0
  {
    var a, t := st.arena, Top(st);
    if nodes == [] {
      assert a[t].children - a[t].children.Keys == map[];
    } else {
      PlainIsPlanted(st, nodes[0]);
      var u := Visit(st, nodes[0]).st;
      forall i | 0 <= i < |nodes[1..]| ensures Free(u.arena, t, nodes[1..][i]) {
        assert nodes[1..][i] == nodes[i + 1];
        StillFree(a, u.arena, t, nodes[0], nodes[i + 1]);
      }
      AllPlainArePlanted(u, nodes[1..]);
      OneMorePlanted(a, u.arena, VisitAll(u, nodes[1..]).st.arena, t, nodes);
    }
  }

  /** Below the root, the index of such a design is the design, and so is what the search sees of it. */
  lemma PlainDesignIsIndexed(name: string, isVirtual: bool, members: seq<Design>)
    requires AllPlain(members)
    ensures var r := Visit(EMPTY, Node(name, None, isVirtual, false, members));
      && r.Ok? && r.st.stack == [] && IsNode(r.st.arena, 0, Node(name, None, false, false, members))
      && IsTree(r.st.arena, 0, Search.Scope(name, None, TreesOf(members)))
  {
    var st := Started(name);
    StartedIsSound(name, (k, n) => None);
    EmptyIsFree(st.arena, 0, members);
    AllPlainArePlanted(st, members);
    var v := VisitAll(st, members).st;
    CloseKeeps(EMPTY, v, name);
    AllPlanted(st.arena, v.arena, 0, members);
  }

  lemma AllPlanted(a: Arena, b: Arena, t: ScopeId, nodes: seq<Design>)
    requires Planted(a, b, t, nodes) && a[t].children == map[]
    ensures AreNodes(b, b[t].children, nodes) && AreTrees(b, b[t].children, TreesOf(nodes))
  {
    assert b[t].children - a[t].children.Keys == b[t].children;
    NodesAreTrees(b, b[t].children, nodes);
  }

  // ---------------------------------------------------------------- an example

  function Instance(name: string, range: Option<Range>, members: seq<Design>): Design {
    Node(name, range, false, true, members)
  }

  /** A module instantiated below two others, with and without its generate block. */
  const HOSTS := Instance("top", Search.Lines(19, 25),
    [Instance("p", Search.Lines(11, 13), [Instance("u", Search.Lines(1, 9), [Node("g", Search.Lines(3, 5), true, false, [])])]),
     Instance("q", Search.Lines(15, 17), [Instance("u", Search.Lines(1, 9), [])])])

  lemma HostNames()
    ensures UserName("top") && UserName("p") && UserName("q") && UserName("u") && UserName("g")
  {
    assert forall k: nat :: |Unnamed(k)| >= 7;
  }

  lemma HostsArePlain()
    ensures AllPlain([HOSTS])
  {
    HostNames();
    var p, q := HOSTS.members[0], HOSTS.members[1];
    var u, v := p.members[0], q.members[0];
    assert Plain(u.members[0]) && u.members[1..] == [];
    assert AllPlain(u.members);
    assert Plain(u) && p.members[1..] == [] && Plain(v) && q.members[1..] == [];
    assert Plain(p) && Plain(q) && HOSTS.members[1..] == [q] && [q][1..] == [];
    assert Apart(p, q);
    assert Plain(HOSTS) && [HOSTS][1..] == [];
  }

  lemma HostsTree()
    ensures TreesOf([HOSTS]) == [Search.HOSTS]
  {
    var p, q := HOSTS.members[0], HOSTS.members[1];
    var u, v := p.members[0], q.members[0];
    assert TreesOf(u.members) == [Search.BLOCK] && TreeOf(u) == Search.WITH_BLOCK && TreeOf(v) == Search.WITHOUT_BLOCK;
    assert TreesOf(p.members) == [Search.WITH_BLOCK] && TreesOf(q.members) == [Search.WITHOUT_BLOCK];
    assert HOSTS.members == [p, q] && HOSTS.members[1..] == [q];
    assert TreesOf(HOSTS.members) == [Search.FIRST_HOST, Search.SECOND_HOST];
  }

  /** The scopes on which the lookup depends on the order of the table are those of a design. */
  lemma ParametersAreIndexed()
    ensures var r := Visit(EMPTY, Node("$root", None, false, false, [HOSTS]));
      r.Ok? && IsTree(r.st.arena, 0, Search.Scope("$root", None, [Search.HOSTS]))
  {
    HostsArePlain();
    HostsTree();
    PlainDesignIsIndexed("$root", false, [HOSTS]);
  }
}
