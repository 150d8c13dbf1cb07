/** The visitor that builds the scope tree: it opens and closes scopes along the design, and turns
    siblings over the same source range into aliases of one scope. */
module VisitModel {
  import opened Wrappers
  import opened Choice
  import opened Positions
  import opened ScopeTree

  /** A design as the visitor meets it: compilation units, and scopes with or without syntax. */
  datatype Design =
    | Unit(members: seq<Design>)
    | Node(name: string, range: Option<Range>, isVirtual: bool, isInstance: bool, members: seq<Design>)

  datatype State = State(arena: Arena, next: ScopeId, stack: seq<ScopeId>)

  datatype Fault = Mismatch | AliasClash | NoScope

  datatype Result = Ok(st: State) | Err(fault: Fault)

  const EMPTY := State(map[], 0, [])

  // ------------------------------------------------------------------- steps

  function Top(st: State): ScopeId
    requires st.stack != []
  {
    st.stack[|st.stack| - 1]
  }

  /** The current scope exists. */
  predicate HasTop(st: State) {
    st.stack != [] && Top(st) in st.arena
  }

  function Counted(a: Arena, s: ScopeId): Arena
    requires s in a
  {
    a[s := a[s].(unnamedCount := a[s].unnamedCount + 1)]
  }

  function ChildScope(parent: ScopeId, name: string, isVirtual: bool, anonymous: bool): Scope {
    Scope(name, Some(parent), map[], map[], None, isVirtual, anonymous, 0)
  }

  /** add_child: a child that is already there is returned as it is. */
  function AddChild(st: State, s: ScopeId, name: string, isVirtual: bool): (State, ScopeId)
    requires s in st.arena
  {
    var used := if name == "" then Unnamed(st.arena[s].unnamedCount) else name;
    var a := if name == "" then Counted(st.arena, s) else st.arena;
    if used in a[s].children then (st.(arena := a), a[s].children[used])
    else
      var child := ChildScope(s, used, isVirtual, name == "");
      (st.(arena := a[s := a[s].(children := a[s].children[used := st.next])][st.next := child], next := st.next + 1), st.next)
  }

  /** add_child_alias, including the lookup of the wrong name when the reference is an alias. */
  function AddAlias(st: State, s: ScopeId, ref: string, alias: string): Result
    requires s in st.arena
  {
    var sc := st.arena[s];
    if ref !in sc.children && (ref !in sc.aliases || alias !in sc.aliases) then Err(AliasClash)
    else
      var target := if ref in sc.children then sc.children[ref] else sc.aliases[alias];
      var key := if alias == "" then Unnamed(sc.unnamedCount) else alias;
      var a := if alias == "" then Counted(st.arena, s) else st.arena;
      if key !in sc.aliases then Ok(st.(arena := a[s := a[s].(aliases := a[s].aliases[key := target])]))
      else if sc.aliases[key] == target then Ok(st.(arena := a))
      else Err(AliasClash)
  }

  function Open(st: State, name: string, isVirtual: bool): State
    requires st.stack == [] || HasTop(st)
  {
    if st.stack == [] then
      State(map[st.next := Scope(name, None, map[], map[], None, false, false, 0)], st.next + 1, [st.next])
    else
      var (u, c) := AddChild(st, Top(st), name, isVirtual);
      u.(stack := st.stack + [c])
  }

  /** The name given when closing fits the current scope. */
  predicate Closes(sc: Scope, name: string) {
    if sc.anonymous then name == "" || name == sc.name else name == sc.name
  }

  function Close(st: State, name: string): Result {
    if !HasTop(st) || !Closes(st.arena[Top(st)], name) then Err(Mismatch)
    else Ok(st.(stack := st.stack[..|st.stack| - 1]))
  }

  function SameRange(a: Arena, s: ScopeId, r: Range): set<ScopeId>
    requires s in a
  {
    set c | c in a[s].children.Values && c in a && a[c].range == Some(r)
  }

  function Ranged(st: State, r: Range): State
    requires HasTop(st)
  {
    st.(arena := st.arena[Top(st) := st.arena[Top(st)].(range := Some(r))])
  }

  datatype Opening = Opened(st: State, used: string) | Failed(fault: Fault)

  /** How a scope of the design is opened: under its own name, or as the sibling that already covers
      the same range. */
  function OpenFor(st: State, name: string, range: Option<Range>, isVirtual: bool): Opening {
    if range.None? then
      if st.stack == [] || HasTop(st) then Opened(Open(st, name, false), name) else Failed(NoScope)
    else if !HasTop(st) then Failed(NoScope)
    else
      var same := SameRange(st.arena, Top(st), range.value);
      if same == {} then
        var u := Open(st, name, isVirtual);
        if HasTop(u) then Opened(Ranged(u, range.value), name) else Failed(NoScope)
      else
        var ref := st.arena[Least(same)].name;
        match AddAlias(st, Top(st), ref, name)
        case Err(f) => Failed(f)
        case Ok(u) => if HasTop(u) then Opened(Open(u, ref, isVirtual), ref) else Failed(NoScope)
  }

  /** After an instance: its scope is opened once more for the module name. */
  function Retouch(st: State, name: string): Result {
    if !HasTop(st) then Err(NoScope)
    else
      match ByName(st.arena, Top(st), name)
      case None => Ok(st)
      case Some(m) =>
        if m !in st.arena then Err(NoScope)
        else Close(Open(st, st.arena[m].name, false), st.arena[m].name)
  }

  function Visit(st: State, node: Design): Result
    decreases node, 1
  {
    match node
    case Unit(members) => VisitAll(st, members)
    case Node(name, range, isVirtual, isInstance, members) =>
      match OpenFor(st, name, range, isVirtual)
      case Failed(f) => Err(f)
      case Opened(u, used) =>
        match VisitAll(u, members)
        case Err(f) => Err(f)
        case Ok(v) =>
          match Close(v, used)
          case Err(f) => Err(f)
          case Ok(w) => if isInstance && range.Some? then Retouch(w, name) else Ok(w)
  }

  function VisitAll(st: State, nodes: seq<Design>): Result
    decreases nodes, 0
  {
    if nodes == [] then Ok(st)
    else
      match Visit(st, nodes[0])
      case Err(f) => Err(f)
      case Ok(u) => VisitAll(u, nodes[1..])
  }

  // -------------------------------------------------------------- invariants

  /** One of the names made up so far. */
  ghost predicate MadeUp(count: nat, n: string) {
    exists k: nat :: k < count && n == Unnamed(k)
  }

  /** Children and aliases carry a name made up so far, or one from the design; aliases stand for
      scopes with a range, and no two children cover the same range. */
  ghost predicate TabledAt(a: Arena, s: ScopeId)
    requires ChildrenPlaced(a) && s in a
  {
    && (forall n :: n in a[s].children ==>
          if a[a[s].children[n]].anonymous then MadeUp(a[s].unnamedCount, n) else UserName(n))
    && (forall n :: n in a[s].aliases ==> (UserName(n) || MadeUp(a[s].unnamedCount, n)) && HasRange(a, a[s].aliases[n]))
    && (forall m, n :: m in a[s].children && n in a[s].children && m != n ==> Distinct(a, a[s].children[m], a[s].children[n]))
  }

  ghost predicate HasRange(a: Arena, c: ScopeId) {
    c in a && a[c].range.Some?
  }

  ghost predicate Distinct(a: Arena, c: ScopeId, d: ScopeId)
    requires c in a && d in a
  {
    a[c].range.Some? ==> a[c].range != a[d].range
  }

  ghost predicate Tabled(a: Arena)
    requires ChildrenPlaced(a)
  {
    forall s :: s in a ==> TabledAt(a, s)
  }

  /** Each open scope is a child of the one below it. */
  ghost predicate Stacked(st: State) {
    && (forall i :: 0 <= i < |st.stack| ==> st.stack[i] in st.arena)
    && (forall i :: 0 < i < |st.stack| ==> st.arena[st.stack[i]].parent == Some(st.stack[i - 1]))
    && (st.stack != [] ==> st.arena[st.stack[0]].parent == None)
  }

  ghost predicate Inv(st: State) {
    Linked(st.arena) && Tabled(st.arena) && Stacked(st) && Numbered(st.arena, st.next)
  }

  /** Scope numbers are handed out in order. */
  ghost predicate Numbered(a: Arena, next: ScopeId) {
    forall s :: s in a ==> s < next
  }

  /** Scopes stay, with their names and places; tables only grow. */
  ghost predicate Extends(a: Arena, b: Arena) {
    forall s :: s in a ==>
      && s in b && b[s].parent == a[s].parent && b[s].name == a[s].name && b[s].anonymous == a[s].anonymous
      && a[s].children.Keys <= b[s].children.Keys && a[s].aliases.Keys <= b[s].aliases.Keys
  }

  lemma NextNameIsFresh(a: Arena, s: ScopeId)
    requires ChildrenPlaced(a) && s in a && TabledAt(a, s)
    ensures var n := Unnamed(a[s].unnamedCount);
      n !in a[s].children && n !in a[s].aliases && MadeUp(a[s].unnamedCount + 1, n)
  {
    var n := Unnamed(a[s].unnamedCount);
    forall k: nat | k < a[s].unnamedCount ensures Unnamed(k) != n {
      if Unnamed(k) == n {
        UnnamedInjective(k, a[s].unnamedCount);
      }
    }
    assert !MadeUp(a[s].unnamedCount, n) && !UserName(n);
  }

  /** A scope whose tables did not change, nor the ranges and names of its children. */
  lemma TableUnchanged(a: Arena, b: Arena, x: ScopeId)
    requires ChildrenPlaced(a) && ChildrenPlaced(b) && x in a && x in b && TabledAt(a, x)
    requires a[x].children == b[x].children && a[x].aliases == b[x].aliases && a[x].unnamedCount <= b[x].unnamedCount
    requires forall n :: n in a[x].children ==>
      var c := a[x].children[n]; a[c].anonymous == b[c].anonymous && a[c].range == b[c].range
    requires forall n :: n in a[x].aliases ==> HasRange(b, a[x].aliases[n])
    ensures TabledAt(b, x)
  {
  }

  /** A scope's own entry changes, but not its place, name and children. */
  ghost predicate Patch(a: Arena, s: ScopeId, sc: Scope) {
    && s in a
    && sc.parent == a[s].parent && sc.name == a[s].name && sc.anonymous == a[s].anonymous && sc.children == a[s].children
    && a[s].aliases.Keys <= sc.aliases.Keys
    && forall n :: n in sc.aliases ==> sc.aliases[n] in a && a[sc.aliases[n]].parent == Some(s)
  }

  lemma PatchExtends(a: Arena, s: ScopeId, sc: Scope)
    requires Patch(a, s, sc)
    ensures Extends(a, a[s := sc])
  {
  }

  lemma PatchChildren(a: Arena, s: ScopeId, sc: Scope)
    requires ChildrenPlaced(a) && Patch(a, s, sc)
    ensures ChildrenPlaced(a[s := sc])
  {
    var b := a[s := sc];
    assert forall x :: x in b ==> x in a && b[x].children == a[x].children && b[x].parent == a[x].parent && b[x].name == a[x].name;
  }

  lemma PatchParents(a: Arena, s: ScopeId, sc: Scope)
    requires ParentsKnow(a) && Patch(a, s, sc)
    ensures ParentsKnow(a[s := sc])
  {
    var b := a[s := sc];
    assert forall x :: x in b ==> x in a && b[x].children == a[x].children && b[x].parent == a[x].parent && b[x].name == a[x].name;
  }

  lemma PatchAliases(a: Arena, s: ScopeId, sc: Scope)
    requires AliasesInside(a) && Patch(a, s, sc)
    ensures AliasesInside(a[s := sc])
  {
  }

  lemma PatchLinks(a: Arena, s: ScopeId, sc: Scope)
    requires Linked(a) && Patch(a, s, sc)
    ensures Linked(a[s := sc]) && Extends(a, a[s := sc])
  {
    PatchExtends(a, s, sc);
    PatchChildren(a, s, sc);
    PatchParents(a, s, sc);
    PatchAliases(a, s, sc);
  }

  /** The part of the table invariant that a change of one entry, but not of its range, can break. */
  lemma PatchTables(a: Arena, s: ScopeId, sc: Scope)
    requires ChildrenPlaced(a) && Tabled(a) && Patch(a, s, sc) && ChildrenPlaced(a[s := sc])
    requires sc.range == a[s].range && a[s].unnamedCount <= sc.unnamedCount
    requires forall n :: n in sc.aliases ==> (UserName(n) || MadeUp(sc.unnamedCount, n)) && HasRange(a, sc.aliases[n])
    ensures Tabled(a[s := sc])
  {
    forall x | x in a ensures TabledAt(a[s := sc], x) {
      assert TabledAt(a, x);
      PatchTable(a, s, sc, x);
    }
  }

  lemma PatchTable(a: Arena, s: ScopeId, sc: Scope, x: ScopeId)
    requires ChildrenPlaced(a) && Patch(a, s, sc) && ChildrenPlaced(a[s := sc]) && x in a && TabledAt(a, x)
    requires sc.range == a[s].range && a[s].unnamedCount <= sc.unnamedCount
    requires forall n :: n in sc.aliases ==> (UserName(n) || MadeUp(sc.unnamedCount, n)) && HasRange(a, sc.aliases[n])
    ensures TabledAt(a[s := sc], x)
  {
    var b := a[s := sc];
    forall m, n | m in b[x].children && n in b[x].children && m != n
      ensures Distinct(b, b[x].children[m], b[x].children[n])
    {
      assert Distinct(a, a[x].children[m], a[x].children[n]);
    }
  }

  lemma CountKeeps(a: Arena, s: ScopeId)
    requires Linked(a) && Tabled(a) && s in a
    ensures Linked(Counted(a, s)) && Tabled(Counted(a, s)) && Extends(a, Counted(a, s))
  {
    assert TabledAt(a, s);
    var sc := a[s].(unnamedCount := a[s].unnamedCount + 1);
    PatchLinks(a, s, sc);
    PatchTables(a, s, sc);
  }

  /** A new child under a name not used yet. */
  function WithChild(a: Arena, s: ScopeId, id: ScopeId, child: Scope): Arena
    requires s in a
  {
    a[s := a[s].(children := a[s].children[child.name := id])][id := child]
  }

  ghost predicate NewChild(a: Arena, s: ScopeId, id: ScopeId, child: Scope) {
    && s in a && id !in a && s < id && child.name !in a[s].children
    && child.parent == Some(s) && child.children == map[] && child.aliases == map[]
    && (if child.anonymous then MadeUp(a[s].unnamedCount, child.name) else UserName(child.name))
    && child.range == None
  }

  lemma NewChildLinks(a: Arena, s: ScopeId, id: ScopeId, child: Scope)
    requires Linked(a) && NewChild(a, s, id, child)
    ensures Linked(WithChild(a, s, id, child)) && Extends(a, WithChild(a, s, id, child))
  {
    NewChildExtends(a, s, id, child);
    NewChildPlaced(a, s, id, child);
    NewChildKnown(a, s, id, child);
    NewChildAliases(a, s, id, child);
  }

  lemma NewChildExtends(a: Arena, s: ScopeId, id: ScopeId, child: Scope)
    requires NewChild(a, s, id, child)
    ensures Extends(a, WithChild(a, s, id, child))
  {
  }

  lemma NewChildPlaced(a: Arena, s: ScopeId, id: ScopeId, child: Scope)
    requires ChildrenPlaced(a) && NewChild(a, s, id, child)
    ensures ChildrenPlaced(WithChild(a, s, id, child))
  {
    var b := WithChild(a, s, id, child);
    forall x, n | x in b && n in b[x].children
      ensures var c := b[x].children[n]; c in b && x < c && b[c].parent == Some(x) && b[c].name == n
    {
      assert x != id;
      assert (x == s && n == child.name) || n in a[x].children;
    }
  }

  lemma NewChildKnown(a: Arena, s: ScopeId, id: ScopeId, child: Scope)
    requires ParentsKnow(a) && NewChild(a, s, id, child)
    ensures ParentsKnow(WithChild(a, s, id, child))
  {
    var b := WithChild(a, s, id, child);
    forall c | c in b && b[c].parent.Some?
      ensures var p := b[c].parent.value; p in b && p < c && b[c].name in b[p].children && b[p].children[b[c].name] == c
    {
      assert c != id ==> c in a && a[c].parent == b[c].parent;
    }
  }

  lemma NewChildAliases(a: Arena, s: ScopeId, id: ScopeId, child: Scope)
    requires AliasesInside(a) && NewChild(a, s, id, child)
    ensures AliasesInside(WithChild(a, s, id, child))
  {
    var b := WithChild(a, s, id, child);
    forall x, n | x in b && n in b[x].aliases
      ensures var c := b[x].aliases[n]; c in b && b[c].parent == Some(x)
    {
      assert n in a[x].aliases;
    }
  }

  lemma NewChildTables(a: Arena, s: ScopeId, id: ScopeId, child: Scope)
    requires ChildrenPlaced(a) && Tabled(a) && NewChild(a, s, id, child)
    requires ChildrenPlaced(WithChild(a, s, id, child))
    ensures Tabled(WithChild(a, s, id, child))
  {
    var b := WithChild(a, s, id, child);
    forall x | x in b ensures TabledAt(b, x) {
      if x == s {
        NewChildTable(a, s, id, child);
      } else if x != id {
        OtherTable(a, s, id, child, x);
      }
    }
  }

  lemma OtherTable(a: Arena, s: ScopeId, id: ScopeId, child: Scope, x: ScopeId)
    requires ChildrenPlaced(a) && NewChild(a, s, id, child) && x in a && x != s && TabledAt(a, x)
    requires ChildrenPlaced(WithChild(a, s, id, child))
    ensures TabledAt(WithChild(a, s, id, child), x)
  {
    TableUnchanged(a, WithChild(a, s, id, child), x);
  }

  lemma NewChildTable(a: Arena, s: ScopeId, id: ScopeId, child: Scope)
    requires ChildrenPlaced(a) && NewChild(a, s, id, child) && TabledAt(a, s)
    requires ChildrenPlaced(WithChild(a, s, id, child))
    ensures TabledAt(WithChild(a, s, id, child), s)
  {
    var b := WithChild(a, s, id, child);
    assert forall n :: n in a[s].children ==> a[s].children[n] in a && a[s].children[n] != id && a[s].children[n] != s;
    assert b[s].children == a[s].children[child.name := id];
    NewChildDistinct(a, s, id, child);
  }

  lemma NewChildDistinct(a: Arena, s: ScopeId, id: ScopeId, child: Scope)
    requires ChildrenPlaced(a) && NewChild(a, s, id, child) && TabledAt(a, s)
    ensures var b := WithChild(a, s, id, child);
      forall m, n :: m in b[s].children && n in b[s].children && m != n ==>
        b[s].children[m] in b && b[s].children[n] in b && Distinct(b, b[s].children[m], b[s].children[n])
  {
    var b := WithChild(a, s, id, child);
    forall m, n | m in b[s].children && n in b[s].children && m != n
      ensures b[s].children[m] in b && b[s].children[n] in b && Distinct(b, b[s].children[m], b[s].children[n])
    {
      if m != child.name && n != child.name {
        assert Distinct(a, a[s].children[m], a[s].children[n]);
      }
    }
  }

  lemma StackKeeps(st: State, b: Arena, next: ScopeId)
    requires Stacked(st) && Extends(st.arena, b)
    ensures Stacked(State(b, next, st.stack))
  {
  }

  lemma AddChildKeeps(st: State, s: ScopeId, name: string, isVirtual: bool)
    requires Inv(st) && s in st.arena
    requires CleanName(name) || name in st.arena[s].children
    ensures var (u, c) := AddChild(st, s, name, isVirtual);
      && Inv(u) && u.stack == st.stack && Extends(st.arena, u.arena)
      && c in u.arena && u.arena[c].parent == Some(s)
      && Closes(u.arena[c], name)
      && (if name != "" && name in st.arena[s].children then u.arena == st.arena && c == st.arena[s].children[name]
          else c !in st.arena && u.arena[c].range == None && u.arena[c].anonymous == (name == ""))
  {
    var a := st.arena;
    if name == "" {
      NextNameIsFresh(a, s);
      CountKeeps(a, s);
      StackKeeps(st, Counted(a, s), st.next);
      AddNewChildKeeps(st.(arena := Counted(a, s)), s, ChildScope(s, Unnamed(a[s].unnamedCount), isVirtual, true));
    } else if name !in a[s].children {
      AddNewChildKeeps(st, s, ChildScope(s, name, isVirtual, false));
    }
  }

  lemma AddNewChildKeeps(st: State, s: ScopeId, child: Scope)
    requires Inv(st) && NewChild(st.arena, s, st.next, child)
    ensures var b := WithChild(st.arena, s, st.next, child);
      Inv(State(b, st.next + 1, st.stack)) && Extends(st.arena, b)
  {
    var b := WithChild(st.arena, s, st.next, child);
    NewChildLinks(st.arena, s, st.next, child);
    NewChildTables(st.arena, s, st.next, child);
    StackKeeps(st, b, st.next + 1);
    NewChildNumbers(st.arena, s, st.next, child);
  }

  lemma NewChildNumbers(a: Arena, s: ScopeId, id: ScopeId, child: Scope)
    requires s in a && Numbered(a, id)
    ensures Numbered(WithChild(a, s, id, child), id + 1)
  {
  }

  // --------------------------------------------------- aliases and ranges

  /** A scope after an alias was set: under the next made-up name, under the given name, or as it was. */
  function AliasedScope(sc: Scope, alias: string, c: ScopeId): Scope {
    if alias == "" then
      sc.(aliases := sc.aliases[Unnamed(sc.unnamedCount) := c], unnamedCount := sc.unnamedCount + 1)
    else if alias in sc.aliases then sc
    else sc.(aliases := sc.aliases[alias := c])
  }

  function Aliased(a: Arena, s: ScopeId, alias: string, c: ScopeId): Arena
    requires s in a
  {
    a[s := AliasedScope(a[s], alias, c)]
  }

  /** The alias stands for another scope already. */
  predicate Taken(sc: Scope, alias: string, c: ScopeId) {
    alias in sc.aliases && sc.aliases[alias] != c
  }

  /** Aliasing a child fails exactly when the alias already stands for another one. */
  lemma AddAliasExactly(st: State, s: ScopeId, ref: string, alias: string)
    requires s in st.arena && ref in st.arena[s].children
    requires "" !in st.arena[s].aliases && Unnamed(st.arena[s].unnamedCount) !in st.arena[s].aliases
    ensures var sc := st.arena[s];
      AddAlias(st, s, ref, alias)
      == if Taken(sc, alias, sc.children[ref]) then Err(AliasClash)
         else Ok(st.(arena := Aliased(st.arena, s, alias, sc.children[ref])))
  {
  }

  /** For a reference that is no child, the new name is looked up instead of the reference: it fails
      unless both are aliases already, and then sets nothing. */
  lemma AddAliasToAlias(st: State, s: ScopeId, ref: string, alias: string)
    requires s in st.arena && ref !in st.arena[s].children && alias != ""
    ensures var known := ref in st.arena[s].aliases && alias in st.arena[s].aliases;
      AddAlias(st, s, ref, alias) == if known then Ok(st) else Err(AliasClash)
  {
  }

  lemma AliasedKeeps(st: State, s: ScopeId, alias: string, c: ScopeId)
    requires Inv(st) && s in st.arena && HasRange(st.arena, c) && st.arena[c].parent == Some(s) && CleanName(alias)
    ensures var u := st.(arena := Aliased(st.arena, s, alias, c)); Inv(u) && Extends(st.arena, u.arena)
  {
    var a, sc := st.arena, AliasedScope(st.arena[s], alias, c);
    assert TabledAt(a, s);
    AliasIsPatch(a, s, alias, c);
    PatchLinks(a, s, sc);
    PatchTables(a, s, sc);
    StackKeeps(st, Aliased(a, s, alias, c), st.next);
  }

  lemma AliasIsPatch(a: Arena, s: ScopeId, alias: string, c: ScopeId)
    requires ChildrenPlaced(a) && AliasesInside(a) && s in a && TabledAt(a, s)
    requires HasRange(a, c) && a[c].parent == Some(s) && CleanName(alias)
    ensures var sc := AliasedScope(a[s], alias, c);
      && Patch(a, s, sc) && sc.range == a[s].range && a[s].unnamedCount <= sc.unnamedCount
      && forall n :: n in sc.aliases ==> (UserName(n) || MadeUp(sc.unnamedCount, n)) && HasRange(a, sc.aliases[n])
  {
    NextNameIsFresh(a, s);
    var sc := AliasedScope(a[s], alias, c);
    forall n | n in sc.aliases ensures (UserName(n) || MadeUp(sc.unnamedCount, n)) && HasRange(a, sc.aliases[n]) {
      if n in a[s].aliases && sc.aliases[n] == a[s].aliases[n] {
      } else {
        assert sc.aliases[n] == c;
      }
    }
  }

  lemma NoEmptyAlias(a: Arena, s: ScopeId)
    requires ChildrenPlaced(a) && s in a && TabledAt(a, s)
    ensures "" !in a[s].aliases && "" !in a[s].children
  {
    assert forall k: nat :: Unnamed(k) != "";
  }

  /** Giving a child a range that none of its siblings has. */
  lemma RangeKeeps(st: State, r: Range)
    requires Inv(st) && HasTop(st)
    requires st.arena[Top(st)].parent.Some? && st.arena[Top(st)].parent.value in st.arena
    requires SameRange(st.arena, st.arena[Top(st)].parent.value, r) == {}
    ensures Inv(Ranged(st, r)) && Extends(st.arena, Ranged(st, r).arena)
  {
    var a, t, b := st.arena, Top(st), Ranged(st, r).arena;
    PatchLinks(a, t, a[t].(range := Some(r)));
    forall x | x in b ensures TabledAt(b, x) {
      assert TabledAt(a, x);
      RangeTable(a, t, r, x);
    }
    StackKeeps(st, b, st.next);
  }

  lemma RangeTable(a: Arena, t: ScopeId, r: Range, x: ScopeId)
    requires ChildrenPlaced(a) && t in a && a[t].parent.Some? && a[t].parent.value in a
    requires SameRange(a, a[t].parent.value, r) == {}
    requires x in a && TabledAt(a, x) && ChildrenPlaced(a[t := a[t].(range := Some(r))])
    ensures TabledAt(a[t := a[t].(range := Some(r))], x)
  {
    var b := a[t := a[t].(range := Some(r))];
    forall i, j | i in b[x].children && j in b[x].children && i != j
      ensures Distinct(b, b[x].children[i], b[x].children[j])
    {
      var c, d := a[x].children[i], a[x].children[j];
      assert Distinct(a, c, d) && a[c].name == i && a[d].name == j;
      assert c in a[x].children.Values && d in a[x].children.Values;
      if c == t || d == t {
        assert c !in SameRange(a, x, r) && d !in SameRange(a, x, r);
      }
    }
  }

  // ------------------------------------------------------- scope discipline

  lemma ExtendsMore(a: Arena, b: Arena, c: Arena)
    requires Extends(a, b) && Extends(b, c)
    ensures Extends(a, c)
  {
  }

  /** A name the design may use: none at all, or one the index does not make up. */
  ghost predicate CleanName(name: string) {
    name == "" || UserName(name)
  }

  /** Opening below the current scope pushes one of its children, which the name given closes. */
  lemma OpenKeeps(st: State, name: string, isVirtual: bool)
    requires Inv(st) && st.stack != []
    requires CleanName(name) || name in st.arena[Top(st)].children
    ensures var u := Open(st, name, isVirtual);
      && Inv(u) && Extends(st.arena, u.arena) && |u.stack| == |st.stack| + 1 && u.stack[..|st.stack|] == st.stack
      && Top(u) in u.arena && Closes(u.arena[Top(u)], name) && u.arena[Top(u)].parent == Some(Top(st))
  {
    AddChildKeeps(st, Top(st), name, isVirtual);
    var (u, c) := AddChild(st, Top(st), name, isVirtual);
    PushKeeps(u, c);
  }

  lemma PushKeeps(st: State, c: ScopeId)
    requires Stacked(st) && st.stack != [] && c in st.arena && st.arena[c].parent == Some(Top(st))
    ensures Stacked(st.(stack := st.stack + [c]))
  {
  }

  lemma SiblingOfRange(a: Arena, s: ScopeId, r: Range, c: ScopeId)
    requires ChildrenPlaced(a) && s in a && c in SameRange(a, s, r)
    ensures a[c].parent == Some(s) && a[c].name in a[s].children && a[s].children[a[c].name] == c
  {
    var n :| n in a[s].children && a[s].children[n] == c;
  }

  /** However a scope is opened, it is a child of the current one and closes under the name used;
      the only failure is an alias already taken. */
  lemma OpenForKeeps(st: State, name: string, range: Option<Range>, isVirtual: bool)
    requires Inv(st) && st.stack != [] && CleanName(name)
    ensures match OpenFor(st, name, range, isVirtual)
      case Failed(f) => f == AliasClash
      case Opened(u, used) =>
        && Inv(u) && Extends(st.arena, u.arena) && |u.stack| == |st.stack| + 1 && u.stack[..|st.stack|] == st.stack
        && Top(u) in u.arena && Closes(u.arena[Top(u)], used) && u.arena[Top(u)].parent == Some(Top(st))
  {
    var t := Top(st);
    if range.None? {
      OpenKeeps(st, name, false);
    } else {
      var same := SameRange(st.arena, t, range.value);
      if same == {} {
        OpenFresh(st, name, range.value, isVirtual);
      } else {
        OpenDuplicate(st, name, range.value, isVirtual);
      }
    }
  }

  lemma OpenFresh(st: State, name: string, r: Range, isVirtual: bool)
    requires Inv(st) && st.stack != [] && CleanName(name) && SameRange(st.arena, Top(st), r) == {}
    ensures HasTop(Open(st, name, isVirtual))
    ensures var u := Ranged(Open(st, name, isVirtual), r);
      && Inv(u) && Extends(st.arena, u.arena) && |u.stack| == |st.stack| + 1 && u.stack[..|st.stack|] == st.stack
      && Top(u) in u.arena && Closes(u.arena[Top(u)], name) && u.arena[Top(u)].parent == Some(Top(st))
  {
    var v := Open(st, name, isVirtual);
    OpenKeeps(st, name, isVirtual);
    NoSiblingGained(st, name, r, isVirtual);
    RangeKeeps(v, r);
    ExtendsMore(st.arena, v.arena, Ranged(v, r).arena);
  }

  lemma NoSiblingGained(st: State, name: string, r: Range, isVirtual: bool)
    requires Inv(st) && st.stack != [] && CleanName(name) && SameRange(st.arena, Top(st), r) == {}
    ensures var u := Open(st, name, isVirtual); Top(st) in u.arena && SameRange(u.arena, Top(st), r) == {}
  {
    var a, t := st.arena, Top(st);
    if name == "" {
      assert TabledAt(a, t);
      NextNameIsFresh(a, t);
      CountKeepsRanges(a, t, r);
      NewChildHasNoRange(Counted(a, t), t, st.next, ChildScope(t, Unnamed(a[t].unnamedCount), isVirtual, true), r);
    } else if name !in a[t].children {
      NewChildHasNoRange(a, t, st.next, ChildScope(t, name, isVirtual, false), r);
    }
  }

  lemma CountKeepsRanges(a: Arena, s: ScopeId, r: Range)
    requires s in a
    ensures SameRange(Counted(a, s), s, r) == SameRange(a, s, r)
  {
  }

  lemma NewChildHasNoRange(a: Arena, s: ScopeId, id: ScopeId, child: Scope, r: Range)
    requires s in a && s != id && child.range == None && SameRange(a, s, r) == {}
    ensures SameRange(WithChild(a, s, id, child), s, r) == {}
  {
    var b := WithChild(a, s, id, child);
    forall n | n in b[s].children && b[s].children[n] in b ensures b[b[s].children[n]].range != Some(r) {
      if b[s].children[n] != id {
        assert a[s].children[n] in a[s].children.Values;
        assert a[s].children[n] !in SameRange(a, s, r);
      }
    }
  }

  /** The sibling that stands for a range, under its name, in a scope whose next made-up name is free. */
  ghost predicate Covering(st: State, r: Range, c: ScopeId) {
    && HasTop(st) && SameRange(st.arena, Top(st), r) != {} && c == Least(SameRange(st.arena, Top(st), r))
    && c != Top(st) && st.arena[c].name != "" && st.arena[c].name in st.arena[Top(st)].children
    && st.arena[Top(st)].children[st.arena[c].name] == c
    && "" !in st.arena[Top(st)].aliases && Unnamed(st.arena[Top(st)].unnamedCount) !in st.arena[Top(st)].aliases
  }

  /** A scope over a range already covered: the sibling is entered, with the name for an alias, unless
      that is the alias of another sibling. */
  lemma OpeningCovered(st: State, name: string, r: Range, isVirtual: bool, c: ScopeId)
    requires Covering(st, r, c)
    ensures var u := st.(arena := Aliased(st.arena, Top(st), name, c), stack := st.stack + [c]);
      OpenFor(st, name, Some(r), isVirtual)
      == if Taken(st.arena[Top(st)], name, c) then Failed(AliasClash) else Opened(u, st.arena[c].name)
  {
    var t, ref := Top(st), st.arena[c].name;
    AddAliasExactly(st, t, ref, name);
    if !Taken(st.arena[t], name, c) {
      var u := st.(arena := Aliased(st.arena, t, name, c));
      assert u.arena[t].children == st.arena[t].children;
      assert AddChild(u, t, ref, isVirtual) == (u, c);
    }
  }

  lemma SoundIsCovering(st: State, r: Range, c: ScopeId)
    requires Inv(st) && st.stack != [] && SameRange(st.arena, Top(st), r) != {} && c == Least(SameRange(st.arena, Top(st), r))
    ensures Covering(st, r, c)
  {
    var a, t := st.arena, Top(st);
    SiblingOfRange(a, t, r, c);
    assert TabledAt(a, t);
    NoEmptyAlias(a, t);
    NextNameIsFresh(a, t);
  }

  lemma OpenDuplicate(st: State, name: string, r: Range, isVirtual: bool)
    requires Inv(st) && st.stack != [] && CleanName(name) && SameRange(st.arena, Top(st), r) != {}
    ensures match OpenFor(st, name, Some(r), isVirtual)
      case Failed(f) => f == AliasClash
      case Opened(u, used) =>
        && Inv(u) && Extends(st.arena, u.arena) && u.stack == st.stack + [Least(SameRange(st.arena, Top(st), r))]
        && Top(u) in u.arena && Closes(u.arena[Top(u)], used) && u.arena[Top(u)].parent == Some(Top(st))
  {
    var t, c := Top(st), Least(SameRange(st.arena, Top(st), r));
    SoundIsCovering(st, r, c);
    OpeningCovered(st, name, r, isVirtual, c);
    AliasedKeeps(st, t, name, c);
    PushKeeps(st.(arena := Aliased(st.arena, t, name, c)), c);
  }

  /** Opening a child that is there enters it and changes nothing else. */
  lemma OpenExisting(st: State, name: string, isVirtual: bool)
    requires Inv(st) && HasTop(st) && name in st.arena[Top(st)].children
    ensures var c := st.arena[Top(st)].children[name];
      && Open(st, name, isVirtual) == st.(stack := st.stack + [c]) && Inv(Open(st, name, isVirtual))
      && c in st.arena && st.arena[c].name == name && Closes(st.arena[c], name)
  {
    assert TabledAt(st.arena, Top(st));
    NoEmptyAlias(st.arena, Top(st));
    OpenKeeps(st, name, isVirtual);
  }

  /** Coming back to an instance for its module name leaves scopes and stack as they were. */
  lemma RetouchKeeps(st: State, name: string)
    requires Inv(st) && st.stack != []
    ensures Retouch(st, name) == Ok(st)
  {
    var t := Top(st);
    match ByName(st.arena, t, name) {
      case None =>
      case Some(m) =>
        assert st.arena[m].parent == Some(t);
        OpenExisting(st, st.arena[m].name, false);
    }
  }

  ghost predicate Clean(node: Design)
    decreases node, 1
  {
    match node
    case Unit(members) => AllClean(members)
    case Node(name, _, _, _, members) => CleanName(name) && AllClean(members)
  }

  ghost predicate AllClean(nodes: seq<Design>)
    decreases nodes, 0
  {
    nodes == [] || (Clean(nodes[0]) && AllClean(nodes[1..]))
  }

  /** Closing fails exactly when no scope is open, or when the name given is not that of the scope, unless
      the scope has none and neither has the name. */
  lemma CloseExactly(st: State, name: string)
    requires st.stack != [] ==> Top(st) in st.arena
    ensures Close(st, name).Err? <==>
      st.stack == [] || (name != st.arena[Top(st)].name && !(st.arena[Top(st)].anonymous && name == ""))
    ensures Close(st, name).Ok? ==> Close(st, name).st.arena == st.arena && st.stack == Close(st, name).st.stack + [Top(st)]
  {
  }

  /** What a walk below an open scope promises. */
  ghost predicate Disciplined(st: State, r: Result) {
    match r
    case Ok(u) => Inv(u) && u.stack == st.stack && Extends(st.arena, u.arena)
    case Err(f) => f == AliasClash
  }

  lemma CloseKeeps(st: State, u: State, used: string)
    requires Inv(u) && |u.stack| == |st.stack| + 1 && u.stack[..|st.stack|] == st.stack
    requires Closes(u.arena[Top(u)], used)
    ensures Close(u, used) == Ok(u.(stack := st.stack)) && Inv(u.(stack := st.stack))
  {
    var v := u.(stack := st.stack);
    assert forall i :: 0 <= i < |st.stack| ==> v.stack[i] == u.stack[i];
  }

  /** Once the members of a node were walked, its scope closes and nothing else happens. */
  lemma NodeCloses(st: State, node: Design)
    requires Inv(st) && st.stack != [] && node.Node? && CleanName(node.name)
    requires var o := OpenFor(st, node.name, node.range, node.isVirtual);
      o.Opened? && VisitAll(o.st, node.members).Ok? && Disciplined(o.st, VisitAll(o.st, node.members))
    ensures var o := OpenFor(st, node.name, node.range, node.isVirtual);
      var v := VisitAll(o.st, node.members).st.(stack := st.stack);
      Visit(st, node) == Ok(v) && Inv(v) && Extends(st.arena, v.arena)
  {
    OpenForKeeps(st, node.name, node.range, node.isVirtual);
    var o := OpenFor(st, node.name, node.range, node.isVirtual);
    var v := VisitAll(o.st, node.members).st;
    ExtendsMore(st.arena, o.st.arena, v.arena);
    CloseKeeps(st, v, o.used);
    RetouchKeeps(v.(stack := st.stack), node.name);
  }

  /** Whatever the design, the walk leaves the scope stack as it found it and never misses the scope
      it has to close; the only error it can meet is an alias already taken. */
  lemma {:induction false} VisitKeeps(st: State, node: Design)
    requires Inv(st) && st.stack != [] && Clean(node)
    ensures Disciplined(st, Visit(st, node))
    decreases node, 1
  {
    match node {
      case Unit(members) => VisitAllKeeps(st, members);
      case Node(name, range, isVirtual, isInstance, members) =>
        OpenForKeeps(st, name, range, isVirtual);
        match OpenFor(st, name, range, isVirtual) {
          case Failed(_) =>
          case Opened(u, _) =>
            VisitAllKeeps(u, members);
            if VisitAll(u, members).Ok? {
              NodeCloses(st, node);
            }
        }
    }
  }

  lemma {:induction false} VisitAllKeeps(st: State, nodes: seq<Design>)
    requires Inv(st) && st.stack != [] && AllClean(nodes)
    ensures Disciplined(st, VisitAll(st, nodes))
    decreases nodes, 0
  {
    if nodes != [] {
      VisitKeeps(st, nodes[0]);
      match Visit(st, nodes[0]) {
        case Err(_) =>
        case Ok(u) =>
          VisitAllKeeps(u, nodes[1..]);
          if VisitAll(u, nodes[1..]).Ok? {
            ExtendsMore(st.arena, u.arena, VisitAll(u, nodes[1..]).st.arena);
          }
      }
    }
  }
}

/** The visitor itself: index and scope stack, changed in place. */
module IndexWalk {
  import opened Wrappers
  import opened Choice
  import opened Positions
  import opened ScopeTree
  import opened VisitModel

  class IndexVisitor {
    var arena: Arena
    var next: ScopeId
    var stack: seq<ScopeId>

    constructor ()
      ensures Current() == EMPTY
    {
      arena, next, stack := map[], 0, [];
    }

    function Current(): State
      reads this
    {
      State(arena, next, stack)
    }

    /** The result of a step: the next state, or an exception. */
    predicate Does(r: Result, fault: Option<Fault>)
      reads this
    {
      match r
      case Ok(u) => fault == None && Current() == u
      case Err(f) => fault == Some(f)
    }

    method AddChildTo(s: ScopeId, name: string, isVirtual: bool) returns (child: ScopeId)
      requires s in arena
      modifies this`arena, this`next
      ensures (Current(), child) == AddChild(old(Current()), s, name, isVirtual)
    {
      var used := name;
      if name == "" {
        used := Unnamed(arena[s].unnamedCount);
        arena := Counted(arena, s);
      }
      if used in arena[s].children {
        return arena[s].children[used];
      }
      child := next;
      arena := arena[s := arena[s].(children := arena[s].children[used := child])];
      arena := arena[child := ChildScope(s, used, isVirtual, name == "")];
      next := next + 1;
    }

    method AddChildAliasTo(s: ScopeId, ref: string, alias: string) returns (fault: Option<Fault>)
      requires s in arena
      modifies this`arena
      ensures Does(AddAlias(old(Current()), s, ref, alias), fault)
    {
      var target: ScopeId;
      if ref in arena[s].children {
        target := arena[s].children[ref];
      } else if ref in arena[s].aliases && alias in arena[s].aliases {
        target := arena[s].aliases[alias];
      } else {
        return Some(AliasClash);
      }
      var key, aliases := alias, arena[s].aliases;
      if alias == "" {
        key := Unnamed(arena[s].unnamedCount);
        arena := Counted(arena, s);
      }
      if key !in aliases {
        arena := arena[s := arena[s].(aliases := aliases[key := target])];
      } else if aliases[key] != target {
        return Some(AliasClash);
      }
      fault := None;
    }

    method OpenScope(name: string, isVirtual: bool)
      requires stack == [] || HasTop(Current())
      modifies this
      ensures Current() == Open(old(Current()), name, isVirtual)
    {
      if stack == [] {
        arena := map[next := Scope(name, None, map[], map[], None, false, false, 0)];
        stack := [next];
        next := next + 1;
      } else {
        var child := AddChildTo(stack[|stack| - 1], name, isVirtual);
        stack := stack + [child];
      }
    }

    method CloseScope(name: string) returns (fault: Option<Fault>)
      modifies this`stack
      ensures Does(Close(old(Current()), name), fault)
    {
      if !HasTop(Current()) {
        return Some(Mismatch);
      }
      var sc := arena[stack[|stack| - 1]];
      if sc.anonymous && name != "" && name != sc.name {
        return Some(Mismatch);
      } else if !sc.anonymous && name != sc.name {
        return Some(Mismatch);
      }
      stack := stack[..|stack| - 1];
      fault := None;
    }

    /** Entering the scope of a design node; the name to close it with. */
    method EnterScope(name: string, range: Option<Range>, isVirtual: bool) returns (fault: Option<Fault>, used: string)
      modifies this
      ensures match OpenFor(old(Current()), name, range, isVirtual)
        case Opened(u, n) => fault == None && Current() == u && used == n
        case Failed(f) => fault == Some(f)
    {
      used := name;
      if range.None? {
        if stack != [] && !HasTop(Current()) {
          return Some(NoScope), used;
        }
        OpenScope(name, false);
        return None, used;
      }
      if !HasTop(Current()) {
        return Some(NoScope), used;
      }
      var top := stack[|stack| - 1];
      var same := SameRange(arena, top, range.value);
      if same != {} {
        used := arena[Least(same)].name;
        fault := AddChildAliasTo(top, used, name);
        if fault.Some? {
          return fault, used;
        }
        if !HasTop(Current()) {
          return Some(NoScope), used;
        }
        OpenScope(used, isVirtual);
      } else {
        OpenScope(name, isVirtual);
        if !HasTop(Current()) {
          return Some(NoScope), used;
        }
        var child := stack[|stack| - 1];
        arena := arena[child := arena[child].(range := range)];
      }
      fault := None;
    }

    /** After an instance, its module name is put into the scope that the instance name denotes. */
    method NameModule(name: string) returns (fault: Option<Fault>)
      modifies this
      ensures Does(Retouch(old(Current()), name), fault)
    {
      if !HasTop(Current()) {
        return Some(NoScope);
      }
      var m := ByName(arena, stack[|stack| - 1], name);
      if m.None? {
        return None;
      }
      if m.value !in arena {
        return Some(NoScope);
      }
      var own := arena[m.value].name;
      OpenScope(own, false);
      fault := CloseScope(own);
    }

    method Handle(node: Design) returns (fault: Option<Fault>)
      modifies this
      ensures Does(Visit(old(Current()), node), fault)
      decreases node, 1
    {
      match node {
        case Unit(members) =>
          fault := HandleMembers(members);
        case Node(name, range, isVirtual, isInstance, members) =>
          var used: string;
          fault, used := EnterScope(name, range, isVirtual);
          if fault.Some? {
            return;
          }
          fault := HandleMembers(members);
          if fault.Some? {
            return;
          }
          fault := CloseScope(used);
          if fault.None? && isInstance && range.Some? {
            fault := NameModule(name);
          }
      }
    }

    method HandleMembers(members: seq<Design>) returns (fault: Option<Fault>)
      modifies this
      ensures Does(VisitAll(old(Current()), members), fault)
      decreases members, 0
    {
      for i := 0 to |members|
        invariant VisitAll(old(Current()), members) == VisitAll(Current(), members[i..])
      {
        assert members[i..][0] == members[i] && members[i..][1..] == members[i + 1..];
        fault := Handle(members[i]);
        if fault.Some? {
          return;
        }
      }
      fault := None;
    }
  }
}
