/** The scope tree of the source index. Scopes live in an arena, named by numbers handed out in
    order; parent links, child tables and alias tables hold such numbers. */
module ScopeTree {
  import opened Wrappers
  import opened Decimals
  import opened Positions

  type ScopeId = nat

  datatype Scope = Scope(
    name: string,
    parent: Option<ScopeId>,
    children: map<string, ScopeId>,
    aliases: map<string, ScopeId>,
    range: Option<Range>,
    isVirtual: bool,
    anonymous: bool,
    unnamedCount: nat)

  type Arena = map<ScopeId, Scope>

  // ------------------------------------------------------------------- names

  function Unnamed(k: nat): string {
    "unnamed" + Decimal(k)
  }

  lemma UnnamedInjective(m: nat, n: nat)
    requires Unnamed(m) == Unnamed(n)
    ensures m == n
  {
    assert Unnamed(m)[7..] == Decimal(m) && Unnamed(n)[7..] == Decimal(n);
    DecimalInjective(m, n);
  }

  /** A made-up name is the word and digits that read back as the number. */
  lemma UnnamedText(k: nat) returns (digits: string)
    ensures Unnamed(k) == "unnamed" + digits
    ensures (forall i :: 0 <= i < |digits| ==> Digit(digits[i])) && NumberOf(digits) == k
  {
    digits := Decimal(k);
    DecimalReadsBack(k);
  }

  /** Not one of the names the index makes up. */
  ghost predicate UserName(name: string) {
    name != "" && forall k: nat :: name != Unnamed(k)
  }

  // -------------------------------------------------------------- invariants

  /** Child tables and parent links agree, a child comes after its parent, and aliases stand for
      children of the same scope. */
  ghost predicate Linked(a: Arena) {
    ChildrenPlaced(a) && ParentsKnow(a) && AliasesInside(a)
  }

  ghost predicate ChildrenPlaced(a: Arena) {
    forall s, n :: s in a && n in a[s].children ==>
      var c := a[s].children[n]; c in a && s < c && a[c].parent == Some(s) && a[c].name == n
  }

  ghost predicate ParentsKnow(a: Arena) {
    forall c :: c in a && a[c].parent.Some? ==>
      var p := a[c].parent.value; p in a && p < c && a[c].name in a[p].children && a[p].children[a[c].name] == c
  }

  ghost predicate AliasesInside(a: Arena) {
    forall s, n :: s in a && n in a[s].aliases ==>
      var c := a[s].aliases[n]; c in a && a[c].parent == Some(s)
  }

  // ------------------------------------------------------------------- paths

  /** get_scope_by_name: children first, then aliases. */
  function ByName(a: Arena, s: ScopeId, name: string): Option<ScopeId>
    requires s in a
  {
    if name in a[s].children then Some(a[s].children[name])
    else if name in a[s].aliases then Some(a[s].aliases[name])
    else None
  }

  function FullPath(a: Arena, s: ScopeId): string
    requires Linked(a) && s in a
    decreases s
  {
    if a[s].parent.None? then a[s].name else FullPath(a, a[s].parent.value) + "." + a[s].name
  }

  predicate DotFree(s: string) {
    forall i :: 0 <= i < |s| ==> s[i] != '.'
  }

  /** The place of the first dot, or the length. */
  function FirstDot(s: string): (n: nat)
    ensures n <= |s| && DotFree(s[..n]) && (n < |s| ==> s[n] == '.')
  {
    if s == "" || s[0] == '.' then 0
    else
      var n := FirstDot(s[1..]);
      assert s[..n + 1] == [s[0]] + s[1..][..n];
      n + 1
  }

  /** resolve_scope: component by component, cut at each dot. */
  function Resolve(a: Arena, s: ScopeId, path: string): Option<ScopeId>
    requires Linked(a) && s in a
    decreases |path|
  {
    var n := FirstDot(path);
    if n == |path| then ByName(a, s, path)
    else
      var next := ByName(a, s, path[..n]);
      if next.None? then None else Resolve(a, next.value, path[n + 1..])
  }

  /** From a scope down a list of names. */
  function Walk(a: Arena, s: ScopeId, names: seq<string>): (r: Option<ScopeId>)
    requires Linked(a) && s in a
    ensures r.Some? ==> r.value in a
    decreases |names|
  {
    if names == [] then Some(s)
    else
      var next := ByName(a, s, names[0]);
      if next.None? then None else Walk(a, next.value, names[1..])
  }

  /** Names joined by dots. */
  function Join(names: seq<string>): string
    requires names != []
  {
    if |names| == 1 then names[0] else names[0] + ("." + Join(names[1..]))
  }

  function Split(path: string): (r: seq<string>)
    ensures r != []
    decreases |path|
  {
    var n := FirstDot(path);
    if n == |path| then [path] else [path[..n]] + Split(path[n + 1..])
  }

  lemma WalkCons(a: Arena, s: ScopeId, name: string, names: seq<string>)
    requires Linked(a) && s in a
    ensures Walk(a, s, [name] + names)
         == if ByName(a, s, name).None? then None else Walk(a, ByName(a, s, name).value, names)
  {
    assert ([name] + names)[1..] == names;
  }

  lemma {:induction false} ResolveWalksTheSplit(a: Arena, s: ScopeId, path: string)
    requires Linked(a) && s in a
    ensures Resolve(a, s, path) == Walk(a, s, Split(path))
    decreases |path|
  {
    var n := FirstDot(path);
    if n == |path| {
      WalkCons(a, s, path, []);
      assert [path] + [] == [path];
    } else {
      WalkCons(a, s, path[..n], Split(path[n + 1..]));
      var next := ByName(a, s, path[..n]);
      if next.Some? {
        ResolveWalksTheSplit(a, next.value, path[n + 1..]);
      }
    }
  }

  ghost predicate AllDotFree(names: seq<string>) {
    forall i :: 0 <= i < |names| ==> DotFree(names[i])
  }

  lemma {:induction false} FirstDotIs(p: string, k: nat)
    requires k <= |p| && DotFree(p[..k]) && (k < |p| ==> p[k] == '.')
    ensures FirstDot(p) == k
    decreases k
  {
    if k > 0 {
      assert p[..k][0] == p[0] && p[1..][..k - 1] == p[..k][1..];
      FirstDotIs(p[1..], k - 1);
    }
  }

  lemma SplitAtDot(name: string, rest: string)
    requires DotFree(name)
    ensures Split(name) == [name]
    ensures Split(name + ("." + rest)) == [name] + Split(rest)
  {
    var p := name + ("." + rest);
    assert name[..|name|] == name;
    FirstDotIs(name, |name|);
    assert p[..|name|] == name && p[|name|] == '.' && p[|name| + 1..] == rest;
    FirstDotIs(p, |name|);
  }

  /** Names without dots survive being joined and split. */
  lemma {:induction false} SplitOfJoin(names: seq<string>)
    requires names != [] && AllDotFree(names)
    ensures Split(Join(names)) == names
  {
    if |names| == 1 {
      SplitAtDot(names[0], "");
    } else {
      SplitAtDot(names[0], Join(names[1..]));
      SplitOfJoin(names[1..]);
    }
  }

  /** Resolving dot-free names joined by dots follows them one by one. */
  lemma ResolveJoined(a: Arena, s: ScopeId, names: seq<string>)
    requires Linked(a) && s in a && names != [] && AllDotFree(names)
    ensures Resolve(a, s, Join(names)) == Walk(a, s, names)
  {
    ResolveWalksTheSplit(a, s, Join(names));
    SplitOfJoin(names);
  }

  /** The scopes' own names from below the root down to a scope. */
  function Names(a: Arena, s: ScopeId): seq<string>
    requires Linked(a) && s in a
    decreases s
  {
    if a[s].parent.None? then [] else Names(a, a[s].parent.value) + [a[s].name]
  }

  function RootOf(a: Arena, s: ScopeId): (r: ScopeId)
    requires Linked(a) && s in a
    ensures r in a && a[r].parent.None?
    decreases s
  {
    if a[s].parent.None? then s else RootOf(a, a[s].parent.value)
  }

  lemma {:induction false} JoinSnoc(names: seq<string>, n: string)
    requires names != []
    ensures Join(names + [n]) == Join(names) + "." + n
  {
    if |names| == 1 {
      assert (names + [n])[1..] == [n];
    } else {
      assert (names + [n])[1..] == names[1..] + [n];
      JoinSnoc(names[1..], n);
    }
  }

  /** A full path is the root's name, a dot, and the names below the root joined. */
  lemma {:induction false} FullPathIsJoin(a: Arena, s: ScopeId)
    requires Linked(a) && s in a && a[s].parent.Some?
    ensures Names(a, s) != []
    ensures FullPath(a, s) == a[RootOf(a, s)].name + "." + Join(Names(a, s))
    decreases s
  {
    var p := a[s].parent.value;
    if a[p].parent.Some? {
      FullPathIsJoin(a, p);
      JoinSnoc(Names(a, p), a[s].name);
    }
  }

  /** What follows the root's name and a dot in the full path. */
  function RelativePath(a: Arena, s: ScopeId): string
    requires Linked(a) && s in a && a[s].parent.Some?
  {
    FullPathIsJoin(a, s);
    FullPath(a, s)[|a[RootOf(a, s)].name| + 1..]
  }

  lemma RelativePathIsJoin(a: Arena, s: ScopeId)
    requires Linked(a) && s in a && a[s].parent.Some?
    ensures Names(a, s) != [] && RelativePath(a, s) == Join(Names(a, s))
  {
    FullPathIsJoin(a, s);
  }

  lemma {:induction false} WalkAppend(a: Arena, s: ScopeId, xs: seq<string>, ys: seq<string>)
    requires Linked(a) && s in a
    ensures Walk(a, s, xs + ys) == if Walk(a, s, xs).None? then None else Walk(a, Walk(a, s, xs).value, ys)
    decreases |xs|
  {
    if xs == [] {
      assert xs + ys == ys;
    } else {
      assert (xs + ys)[0] == xs[0] && (xs + ys)[1..] == xs[1..] + ys;
      var next := ByName(a, s, xs[0]);
      if next.Some? {
        WalkAppend(a, next.value, xs[1..], ys);
      }
    }
  }

  /** A name list denotes a scope: at each level it is the scope's name or an alias that no child
      has taken over. */
  ghost predicate Denotes(a: Arena, names: seq<string>, s: ScopeId)
    requires Linked(a) && s in a
    decreases s
  {
    if a[s].parent.None? then names == []
    else
      var p := a[s].parent.value;
      names != [] && Denotes(a, names[..|names| - 1], p) &&
        var n := names[|names| - 1];
        n == a[s].name || (n !in a[p].children && n in a[p].aliases && a[p].aliases[n] == s)
  }

  lemma {:induction false} DenotedIsReached(a: Arena, names: seq<string>, s: ScopeId)
    requires Linked(a) && s in a && Denotes(a, names, s)
    ensures Walk(a, RootOf(a, s), names) == Some(s)
    decreases s
  {
    if a[s].parent.Some? {
      var p := a[s].parent.value;
      var before, n := names[..|names| - 1], names[|names| - 1];
      DenotedIsReached(a, before, p);
      WalkAppend(a, RootOf(a, s), before, [n]);
      assert names == before + [n] && [n][1..] == [];
    }
  }

  /** Path round trip, aliases included: from the root, a dot-free path whose components are names
      or registered aliases of the scopes on the way resolves to the scope. */
  lemma AliasedPathResolves(a: Arena, names: seq<string>, s: ScopeId)
    requires Linked(a) && s in a && a[s].parent.Some? && Denotes(a, names, s) && AllDotFree(names)
    ensures names != [] && Resolve(a, RootOf(a, s), Join(names)) == Some(s)
  {
    DenotedIsReached(a, names, s);
    ResolveJoined(a, RootOf(a, s), names);
  }

  lemma {:induction false} OwnNamesDenote(a: Arena, s: ScopeId)
    requires Linked(a) && s in a
    ensures Denotes(a, Names(a, s), s)
    decreases s
  {
    if a[s].parent.Some? {
      OwnNamesDenote(a, a[s].parent.value);
      assert Names(a, s)[..|Names(a, s)| - 1] == Names(a, a[s].parent.value);
    }
  }

  function Depth(a: Arena, s: ScopeId): nat
    requires Linked(a) && s in a
    decreases s
  {
    if a[s].parent.None? then 0 else Depth(a, a[s].parent.value) + 1
  }

  lemma {:induction false} WalkDepth(a: Arena, s: ScopeId, names: seq<string>)
    requires Linked(a) && s in a
    ensures Walk(a, s, names).Some? ==> Depth(a, Walk(a, s, names).value) == Depth(a, s) + |names|
    decreases |names|
  {
    if names != [] {
      var next := ByName(a, s, names[0]);
      if next.Some? {
        assert a[next.value].parent == Some(s);
        WalkDepth(a, next.value, names[1..]);
      }
    }
  }

  lemma {:induction false} NamesDepth(a: Arena, s: ScopeId)
    requires Linked(a) && s in a
    ensures |Names(a, s)| == Depth(a, s)
    decreases s
  {
    if a[s].parent.Some? {
      NamesDepth(a, a[s].parent.value);
    }
  }

  function Dots(s: string): nat {
    if s == "" then 0 else (if s[0] == '.' then 1 else 0) + Dots(s[1..])
  }

  lemma {:induction false} DotsAppend(a: string, b: string)
    ensures Dots(a + b) == Dots(a) + Dots(b)
  {
    if a == "" {
      assert a + b == b;
    } else {
      assert (a + b)[0] == a[0] && (a + b)[1..] == a[1..] + b;
      DotsAppend(a[1..], b);
    }
  }

  lemma {:induction false} DotFreeHasNone(s: string)
    ensures DotFree(s) <==> Dots(s) == 0
  {
    if s != "" {
      DotFreeHasNone(s[1..]);
      assert DotFree(s) <==> s[0] != '.' && DotFree(s[1..]);
    }
  }

  lemma {:induction false} SplitCountsDots(path: string)
    ensures |Split(path)| == Dots(path) + 1
    decreases |path|
  {
    var n := FirstDot(path);
    DotFreeHasNone(path[..n]);
    if n == |path| {
      assert path[..n] == path;
    } else {
      SplitCountsDots(path[n + 1..]);
      assert path == path[..n] + (['.'] + path[n + 1..]);
      DotsAppend(path[..n], ['.'] + path[n + 1..]);
      DotsAppend(['.'], path[n + 1..]);
      assert ['.'][1..] == "";
    }
  }

  lemma {:induction false} JoinCountsDots(names: seq<string>)
    requires names != []
    ensures Dots(Join(names)) >= |names| - 1
    ensures Dots(Join(names)) == |names| - 1 <==> AllDotFree(names)
  {
    DotFreeHasNone(names[0]);
    if |names| > 1 {
      JoinCountsDots(names[1..]);
      DotsAppend(names[0], "." + Join(names[1..]));
      DotsAppend(".", Join(names[1..]));
      assert "."[1..] == "";
      assert AllDotFree(names) <==> DotFree(names[0]) && AllDotFree(names[1..]);
    }
  }

  /** Printing the path of a scope and resolving what follows the root's name comes back to the
      scope exactly when none of the names on the way contains a dot. */
  lemma PathRoundTripExactly(a: Arena, s: ScopeId)
    requires Linked(a) && s in a && a[s].parent.Some?
    ensures Resolve(a, RootOf(a, s), RelativePath(a, s)) == Some(s) <==> AllDotFree(Names(a, s))
  {
    var root, path := RootOf(a, s), RelativePath(a, s);
    RelativePathIsJoin(a, s);
    OwnNamesDenote(a, s);
    if AllDotFree(Names(a, s)) {
      AliasedPathResolves(a, Names(a, s), s);
    } else {
      ResolveWalksTheSplit(a, root, path);
      SplitCountsDots(path);
      JoinCountsDots(Names(a, s));
      NamesDepth(a, s);
      WalkDepth(a, root, Split(path));
    }
  }
}
