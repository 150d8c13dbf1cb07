/** Which files may share modules: the recursive build finds everything, whatever the modules need and
    in whatever order their dependencies are listed, exactly for certain distributions of modules over
    files. */
module ProjectLayout {
  import opened Wrappers
  import opened CacheModel
  import opened Dependencies
  import opened ProjectBuild

  /** The same files with the same modules in them; only what the modules need may differ. */
  ghost predicate SameLayout(t: Tables, u: Tables) {
    && u == t.(storage := u.storage) && u.storage.Keys == t.storage.Keys
    && forall b :: b in t.storage ==> u.storage[b].name == t.storage[b].name
  }

  lemma LayoutIsCoherent(t: Tables, u: Tables)
    requires Coherent(t) && SameLayout(t, u)
    ensures Coherent(u)
  {
  }

  lemma LayoutLookups(t: Tables, u: Tables, n: Name)
    requires Coherent(t) && Coherent(u) && SameLayout(t, u)
    ensures Lookup(u, n) == Lookup(t, n) && (Lookup(t, n).Some? ==> FileOf(u, n) == FileOf(t, n))
  {
  }

  lemma LayoutDeclares(t: Tables, u: Tables, f: Path, n: Name)
    requires SameLayout(t, u)
    ensures Declares(u, f, n) <==> Declares(t, f, n)
  {
  }

  // ------------------------------------------------------- what was followed

  /** The module is in the file, and all known modules it needs are in the project. */
  ghost predicate Follows(c: Tables, u: Tables, x: Name, f: Path)
    requires Coherent(c)
  {
    && Lookup(c, x).Some? && FileOf(c, x) == f
    && forall d :: Needs(c, x, d) && Lookup(c, d).Some? ==> d in u.prjModules
  }

  ghost predicate Followed(c: Tables, u: Tables, f: Path)
    requires Coherent(c)
  {
    exists x :: Follows(c, u, x, f)
  }

  /** Of each file added, some module was followed. */
  ghost predicate AllFollowed(c: Tables, t: Tables, u: Tables)
    requires Coherent(c)
  {
    forall f :: f in u.prjFiles && f !in t.prjFiles ==> Followed(c, u, f)
  }

  lemma FollowedMore(c: Tables, t: Tables, v: Tables, u: Tables)
    requires Coherent(c) && AllFollowed(c, t, v) && AllFollowed(c, v, u) && Grows(v, u)
    ensures AllFollowed(c, t, u)
  {
    forall f | f in u.prjFiles && f !in t.prjFiles ensures Followed(c, u, f) {
      if f in v.prjFiles {
        var x :| Follows(c, v, x, f);
        assert Follows(c, u, x, f);
      }
    }
  }

  lemma {:induction false} AddedFollows(t: Tables, m: Name, c: Tables)
    requires Coherent(t) && Coherent(c) && c == Cleared(t) && m !in t.prjModules
    ensures AllFollowed(c, t, Added(t, m)) && (Lookup(c, m).Some? ==> m in Added(t, m).prjModules)
    decreases Unlisted(t), 0, 0
  {
    LookupCleared(t, m);
    if Lookup(t, m).Some? {
      RecordLists(t, m);
      AddedAllFollows(Recorded(t, FileOf(t, m), true), DepsOf(t, m), c);
      RecordFollows(t, m, c, Added(t, m));
    }
  }

  /** The file recorded, once all that the module needs is in the project. */
  lemma RecordFollows(t: Tables, m: Name, c: Tables, u: Tables)
    requires Coherent(t) && Coherent(c) && c == Cleared(t) && m !in t.prjModules && Lookup(t, m).Some?
    requires FileOf(t, m) in t.wsFiles && AllFollowed(c, Recorded(t, FileOf(t, m), true), u)
    requires forall d :: d in DepsOf(t, m) && Lookup(c, d).Some? ==> d in u.prjModules
    ensures AllFollowed(c, t, u)
  {
    LookupCleared(t, m);
    NeedsAreDeps(t, m, c);
    assert Follows(c, u, m, FileOf(t, m));
  }

  lemma {:induction false} AddedAllFollows(t: Tables, deps: seq<Name>, c: Tables)
    requires Coherent(t) && Coherent(c) && c == Cleared(t)
    ensures AllFollowed(c, t, AddedAll(t, deps))
    ensures forall d :: d in deps && Lookup(c, d).Some? ==> d in AddedAll(t, deps).prjModules
    decreases Unlisted(t), 1, |deps|
  {
    if deps != [] {
      var d := deps[0];
      var v := if d in t.prjModules then t else Added(t, d);
      GrowthUnlists(t, v);
      if d !in t.prjModules {
        AddedFollows(t, d, c);
      }
      AddedAllFollows(v, deps[1..], c);
      FollowedMore(c, t, v, AddedAll(v, deps[1..]));
    }
  }

  /** A name in the project is declared in a project file. */
  lemma PublishedIsDeclared(u: Tables, n: Name) returns (f: Path)
    requires Coherent(u) && n in u.prjModules
    ensures f in u.prjFiles && Declares(u, f, n)
  {
    var b := u.prjModules[n];
    f := u.bbToPath[b];
    var i :| 0 <= i < |u.pathToBb[f]| && u.pathToBb[f][i] == b;
  }

  // ------------------------------------------------------------ safe layouts

  /** The file, or that of the root. */
  predicate HereOrRoot(f: Path, here: Path, root: Path) {
    f == here || f == root
  }

  /** Every module declared in the file of a module is looked up there or in the root's file; where two
      modules share a file, every module at all is in that file or in the root's. */
  ghost predicate Safe(c: Tables, m: Name)
    requires Coherent(c) && Lookup(c, m).Some?
  {
    && (forall x, y :: Lookup(c, x).Some? && Lookup(c, y).Some? && Declares(c, FileOf(c, x), y) ==>
          HereOrRoot(FileOf(c, y), FileOf(c, x), FileOf(c, m)))
    && (forall x, y, k :: Lookup(c, x).Some? && Lookup(c, y).Some? && Lookup(c, k).Some? && x != y && FileOf(c, x) == FileOf(c, y) ==>
          HereOrRoot(FileOf(c, k), FileOf(c, x), FileOf(c, m)))
  }

  /** The build from m adds exactly the files of the known modules reached. */
  ghost predicate Exact(c: Tables, m: Name)
    requires Coherent(c)
  {
    forall f :: f in Added(c, m).prjFiles <==> FileReached(c, {m}, f)
  }

  /** What a followed module needs has its file in the project. */
  lemma FollowedNeeds(c: Tables, m: Name, u: Tables, d: Name)
    requires Coherent(c) && Coherent(u) && c == Cleared(u) && Lookup(c, m).Some? && Safe(c, m)
    requires AllFollowed(c, c, u) && FileOf(c, m) in u.prjFiles && Lookup(c, d).Some? && d in u.prjModules
    ensures FileOf(c, d) in u.prjFiles
  {
    var f := PublishedIsDeclared(u, d);
    assert Followed(c, u, f);
    var y :| Follows(c, u, y, f);
    assert Declares(c, FileOf(c, y), d);
  }

  /** What a module of a project file needs has its file in the project as well. */
  lemma NeedsHaveFiles(c: Tables, m: Name, u: Tables, n: Name, d: Name)
    requires Coherent(c) && Coherent(u) && c == Cleared(u) && Lookup(c, m).Some? && Safe(c, m)
    requires AllFollowed(c, c, u) && FileOf(c, m) in u.prjFiles
    requires Lookup(c, n).Some? && FileOf(c, n) in u.prjFiles && Needs(c, n, d) && Lookup(c, d).Some?
    ensures FileOf(c, d) in u.prjFiles
  {
    assert Followed(c, u, FileOf(c, n));
    var x :| Follows(c, u, x, FileOf(c, n));
    if x == n {
      FollowedNeeds(c, m, u, d);
    }
  }

  lemma SafeIsExact(c: Tables, m: Name)
    requires Coherent(c) && c == Cleared(c) && Lookup(c, m).Some? && Safe(c, m)
    ensures Exact(c, m)
  {
    var u := Added(c, m);
    BuildIsSound(c, m);
    AddedFollows(c, m, c);
    RecordLists(c, m);
    forall n | Lookup(c, n).Some? && Reached(c, {m}, n) ensures FileOf(c, n) in u.prjFiles {
      SafeReaches(c, m, u, n);
    }
  }

  lemma SafeReaches(c: Tables, m: Name, u: Tables, n: Name)
    requires Coherent(c) && Coherent(u) && c == Cleared(u) && Lookup(c, m).Some? && Safe(c, m) && c.prjFiles == {}
    requires AllFollowed(c, c, u) && FileOf(c, m) in u.prjFiles && Lookup(c, n).Some? && Reached(c, {m}, n)
    ensures FileOf(c, n) in u.prjFiles
  {
    var done := set x | x in c.wsModules && Lookup(c, x).Some? && FileOf(c, x) in u.prjFiles;
    forall x, d | x in done && Needs(c, x, d) && Lookup(c, d).Some? ensures d in done {
      NeedsHaveFiles(c, m, u, x, d);
    }
    var k: nat :| Chain(c, {m}, n, k);
    ClosedHoldsChain(c, {m}, done, n, k);
  }

  // ---------------------------------------------------------- unsafe layouts

  /** The same files and modules, with other needs. */
  function WithNeeds(t: Tables, needs: map<Name, seq<Name>>): Tables {
    t.(storage := map b | b in t.storage ::
      BlackBox(t.storage[b].name, if t.storage[b].name in needs then needs[t.storage[b].name] else []))
  }

  function NeedsIn(needs: map<Name, seq<Name>>, n: Name): seq<Name> {
    if n in needs then needs[n] else []
  }

  lemma WithNeedsIs(c: Tables, needs: map<Name, seq<Name>>)
    requires Coherent(c)
    ensures var u := WithNeeds(c, needs); SameLayout(c, u) && Coherent(u) && (c == Cleared(c) ==> u == Cleared(u))
  {
    LayoutIsCoherent(c, WithNeeds(c, needs));
  }

  /** The module is found where it was, and needs what is said. */
  ghost predicate Same(c: Tables, u: Tables, n: Name, needs: seq<Name>)
    requires Coherent(c) && Coherent(u)
  {
    && Lookup(c, n).Some? && Lookup(u, n) == Lookup(c, n) && FileOf(u, n) == FileOf(c, n) && DepsOf(u, n) == needs
  }

  lemma NowNeeds(c: Tables, needs: map<Name, seq<Name>>, n: Name)
    requires Coherent(c) && Coherent(WithNeeds(c, needs)) && Lookup(c, n).Some?
    ensures Same(c, WithNeeds(c, needs), n, NeedsIn(needs, n))
  {
    LayoutLookups(c, WithNeeds(c, needs), n);
    LookupSound(c, n);
  }

  lemma NeededNext(c: Tables, m: Name, x: Name, y: Name)
    requires Coherent(c) && Reached(c, {m}, x) && Lookup(c, x).Some? && y in DepsOf(c, x)
    ensures Reached(c, {m}, y)
  {
    LookupSound(c, x);
    ReachedStep(c, {m}, x, y);
  }

  /** The tables once the root has been recorded, with a module that its file does not declare. */
  lemma RootIsRecorded(c: Tables, m: Name, x: Name) returns (v: Tables)
    requires Coherent(c) && c == Cleared(c) && Lookup(c, m).Some? && !Declares(c, FileOf(c, m), x)
    ensures Coherent(v) && c == Cleared(v) && v.prjFiles == {FileOf(c, m)} && Added(c, m) == AddedAll(v, DepsOf(c, m))
    ensures x !in v.prjModules
  {
    RecordLists(c, m);
    v := Recorded(c, FileOf(c, m), true);
    RecordPublishes(c, m, x);
  }

  /** Not every choice of needs is met. */
  ghost predicate MayLose(c: Tables, m: Name)
    requires Coherent(c)
  {
    exists u :: SameLayout(c, u) && Coherent(u) && !Exact(u, m)
  }

  lemma LostFile(u: Tables, m: Name, y: Name, k: Name)
    requires Coherent(u) && Lookup(u, y).Some? && Lookup(u, k).Some? && Reached(u, {m}, y) && DepsOf(u, y) == [k]
    requires FileOf(u, y) !in Added(u, m).prjFiles || FileOf(u, k) !in Added(u, m).prjFiles
    ensures !Exact(u, m)
  {
    NeededNext(u, m, y, k);
    assert FileReached(u, {m}, FileOf(u, y)) && FileReached(u, {m}, FileOf(u, k));
  }

  lemma RootStops(u: Tables, m: Name, y: Name, k: Name)
    requires Coherent(u) && u == Cleared(u) && Lookup(u, m).Some? && Lookup(u, y).Some? && Lookup(u, k).Some?
    requires DepsOf(u, m) == [y] && DepsOf(u, y) == [k] && Declares(u, FileOf(u, m), y)
    requires FileOf(u, y) != FileOf(u, m) || FileOf(u, k) != FileOf(u, m)
    ensures !Exact(u, m)
  {
    OwnFileStopsTheBuild(u, m);
    ReachedSeed(u, {m}, m);
    NeededNext(u, m, m, y);
    LostFile(u, m, y, k);
  }

  /** A module published with the root is not followed. */
  lemma RootLoses(c: Tables, m: Name, y: Name, k: Name)
    requires Coherent(c) && c == Cleared(c) && Lookup(c, m).Some? && Lookup(c, y).Some? && Lookup(c, k).Some?
    requires y != m && Declares(c, FileOf(c, m), y) && (FileOf(c, y) != FileOf(c, m) || FileOf(c, k) != FileOf(c, m))
    ensures MayLose(c, m)
  {
    var needs := map[m := [y], y := [k]];
    var u := WithNeeds(c, needs);
    WithNeedsIs(c, needs);
    NowNeeds(c, needs, m);
    NowNeeds(c, needs, y);
    NowNeeds(c, needs, k);
    LayoutDeclares(c, u, FileOf(c, m), y);
    RootStops(u, m, y, k);
  }

  lemma ChainStops(u: Tables, m: Name, x: Name, y: Name)
    requires Coherent(u) && u == Cleared(u) && Lookup(u, m).Some? && Lookup(u, x).Some? && Lookup(u, y).Some?
    requires DepsOf(u, m) == [x] && DepsOf(u, x) == [y] && !Declares(u, FileOf(u, m), x) && Declares(u, FileOf(u, x), y)
    requires !HereOrRoot(FileOf(u, y), FileOf(u, x), FileOf(u, m))
    ensures !Exact(u, m)
  {
    ChainBuilds(u, m, x, y);
    ReachedSeed(u, {m}, m);
    NeededNext(u, m, m, x);
    LostFile(u, m, x, y);
  }

  lemma ChainBuilds(u: Tables, m: Name, x: Name, y: Name)
    requires Coherent(u) && u == Cleared(u) && Lookup(u, m).Some? && Lookup(u, x).Some? && DepsOf(u, m) == [x] && DepsOf(u, x) == [y]
    requires !Declares(u, FileOf(u, m), x) && Declares(u, FileOf(u, x), y)
    ensures Added(u, m).prjFiles == {FileOf(u, m), FileOf(u, x)}
  {
    var v := RootIsRecorded(u, m, x);
    OneFollowed(u, v, x, y);
  }

  /** A module published with another one, but looked up elsewhere, is not followed. */
  lemma ChainLoses(c: Tables, m: Name, x: Name, y: Name)
    requires Coherent(c) && c == Cleared(c) && Lookup(c, m).Some? && Lookup(c, x).Some? && Lookup(c, y).Some?
    requires x != m && !Declares(c, FileOf(c, m), x) && Declares(c, FileOf(c, x), y)
    requires !HereOrRoot(FileOf(c, y), FileOf(c, x), FileOf(c, m))
    ensures MayLose(c, m)
  {
    var needs := map[m := [x], x := [y]];
    var u := WithNeeds(c, needs);
    WithNeedsIs(c, needs);
    NowNeeds(c, needs, m);
    NowNeeds(c, needs, x);
    NowNeeds(c, needs, y);
    LayoutDeclares(c, u, FileOf(c, m), x);
    LayoutDeclares(c, u, FileOf(c, x), y);
    ChainStops(u, m, x, y);
  }

  lemma OneAdded(v: Tables, x: Name, y: Name)
    requires Coherent(v) && x !in v.prjModules && Lookup(v, x).Some? && DepsOf(v, x) == [y] && Declares(v, FileOf(v, x), y)
    ensures AddedAll(v, [x]).prjFiles == v.prjFiles + {FileOf(v, x)}
  {
    OwnFileStopsTheBuild(v, x);
    assert AddedAll(v, [x]) == AddedAll(Added(v, x), [x][1..]) && [x][1..] == [];
  }

  lemma OneFollowed(c: Tables, v: Tables, x: Name, y: Name)
    requires Coherent(c) && Coherent(v) && c == Cleared(v) && x !in v.prjModules && Lookup(c, x).Some?
    requires DepsOf(c, x) == [y] && Declares(c, FileOf(c, x), y)
    ensures AddedAll(v, [x]).prjFiles == v.prjFiles + {FileOf(c, x)}
  {
    LookupCleared(v, x);
    OneAdded(v, x, y);
  }

  lemma PairStops(u: Tables, m: Name, x: Name, y: Name, k: Name)
    requires Coherent(u) && u == Cleared(u) && Lookup(u, m).Some? && Lookup(u, x).Some? && Lookup(u, y).Some? && Lookup(u, k).Some?
    requires DepsOf(u, m) == [x, y] && DepsOf(u, x) == [] && DepsOf(u, y) == [k]
    requires !Declares(u, FileOf(u, m), x) && FileOf(u, y) == FileOf(u, x)
    requires !HereOrRoot(FileOf(u, k), FileOf(u, x), FileOf(u, m))
    ensures !Exact(u, m)
  {
    PairBuilds(u, m, x, y);
    SecondIsReached(u, m, x, y);
    LostFile(u, m, y, k);
  }

  lemma SecondIsReached(u: Tables, m: Name, x: Name, y: Name)
    requires Coherent(u) && Lookup(u, m).Some? && DepsOf(u, m) == [x, y]
    ensures Reached(u, {m}, y)
  {
    ReachedSeed(u, {m}, m);
    NeededNext(u, m, m, y);
  }

  lemma PairBuilds(u: Tables, m: Name, x: Name, y: Name)
    requires Coherent(u) && u == Cleared(u) && Lookup(u, m).Some? && Lookup(u, x).Some? && Lookup(u, y).Some?
    requires DepsOf(u, m) == [x, y] && DepsOf(u, x) == [] && !Declares(u, FileOf(u, m), x) && FileOf(u, y) == FileOf(u, x)
    ensures Added(u, m).prjFiles == {FileOf(u, m), FileOf(u, x)}
  {
    var v := RootIsRecorded(u, m, x);
    FirstFollowed(u, v, x, y);
  }

  /** Of two modules that share a file the first one is followed, and the second one loses what it needs. */
  lemma PairLoses(c: Tables, m: Name, x: Name, y: Name, k: Name)
    requires Coherent(c) && c == Cleared(c) && Lookup(c, m).Some? && Lookup(c, x).Some? && Lookup(c, y).Some? && Lookup(c, k).Some?
    requires x != y && x != m && y != m && FileOf(c, x) == FileOf(c, y) && !Declares(c, FileOf(c, m), x)
    requires !HereOrRoot(FileOf(c, k), FileOf(c, x), FileOf(c, m))
    ensures MayLose(c, m)
  {
    var needs := map[m := [x, y], y := [k]];
    var u := WithNeeds(c, needs);
    WithNeedsIs(c, needs);
    NowNeeds(c, needs, m);
    NowNeeds(c, needs, x);
    NowNeeds(c, needs, y);
    NowNeeds(c, needs, k);
    LayoutDeclares(c, u, FileOf(c, m), x);
    PairStops(u, m, x, y, k);
  }

  lemma FirstFollowed(c: Tables, v: Tables, x: Name, y: Name)
    requires Coherent(c) && Coherent(v) && c == Cleared(v) && x !in v.prjModules && Lookup(c, x).Some?
    requires DepsOf(c, x) == [] && Lookup(c, y).Some? && FileOf(c, y) == FileOf(c, x)
    ensures AddedAll(v, [x, y]).prjFiles == v.prjFiles + {FileOf(c, x)}
  {
    LookupCleared(v, x);
    FoundIsDeclared(c, y);
    SecondIsSkipped(v, x, y);
  }

  lemma FoundIsDeclared(c: Tables, n: Name)
    requires Coherent(c) && Lookup(c, n).Some?
    ensures Declares(c, FileOf(c, n), n)
  {
    LookupSound(c, n);
    var b := Lookup(c, n).value;
    var i :| 0 <= i < |c.pathToBb[FileOf(c, n)]| && c.pathToBb[FileOf(c, n)][i] == b;
  }

  // ------------------------------------------------------------- the two sides

  lemma UnsafeDeclaration(c: Tables, m: Name, x: Name, y: Name)
    requires Coherent(c) && c == Cleared(c) && Lookup(c, m).Some? && Lookup(c, x).Some? && Lookup(c, y).Some?
    requires Declares(c, FileOf(c, x), y) && !HereOrRoot(FileOf(c, y), FileOf(c, x), FileOf(c, m))
    ensures MayLose(c, m)
  {
    if Declares(c, FileOf(c, m), y) {
      RootLoses(c, m, y, y);
    } else if Declares(c, FileOf(c, m), x) {
      RootLoses(c, m, x, x);
    } else {
      ChainLoses(c, m, x, y);
    }
  }

  lemma UnsafePair(c: Tables, m: Name, x: Name, y: Name, k: Name)
    requires Coherent(c) && c == Cleared(c) && Lookup(c, m).Some? && Lookup(c, x).Some? && Lookup(c, y).Some? && Lookup(c, k).Some?
    requires x != y && FileOf(c, x) == FileOf(c, y) && !HereOrRoot(FileOf(c, k), FileOf(c, x), FileOf(c, m))
    ensures MayLose(c, m)
  {
    FoundIsDeclared(c, x);
    FoundIsDeclared(c, y);
    if FileOf(c, x) == FileOf(c, m) {
      RootLoses(c, m, if x == m then y else x, k);
    } else if Declares(c, FileOf(c, m), x) {
      RootLoses(c, m, x, x);
    } else {
      PairLoses(c, m, x, y, k);
    }
  }

  /** Whatever the modules need, in whatever order, the build from the root finds exactly what is
      reached: this holds for a distribution of modules over files if and only if it is safe. */
  lemma LayoutIsSafeExactly(t: Tables, m: Name)
    requires Coherent(t) && Coherent(Cleared(t)) && Lookup(Cleared(t), m).Some?
    ensures (forall u :: SameLayout(Cleared(t), u) && Coherent(u) ==> Exact(u, m)) <==> Safe(Cleared(t), m)
  {
    var c := Cleared(t);
    if Safe(c, m) {
      forall u | SameLayout(c, u) && Coherent(u) ensures Exact(u, m) {
        SafetyIsOfLayout(c, u, m);
        SafeIsExact(u, m);
      }
    } else {
      UnsafeLoses(c, m);
    }
  }

  lemma UnsafeLoses(c: Tables, m: Name)
    requires Coherent(c) && c == Cleared(c) && Lookup(c, m).Some? && !Safe(c, m)
    ensures MayLose(c, m)
  {
    if x, y :| Lookup(c, x).Some? && Lookup(c, y).Some? && Declares(c, FileOf(c, x), y)
               && !HereOrRoot(FileOf(c, y), FileOf(c, x), FileOf(c, m)) {
      UnsafeDeclaration(c, m, x, y);
    } else {
      var x, y, k :| Lookup(c, x).Some? && Lookup(c, y).Some? && Lookup(c, k).Some? && x != y && FileOf(c, x) == FileOf(c, y)
                     && !HereOrRoot(FileOf(c, k), FileOf(c, x), FileOf(c, m));
      UnsafePair(c, m, x, y, k);
    }
  }

  lemma SafetyIsOfLayout(c: Tables, u: Tables, m: Name)
    requires Coherent(c) && Coherent(u) && SameLayout(c, u) && Lookup(c, m).Some? && Safe(c, m)
    ensures Lookup(u, m).Some? && Safe(u, m) && (c == Cleared(c) ==> u == Cleared(u))
  {
    forall n ensures Lookup(u, n) == Lookup(c, n) && (Lookup(c, n).Some? ==> FileOf(u, n) == FileOf(c, n)) {
      LayoutLookups(c, u, n);
    }
    forall f, n ensures Declares(u, f, n) <==> Declares(c, f, n) {
      LayoutDeclares(c, u, f, n);
    }
  }
}
