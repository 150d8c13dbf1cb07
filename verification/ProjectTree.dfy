/** The two graph algorithms over the cached blackboxes: the recursive one that builds the
    project, and the worklist that lists the files a module needs. */

/** Which modules a module needs, and which files that means. */
module Dependencies {
  import opened CacheModel

  /** n is reached from the seeds in k dependency steps through known modules. */
  ghost predicate Chain(t: Tables, seeds: set<Name>, n: Name, k: nat)
    requires Coherent(t)
    decreases k
  {
    if k == 0 then n in seeds
    else exists m :: Chain(t, seeds, m, k - 1) && Needs(t, m, n)
  }

  /** The blackbox found for m instantiates n. */
  ghost predicate Needs(t: Tables, m: Name, n: Name)
    requires Coherent(t)
  {
    Lookup(t, m).Some? && Lookup(t, m).value in t.storage && n in t.storage[Lookup(t, m).value].deps
  }

  ghost predicate Reached(t: Tables, seeds: set<Name>, n: Name)
    requires Coherent(t)
  {
    exists k: nat :: Chain(t, seeds, n, k)
  }

  /** The file in which the blackbox found for n is declared. */
  function FileOf(t: Tables, n: Name): Path
    requires Coherent(t) && Lookup(t, n).Some?
  {
    LookupSound(t, n);
    t.bbToPath[Lookup(t, n).value]
  }

  /** A module set holding the known seeds and the known needs of its members. */
  ghost predicate Closed(t: Tables, seeds: set<Name>, done: set<Name>)
    requires Coherent(t)
  {
    && (forall n :: n in seeds && Lookup(t, n).Some? ==> n in done)
    && (forall m, n :: m in done && Needs(t, m, n) && Lookup(t, n).Some? ==> n in done)
  }

  lemma {:induction false} ClosedHoldsChain(t: Tables, seeds: set<Name>, done: set<Name>, n: Name, k: nat)
    requires Coherent(t) && Closed(t, seeds, done)
    requires Chain(t, seeds, n, k) && Lookup(t, n).Some?
    ensures n in done
    decreases k
  {
    if k > 0 {
      var m :| Chain(t, seeds, m, k - 1) && Needs(t, m, n);
      ClosedHoldsChain(t, seeds, done, m, k - 1);
    }
  }

  /** A closed set of reached known modules is the set of all of them. */
  lemma ClosedIsReached(t: Tables, seeds: set<Name>, done: set<Name>)
    requires Coherent(t) && Closed(t, seeds, done)
    requires forall n :: n in done ==> Lookup(t, n).Some? && Reached(t, seeds, n)
    ensures forall n :: n in done <==> Lookup(t, n).Some? && Reached(t, seeds, n)
  {
    forall n | Lookup(t, n).Some? && Reached(t, seeds, n) ensures n in done {
      var k: nat :| Chain(t, seeds, n, k);
      ClosedHoldsChain(t, seeds, done, n, k);
    }
  }

  lemma ReachedStep(t: Tables, seeds: set<Name>, m: Name, n: Name)
    requires Coherent(t) && Reached(t, seeds, m) && Needs(t, m, n)
    ensures Reached(t, seeds, n)
  {
    var k: nat :| Chain(t, seeds, m, k);
    assert Chain(t, seeds, n, k + 1);
  }

  lemma ReachedSeed(t: Tables, seeds: set<Name>, n: Name)
    requires Coherent(t) && n in seeds
    ensures Reached(t, seeds, n)
  {
    assert Chain(t, seeds, n, 0);
  }
}

/** The worklist of the project tree request. */
module ProjectFileList {
  import opened CacheModel
  import opened DocumentCache
  import opened Dependencies

  type Uri = string

  function UriOf(p: Path): Uri {
    "file://" + p
  }

  function Elements<T>(s: seq<T>): set<T> {
    set x | x in s
  }

  /** Every module name the tables can answer for. */
  function Known(t: Tables): set<Name> {
    t.prjModules.Keys + t.wsModules.Keys
  }

  /** The files a blackbox needs: its own, and those of all known modules it reaches. */
  ghost predicate NeededFile(t: Tables, target: Ptr, u: Uri)
    requires Coherent(t) && target in t.storage
  {
    || u == UriOf(t.bbToPath[target])
    || exists n :: Lookup(t, n).Some? && Reached(t, Elements(t.storage[target].deps), n) && u == UriOf(FileOf(t, n))
  }

  /** The files of the processed modules, after the target's own. */
  ghost predicate Lists(t: Tables, target: Ptr, done: set<Name>, result: seq<Uri>)
    requires Coherent(t) && target in t.storage
    requires forall n :: n in done ==> Lookup(t, n).Some?
  {
    forall u :: u in result <==> u == UriOf(t.bbToPath[target]) || exists n :: n in done && u == UriOf(FileOf(t, n))
  }

  lemma ListsOneMore(t: Tables, target: Ptr, done: set<Name>, result: seq<Uri>, n: Name)
    requires Coherent(t) && target in t.storage && Lookup(t, n).Some?
    requires forall m :: m in done ==> Lookup(t, m).Some?
    requires Lists(t, target, done, result)
    ensures Lists(t, target, done + {n}, result + [UriOf(FileOf(t, n))])
  {
    var result' := result + [UriOf(FileOf(t, n))];
    forall u | u in result'
      ensures u == UriOf(t.bbToPath[target]) || exists m :: m in done + {n} && u == UriOf(FileOf(t, m))
    {
      if u in result && u != UriOf(t.bbToPath[target]) {
        var m :| m in done && u == UriOf(FileOf(t, m));
        assert m in done + {n};
      } else if u !in result {
        assert n in done + {n} && u == UriOf(FileOf(t, n));
      }
    }
  }

  /** The known and pending modules cover the seeds and the needs of the processed ones. */
  ghost predicate Covers(t: Tables, seeds: set<Name>, done: set<Name>, pending: set<Name>)
    requires Coherent(t)
  {
    && (forall n :: n in seeds && Lookup(t, n).Some? ==> n in done || n in pending)
    && (forall m, n :: m in done && Needs(t, m, n) && Lookup(t, n).Some? ==> n in done || n in pending)
    && (forall n :: n in pending ==> Reached(t, seeds, n))
    && (forall n :: n in done ==> Lookup(t, n).Some? && Reached(t, seeds, n))
  }

  lemma CoversOneMore(t: Tables, seeds: set<Name>, done: set<Name>, pending: set<Name>, n: Name)
    requires Coherent(t) && Covers(t, seeds, done, pending + {n}) && Lookup(t, n).Some?
    requires Lookup(t, n).value in t.storage
    ensures Covers(t, seeds, done + {n}, pending + Elements(t.storage[Lookup(t, n).value].deps))
  {
    forall d | d in t.storage[Lookup(t, n).value].deps ensures Reached(t, seeds, d) {
      ReachedStep(t, seeds, n, d);
    }
  }

  /** The files the given blackbox needs, however the pending set is emptied: the target's own and
      one entry for each known module it reaches. */
  method ProjectTreeFromModule(cache: DiplomatDocumentCache, target: Ptr)
      returns (result: seq<Uri>, ghost reached: set<Name>)
    requires Coherent(cache.Value()) && target in cache.storage
    ensures forall u :: u in result <==> NeededFile(cache.Value(), target, u)
    ensures forall n :: n in reached <==>
      (Lookup(cache.Value(), n).Some? && Reached(cache.Value(), Elements(cache.storage[target].deps), n))
    ensures |result| == 1 + |reached|
  {
    ghost var t := cache.Value();
    var seeds := Elements(cache.storage[target].deps);
    var processed: set<Name> := {};
    var toProcess := seeds;
    forall n | n in seeds ensures Reached(t, seeds, n) {
      ReachedSeed(t, seeds, n);
    }
    result := [UriOf(cache.bbToPath[target])];
    while toProcess != {}
      invariant Covers(t, seeds, processed, toProcess)
      invariant Lists(t, target, processed, result)
      invariant |result| == 1 + |processed|
      invariant processed <= Known(t)
      decreases Known(t) - processed, toProcess
    {
      var name :| name in toProcess;
      assert toProcess == (toProcess - {name}) + {name};
      toProcess := toProcess - {name};
      if name !in processed {
        var bb := cache.GetBbByModule(name);
        if bb.Some? {
          LookupSound(t, name);
          ListsOneMore(t, target, processed, result, name);
          CoversOneMore(t, seeds, processed, toProcess, name);
          result := result + [UriOf(cache.bbToPath[bb.value])];
          toProcess := toProcess + Elements(cache.storage[bb.value].deps);
          processed := processed + {name};
        }
      }
    }
    ClosedIsReached(t, seeds, processed);
    reached := processed;
  }
}

/** The recursive construction of the project. */
module ProjectBuild {
  import opened Wrappers
  import opened CacheModel
  import opened DocumentCache
  import opened Dependencies
  import opened ProjectFileList

  /** Only the project tables grow. */
  ghost predicate Grows(t: Tables, u: Tables) {
    && u == t.(prjFiles := u.prjFiles, prjModules := u.prjModules)
    && t.prjFiles <= u.prjFiles
    && t.prjModules.Keys <= u.prjModules.Keys
  }

  /** Module names of the cache that the project does not have yet. */
  function Unlisted(t: Tables): set<Name> {
    t.wsModules.Keys - t.prjModules.Keys
  }

  lemma GrowthUnlists(t: Tables, u: Tables)
    requires Grows(t, u)
    ensures Unlisted(u) < Unlisted(t) || Unlisted(u) == Unlisted(t)
  {
    assert Unlisted(u) <= Unlisted(t);
  }

  function DepsOf(t: Tables, m: Name): seq<Name>
    requires Coherent(t) && Lookup(t, m).Some?
  {
    LookupSound(t, m);
    t.storage[Lookup(t, m).value].deps
  }

  lemma RecordLists(t: Tables, m: Name)
    requires Coherent(t) && Lookup(t, m).Some?
    ensures FileOf(t, m) in t.wsFiles
    ensures var u := Recorded(t, FileOf(t, m), true);
      && Coherent(u) && Grows(t, u) && m in u.prjModules
      && (Unlisted(u) < Unlisted(t) || (m in t.prjModules && Unlisted(u) == Unlisted(t)))
      && FileOf(t, m) in u.prjFiles
  {
    LookupSound(t, m);
    var p, b := FileOf(t, m), Lookup(t, m).value;
    RecordKeepsCoherenceExactly(t, p, true);
    PublishedKeys(t, t.pathToBb[p]);
    assert b in t.pathToBb[p];
    assert m in Unlisted(t) || m in t.prjModules;
    assert Unlisted(Recorded(t, p, true)) <= Unlisted(t);
  }

  /** The tables after a module and, recursively, what it needs have been added to the project. */
  ghost function Added(t: Tables, m: Name): (u: Tables)
    requires Coherent(t)
    ensures Coherent(u) && Grows(t, u)
    decreases Unlisted(t), if m in t.prjModules then 2 else 0, 0
  {
    if Lookup(t, m).None? then t
    else
      RecordLists(t, m);
      AddedAll(Recorded(t, FileOf(t, m), true), DepsOf(t, m))
  }

  ghost function AddedAll(t: Tables, deps: seq<Name>): (u: Tables)
    requires Coherent(t)
    ensures Coherent(u) && Grows(t, u)
    decreases Unlisted(t), 1, |deps|
  {
    if deps == [] then t
    else
      var v := if deps[0] in t.prjModules then t else Added(t, deps[0]);
      GrowthUnlists(t, v);
      AddedAll(v, deps[1..])
  }

  // -------------------------------------------------------------- soundness

  /** The file holds a known module reached from the seeds. */
  ghost predicate FileReached(c: Tables, seeds: set<Name>, f: Path)
    requires Coherent(c)
  {
    exists n :: Lookup(c, n).Some? && Reached(c, seeds, n) && f == FileOf(c, n)
  }

  ghost predicate OnlyReachedAdded(t: Tables, u: Tables, c: Tables, seeds: set<Name>)
    requires Coherent(c)
  {
    forall f :: f in u.prjFiles ==> f in t.prjFiles || FileReached(c, seeds, f)
  }

  lemma ClearedIsCoherent(t: Tables)
    requires Coherent(t)
    ensures Coherent(Cleared(t))
  {
  }

  /** A module not yet in the project is found as in the cleared tables. */
  lemma LookupCleared(t: Tables, m: Name)
    requires Coherent(t) && m !in t.prjModules
    ensures Coherent(Cleared(t)) && Lookup(Cleared(t), m) == Lookup(t, m)
    ensures Lookup(t, m).Some? ==> FileOf(Cleared(t), m) == FileOf(t, m)
  {
    ClearedIsCoherent(t);
  }

  lemma {:induction false} AddedSound(t: Tables, m: Name, c: Tables, seeds: set<Name>)
    requires Coherent(t) && Coherent(c) && c == Cleared(t)
    requires m !in t.prjModules ==> Reached(c, seeds, m)
    requires Lookup(t, m).Some? ==> forall d :: d in DepsOf(t, m) ==> Reached(c, seeds, d)
    ensures OnlyReachedAdded(t, Added(t, m), c, seeds)
    decreases Unlisted(t), if m in t.prjModules then 2 else 0, 0
  {
    if Lookup(t, m).Some? {
      var r := Recorded(t, FileOf(t, m), true);
      RecordAddsReached(t, m, c, seeds);
      AddedAllSound(r, DepsOf(t, m), c, seeds);
      OnlyReachedTransitive(t, r, Added(t, m), c, seeds);
    }
  }

  lemma OnlyReachedTransitive(t: Tables, r: Tables, u: Tables, c: Tables, seeds: set<Name>)
    requires Coherent(c) && OnlyReachedAdded(t, r, c, seeds) && OnlyReachedAdded(r, u, c, seeds)
    ensures OnlyReachedAdded(t, u, c, seeds)
  {
  }

  lemma RecordAddsReached(t: Tables, m: Name, c: Tables, seeds: set<Name>)
    requires Coherent(t) && Coherent(c) && c == Cleared(t) && Lookup(t, m).Some?
    requires m !in t.prjModules ==> Reached(c, seeds, m)
    ensures FileOf(t, m) in t.wsFiles
    ensures var r := Recorded(t, FileOf(t, m), true);
      && Coherent(r) && c == Cleared(r) && OnlyReachedAdded(t, r, c, seeds)
      && (Unlisted(r) < Unlisted(t) || (m in t.prjModules && Unlisted(r) == Unlisted(t)))
      && Added(t, m) == AddedAll(r, DepsOf(t, m))
  {
    RecordLists(t, m);
    RecordedIsReached(t, m, c, seeds);
  }

  lemma RecordedIsReached(t: Tables, m: Name, c: Tables, seeds: set<Name>)
    requires Coherent(t) && Coherent(c) && c == Cleared(t) && Lookup(t, m).Some?
    requires m !in t.prjModules ==> Reached(c, seeds, m)
    requires FileOf(t, m) in t.wsFiles
    ensures OnlyReachedAdded(t, Recorded(t, FileOf(t, m), true), c, seeds)
  {
    LookupSound(t, m);
    if m !in t.prjModules {
      LookupCleared(t, m);
      assert FileReached(c, seeds, FileOf(c, m));
    }
  }

  lemma {:induction false} AddedAllSound(t: Tables, deps: seq<Name>, c: Tables, seeds: set<Name>)
    requires Coherent(t) && Coherent(c) && c == Cleared(t)
    requires forall d :: d in deps ==> Reached(c, seeds, d)
    ensures OnlyReachedAdded(t, AddedAll(t, deps), c, seeds)
    decreases Unlisted(t), 1, |deps|
  {
    if deps != [] {
      var d := deps[0];
      assert d in deps;
      var v := if d in t.prjModules then t else Added(t, d);
      GrowthUnlists(t, v);
      if d !in t.prjModules {
        NeedsAreReached(t, d, c, seeds);
        AddedSound(t, d, c, seeds);
      }
      AddedAllSound(v, deps[1..], c, seeds);
      OnlyReachedTransitive(t, v, AddedAll(v, deps[1..]), c, seeds);
    }
  }

  lemma NeedsAreReached(t: Tables, m: Name, c: Tables, seeds: set<Name>)
    requires Coherent(t) && Coherent(c) && c == Cleared(t) && m !in t.prjModules && Reached(c, seeds, m)
    ensures Lookup(t, m).Some? ==> forall d :: d in DepsOf(t, m) ==> Reached(c, seeds, d) && Needs(c, m, d)
  {
    LookupSound(t, m);
    LookupCleared(t, m);
    if Lookup(t, m).Some? {
      forall d | d in DepsOf(t, m) ensures Reached(c, seeds, d) && Needs(c, m, d) {
        ReachedStep(c, seeds, m, d);
      }
    }
  }

  // ----------------------------------------------------------- completeness

  /** No reached module shares its file with another reached module. */
  ghost predicate Unshadowed(c: Tables, seeds: set<Name>)
    requires Coherent(c)
  {
    forall m, n :: Lookup(c, m).Some? && Reached(c, seeds, m) && Reached(c, seeds, n) && Declares(c, FileOf(c, m), n) ==> n == m
  }

  /** What a reached module declared next to another one needs is there too, or needed by the other one:
      following either of them is enough. */
  ghost predicate Subsumed(c: Tables, seeds: set<Name>)
    requires Coherent(c)
  {
    forall m, n :: Lookup(c, m).Some? && Reached(c, seeds, m) && Reached(c, seeds, n) && Declares(c, FileOf(c, m), n) ==> Shares(c, m, n)
  }

  ghost predicate Shares(c: Tables, m: Name, n: Name)
    requires Coherent(c) && Lookup(c, m).Some?
  {
    && Lookup(c, n).Some? && FileOf(c, n) == FileOf(c, m)
    && forall d :: Needs(c, n, d) && Lookup(c, d).Some? ==> Needs(c, m, d) || Declares(c, FileOf(c, m), d)
  }

  lemma UnshadowedIsSubsumed(c: Tables, seeds: set<Name>)
    requires Coherent(c) && Unshadowed(c, seeds)
    ensures Subsumed(c, seeds)
  {
  }

  ghost predicate Declares(t: Tables, p: Path, n: Name) {
    p in t.pathToBb && exists i :: 0 <= i < |t.pathToBb[p]| && t.pathToBb[p][i] in t.storage && t.storage[t.pathToBb[p][i]].name == n
  }

  /** The module's file is in the project, and so are the names it needs. */
  ghost predicate Settled(c: Tables, u: Tables, n: Name)
    requires Coherent(c)
  {
    && Lookup(c, n).Some? && FileOf(c, n) in u.prjFiles
    && forall d :: Needs(c, n, d) && Lookup(c, d).Some? ==> d in u.prjModules
  }

  ghost predicate NewSettled(c: Tables, seeds: set<Name>, t: Tables, u: Tables)
    requires Coherent(c)
  {
    forall n :: n in u.prjModules && n !in t.prjModules && Reached(c, seeds, n) ==> Settled(c, u, n)
  }

  lemma NeedsAreDeps(t: Tables, m: Name, c: Tables)
    requires Coherent(t) && Coherent(c) && c == Cleared(t) && m !in t.prjModules && Lookup(t, m).Some?
    ensures forall d :: Needs(c, m, d) ==> d in DepsOf(t, m)
  {
    LookupSound(t, m);
    LookupCleared(t, m);
  }

  lemma {:induction false} AddedComplete(t: Tables, m: Name, c: Tables, seeds: set<Name>)
    requires Coherent(t) && Coherent(c) && c == Cleared(t) && Subsumed(c, seeds)
    requires m !in t.prjModules && Reached(c, seeds, m)
    ensures Lookup(c, m).Some? ==> m in Added(t, m).prjModules
    ensures NewSettled(c, seeds, t, Added(t, m))
    decreases Unlisted(t), 0, 0
  {
    LookupCleared(t, m);
    if Lookup(t, m).Some? {
      RecordLists(t, m);
      NeedsAreReached(t, m, c, seeds);
      var r, deps := Recorded(t, FileOf(t, m), true), DepsOf(t, m);
      var u := AddedAll(r, deps);
      AddedAllComplete(r, deps, c, seeds);
      NeedsAreDeps(t, m, c);
      forall n | n in u.prjModules && n !in t.prjModules && Reached(c, seeds, n)
        ensures Settled(c, u, n)
      {
        if n in r.prjModules {
          PublishedIsSettled(t, m, n, u, c, seeds);
        }
      }
    }
  }

  lemma RecordPublishes(t: Tables, m: Name, n: Name)
    requires Coherent(t) && Lookup(t, m).Some?
    ensures FileOf(t, m) in t.wsFiles
    ensures n in Recorded(t, FileOf(t, m), true).prjModules <==> n in t.prjModules || Declares(t, FileOf(t, m), n)
  {
    RecordLists(t, m);
    PublishedKeys(t, t.pathToBb[FileOf(t, m)]);
  }

  /** A module published with the one that was needed is settled once the needs of that one are. */
  lemma PublishedIsSettled(t: Tables, m: Name, n: Name, u: Tables, c: Tables, seeds: set<Name>)
    requires Coherent(t) && Coherent(c) && c == Cleared(t) && Subsumed(c, seeds)
    requires m !in t.prjModules && Lookup(t, m).Some? && Lookup(c, m).Some? && FileOf(c, m) == FileOf(t, m)
    requires Reached(c, seeds, m) && Reached(c, seeds, n) && n !in t.prjModules
    requires FileOf(t, m) in t.wsFiles && n in Recorded(t, FileOf(t, m), true).prjModules
    requires Grows(Recorded(t, FileOf(t, m), true), u)
    requires forall d :: Needs(c, m, d) && Lookup(c, d).Some? ==> d in u.prjModules
    ensures Settled(c, u, n)
  {
    RecordPublishes(t, m, n);
    assert Declares(c, FileOf(c, m), n) && Shares(c, m, n);
    RecordLists(t, m);
    forall d | Needs(c, n, d) && Lookup(c, d).Some? ensures d in u.prjModules {
      if Declares(c, FileOf(c, m), d) {
        RecordPublishes(t, m, d);
      }
    }
  }

  lemma {:induction false} AddedAllComplete(t: Tables, deps: seq<Name>, c: Tables, seeds: set<Name>)
    requires Coherent(t) && Coherent(c) && c == Cleared(t) && Subsumed(c, seeds)
    requires forall d :: d in deps ==> Reached(c, seeds, d)
    ensures forall d :: d in deps && Lookup(c, d).Some? ==> d in AddedAll(t, deps).prjModules
    ensures NewSettled(c, seeds, t, AddedAll(t, deps))
    decreases Unlisted(t), 1, |deps|
  {
    if deps != [] {
      var d := deps[0];
      assert d in deps;
      var v := if d in t.prjModules then t else Added(t, d);
      GrowthUnlists(t, v);
      if d !in t.prjModules {
        AddedComplete(t, d, c, seeds);
      }
      AddedAllComplete(v, deps[1..], c, seeds);
      NewSettledTransitive(c, seeds, t, v, AddedAll(v, deps[1..]));
    }
  }

  lemma NewSettledTransitive(c: Tables, seeds: set<Name>, t: Tables, v: Tables, u: Tables)
    requires Coherent(c) && NewSettled(c, seeds, t, v) && NewSettled(c, seeds, v, u) && Grows(v, u)
    ensures NewSettled(c, seeds, t, u)
  {
    forall n | n in u.prjModules && n !in t.prjModules && Reached(c, seeds, n)
      ensures Settled(c, u, n)
    {
      if n in v.prjModules {
        assert Settled(c, v, n);
      }
    }
  }

  /** Building from a cleared project, when following one module of a file is enough for the others
      reached there: the project files are exactly the files of the known modules reached from the
      root. */
  lemma BuildIsExact(t: Tables, m: Name)
    requires Coherent(t) && Coherent(Cleared(t)) && Subsumed(Cleared(t), {m})
    ensures forall f :: f in Added(Cleared(t), m).prjFiles <==> FileReached(Cleared(t), {m}, f)
  {
    var c := Cleared(t);
    BuildIsSound(t, m);
    forall n | Lookup(c, n).Some? && Reached(c, {m}, n) ensures FileOf(c, n) in Added(c, m).prjFiles {
      BuildAddsReached(t, m, n);
    }
  }

  lemma BuildAddsReached(t: Tables, m: Name, n: Name)
    requires Coherent(t) && Coherent(Cleared(t)) && Subsumed(Cleared(t), {m})
    requires Lookup(Cleared(t), n).Some? && Reached(Cleared(t), {m}, n)
    ensures FileOf(Cleared(t), n) in Added(Cleared(t), m).prjFiles
  {
    var c := Cleared(t);
    ReachedSeed(c, {m}, m);
    AddedComplete(c, m, c, {m});
    var k: nat :| Chain(c, {m}, n, k);
    SettledHoldsChain(c, m, Added(c, m), n, k);
    assert Settled(c, Added(c, m), n);
  }

  /** Starting from the root, settled modules lead to every known module. */
  lemma SettledHoldsChain(c: Tables, m: Name, u: Tables, n: Name, k: nat)
    requires Coherent(c) && c.prjModules == map[] && NewSettled(c, {m}, c, u)
    requires Lookup(c, m).Some? ==> m in u.prjModules
    requires Chain(c, {m}, n, k) && Lookup(c, n).Some?
    ensures n in u.prjModules
  {
    var done := set x | x in u.prjModules && Reached(c, {m}, x);
    ReachedSeed(c, {m}, m);
    forall a, b | a in done && Needs(c, a, b) && Lookup(c, b).Some? ensures b in done {
      assert Settled(c, u, a);
      ReachedStep(c, {m}, a, b);
    }
    ClosedHoldsChain(c, {m}, done, n, k);
  }

  /** Whatever shares files, nothing but files of reached modules is ever added. */
  lemma BuildIsSound(t: Tables, m: Name)
    requires Coherent(t) && Coherent(Cleared(t))
    ensures forall f :: f in Added(Cleared(t), m).prjFiles ==> FileReached(Cleared(t), {m}, f)
  {
    var c := Cleared(t);
    ReachedSeed(c, {m}, m);
    NeedsAreReached(c, m, c, {m});
    AddedSound(c, m, c, {m});
  }

  lemma OneModulePerFileIsUnshadowed(c: Tables, seeds: set<Name>)
    requires Coherent(c)
    requires forall p :: p in c.pathToBb ==> |c.pathToBb[p]| <= 1
    ensures Unshadowed(c, seeds)
  {
    forall m, n | Lookup(c, m).Some? && Reached(c, seeds, m) && Reached(c, seeds, n) && Declares(c, FileOf(c, m), n)
      ensures n == m
    {
      LookupSound(c, m);
      assert Lookup(c, m).value in c.pathToBb[FileOf(c, m)];
    }
  }

  // ---------------------------------------------- where completeness fails

  /** When all that a module needs is declared in its own file, the build stops there, whatever
      those modules need themselves: recording the file has already published them. */
  lemma OwnFileStopsTheBuild(t: Tables, m: Name)
    requires Coherent(t) && Lookup(t, m).Some?
    requires forall d :: d in DepsOf(t, m) ==> Declares(t, FileOf(t, m), d)
    ensures Added(t, m).prjFiles == t.prjFiles + {FileOf(t, m)}
  {
    RecordLists(t, m);
    var p := FileOf(t, m);
    PublishedKeys(t, t.pathToBb[p]);
    forall d | d in DepsOf(t, m) ensures d in Recorded(t, p, true).prjModules {
      assert Declares(t, p, d);
    }
    NothingToAdd(Recorded(t, p, true), DepsOf(t, m));
  }

  lemma {:induction false} NothingToAdd(t: Tables, deps: seq<Name>)
    requires Coherent(t) && forall d :: d in deps ==> d in t.prjModules
    ensures AddedAll(t, deps) == t
  {
    if deps != [] {
      assert deps[0] in deps;
      NothingToAdd(t, deps[1..]);
    }
  }

  /** Modules a and bb share a file; only bb needs ccc. */
  const SHARED := Tables(
    map[1 := BlackBox("a", ["bb"]), 2 := BlackBox("bb", ["ccc"]), 3 := BlackBox("ccc", [])],
    {}, {"ab.sv", "ccc.sv"}, map["ab.sv" := 0, "ccc.sv" := 0],
    map["ab.sv" := [1, 2], "ccc.sv" := [3]], map[1 := "ab.sv", 2 := "ab.sv", 3 := "ccc.sv"],
    map[], map["a" := {1}, "bb" := {2}, "ccc" := {3}])

  lemma SharedLookups()
    requires Coherent(SHARED)
    ensures Lookup(SHARED, "a") == Some(1) && Lookup(SHARED, "bb") == Some(2) && Lookup(SHARED, "ccc") == Some(3)
  {
  }

  lemma SharedReaches()
    requires Coherent(SHARED)
    requires Lookup(SHARED, "a") == Some(1) && Lookup(SHARED, "bb") == Some(2) && Lookup(SHARED, "ccc") == Some(3)
    ensures FileReached(SHARED, {"a"}, "ccc.sv")
  {
    ReachedSeed(SHARED, {"a"}, "a");
    ReachedStep(SHARED, {"a"}, "a", "bb");
    ReachedStep(SHARED, {"a"}, "bb", "ccc");
    assert FileOf(SHARED, "ccc") == "ccc.sv";
  }

  /** The file of ccc is reached from a, and never added. */
  lemma SharedFileLosesModule()
    ensures Coherent(SHARED) && FileReached(SHARED, {"a"}, "ccc.sv")
    ensures "ccc.sv" !in Added(SHARED, "a").prjFiles
  {
    SharedIsCoherent();
    SharedLookups();
    SharedReaches();
    SharedStops();
  }

  lemma SharedInverse()
    ensures FilesAgree(SHARED) && Inverse(SHARED)
  {
    assert SHARED.pathToBb["ab.sv"][0] == 1 && SHARED.pathToBb["ab.sv"][1] == 2 && SHARED.pathToBb["ccc.sv"][0] == 3;
  }

  lemma SharedFiled()
    ensures WorkspaceFiled(SHARED)
  {
  }

  lemma SharedNames()
    requires Inverse(SHARED)
    ensures NamesDistinct(SHARED) && ProjectFiled(SHARED)
  {
    assert |SHARED.storage[1].name| == 1 && |SHARED.storage[2].name| == 2;
  }

  lemma SharedIsCoherent()
    ensures Coherent(SHARED)
  {
    SharedInverse();
    SharedFiled();
    SharedNames();
  }

  lemma SharedStops()
    requires Coherent(SHARED) && Lookup(SHARED, "a") == Some(1)
    ensures "ccc.sv" !in Added(SHARED, "a").prjFiles
  {
    assert SHARED.pathToBb["ab.sv"][1] == 2;
    OwnFileStopsTheBuild(SHARED, "a");
  }

  // ------------------------------------------ the order of one list decides

  /** Modules aa and bbb share a file; the root needs both, in some order; only bbb needs cccc. */
  function Ordered(deps: seq<Name>): Tables {
    Tables(
      map[1 := BlackBox("r", deps), 2 := BlackBox("aa", []), 3 := BlackBox("bbb", ["cccc"]), 4 := BlackBox("cccc", [])],
      {}, {"r.sv", "ab.sv", "c.sv"}, map["r.sv" := 0, "ab.sv" := 0, "c.sv" := 0],
      map["r.sv" := [1], "ab.sv" := [2, 3], "c.sv" := [4]], map[1 := "r.sv", 2 := "ab.sv", 3 := "ab.sv", 4 := "c.sv"],
      map[], map["r" := {1}, "aa" := {2}, "bbb" := {3}, "cccc" := {4}])
  }

  lemma OrderedInverse(deps: seq<Name>)
    ensures FilesAgree(Ordered(deps)) && Inverse(Ordered(deps))
  {
    var t := Ordered(deps);
    assert t.pathToBb["r.sv"][0] == 1 && t.pathToBb["c.sv"][0] == 4;
    assert t.pathToBb["ab.sv"][0] == 2 && t.pathToBb["ab.sv"][1] == 3;
  }

  lemma OrderedNames(deps: seq<Name>)
    requires Inverse(Ordered(deps))
    ensures NamesDistinct(Ordered(deps)) && ProjectFiled(Ordered(deps))
  {
    var t := Ordered(deps);
    assert |t.storage[2].name| == 2 && |t.storage[3].name| == 3;
  }

  lemma OrderedFiled(deps: seq<Name>)
    ensures WorkspaceFiled(Ordered(deps))
  {
  }

  lemma OrderedIsCoherent(deps: seq<Name>)
    ensures Coherent(Ordered(deps)) && Cleared(Ordered(deps)) == Ordered(deps)
  {
    OrderedInverse(deps);
    OrderedNames(deps);
    OrderedFiled(deps);
  }

  lemma OrderedLookups(deps: seq<Name>)
    requires Coherent(Ordered(deps))
    ensures var t := Ordered(deps);
      && Lookup(t, "r") == Some(1) && Lookup(t, "aa") == Some(2) && Lookup(t, "bbb") == Some(3) && Lookup(t, "cccc") == Some(4)
      && FileOf(t, "r") == "r.sv" && FileOf(t, "aa") == "ab.sv" && FileOf(t, "bbb") == "ab.sv" && FileOf(t, "cccc") == "c.sv"
  {
  }

  lemma OrderedDeclares(deps: seq<Name>)
    ensures var t := Ordered(deps);
      && (forall n :: Declares(t, "r.sv", n) <==> n == "r")
      && (forall n :: Declares(t, "ab.sv", n) <==> n == "aa" || n == "bbb")
      && (forall n :: Declares(t, "c.sv", n) <==> n == "cccc")
  {
    var t := Ordered(deps);
    assert t.pathToBb["r.sv"][0] == 1 && t.pathToBb["c.sv"][0] == 4;
    assert t.pathToBb["ab.sv"][0] == 2 && t.pathToBb["ab.sv"][1] == 3;
  }

  /** The tables once the root has been recorded. */
  lemma RootRecorded(deps: seq<Name>) returns (t: Tables)
    ensures Coherent(Ordered(deps)) && Coherent(t) && Cleared(t) == Ordered(deps)
    ensures t.prjFiles == {"r.sv"} && (forall n :: n in t.prjModules <==> n == "r")
    ensures Added(Ordered(deps), "r") == AddedAll(t, deps)
  {
    var c := Ordered(deps);
    OrderedIsCoherent(deps);
    OrderedLookups(deps);
    OrderedDeclares(deps);
    RecordLists(c, "r");
    RecordPublishes(c, "r", "r");
    t := Recorded(c, "r.sv", true);
    forall n ensures n in t.prjModules <==> n == "r" {
      RecordPublishes(c, "r", n);
    }
  }

  /** A module without needs comes first, and publishes the second one with its file. */
  lemma SecondIsSkipped(t: Tables, a: Name, b: Name)
    requires Coherent(t) && a !in t.prjModules && Lookup(t, a).Some? && DepsOf(t, a) == [] && Declares(t, FileOf(t, a), b)
    ensures AddedAll(t, [a, b]).prjFiles == t.prjFiles + {FileOf(t, a)}
  {
    OwnFileStopsTheBuild(t, a);
    RecordLists(t, a);
    RecordPublishes(t, a, b);
    var u := Added(t, a);
    assert u == AddedAll(Recorded(t, FileOf(t, a), true), []);
    assert [a, b][1..] == [b] && [b][0] == b;
    NothingToAdd(u, [b]);
  }

  lemma OneNeed(t: Tables, b: Name, d: Name)
    requires Coherent(t) && Lookup(t, b).Some? && DepsOf(t, b) == [d]
    requires d !in t.prjModules && !Declares(t, FileOf(t, b), d)
    ensures FileOf(t, b) in t.wsFiles
    ensures var u := Recorded(t, FileOf(t, b), true);
      Coherent(u) && Grows(t, u) && FileOf(t, b) in u.prjFiles && d !in u.prjModules && Added(t, b) == Added(u, d)
  {
    RecordLists(t, b);
    RecordPublishes(t, b, d);
    var u := Recorded(t, FileOf(t, b), true);
    assert [d][1..] == [] && AddedAll(u, [d]) == AddedAll(Added(u, d), []);
  }

  /** A need not listed yet is looked up where it was before the file was recorded. */
  lemma NeedIsFollowed(t: Tables, u: Tables, d: Name)
    requires Coherent(t) && Coherent(u) && Grows(t, u) && d !in u.prjModules && Lookup(t, d).Some?
    ensures Lookup(u, d).Some? && FileOf(u, d) == FileOf(t, d) && FileOf(t, d) in Added(u, d).prjFiles
  {
    LookupCleared(t, d);
    LookupCleared(u, d);
    assert Cleared(u) == Cleared(t);
    RecordLists(u, d);
  }

  /** The module with a need comes first, and the need is followed. */
  lemma SecondIsFollowed(t: Tables, b: Name, a: Name, d: Name)
    requires Coherent(t) && b !in t.prjModules && Lookup(t, b).Some? && DepsOf(t, b) == [d]
    requires d !in t.prjModules && Lookup(t, d).Some? && !Declares(t, FileOf(t, b), d)
    ensures t.prjFiles + {FileOf(t, b), FileOf(t, d)} <= AddedAll(t, [b, a]).prjFiles
  {
    OneNeed(t, b, d);
    var u := Recorded(t, FileOf(t, b), true);
    NeedIsFollowed(t, u, d);
    assert AddedAll(t, [b, a]) == AddedAll(Added(u, d), [b, a][1..]);
  }

  /** The root recorded, its two needs in one file, and a need of the second of them in another. */
  ghost predicate RootOnly(t: Tables) {
    && Coherent(t) && t.prjFiles == {"r.sv"}
    && "aa" !in t.prjModules && "bbb" !in t.prjModules && "cccc" !in t.prjModules
    && Lookup(t, "aa").Some? && Lookup(t, "bbb").Some? && Lookup(t, "cccc").Some?
    && FileOf(t, "aa") == "ab.sv" && FileOf(t, "bbb") == "ab.sv" && FileOf(t, "cccc") == "c.sv"
    && DepsOf(t, "aa") == [] && DepsOf(t, "bbb") == ["cccc"]
    && Declares(t, "ab.sv", "bbb") && !Declares(t, "ab.sv", "cccc")
  }

  lemma RootFacts(deps: seq<Name>, t: Tables)
    requires Coherent(Ordered(deps)) && Coherent(t) && Cleared(t) == Ordered(deps) && t.prjFiles == {"r.sv"}
    requires forall n :: n in t.prjModules <==> n == "r"
    ensures RootOnly(t)
  {
    OrderedLookups(deps);
    OrderedDeclares(deps);
    LookupCleared(t, "aa");
    LookupCleared(t, "bbb");
    LookupCleared(t, "cccc");
    assert forall p, n :: Declares(t, p, n) <==> Declares(Cleared(t), p, n);
  }

  /** The files that a build from r adds. */
  ghost function Built(t: Tables): set<Path>
    requires Coherent(t)
  {
    Added(t, "r").prjFiles
  }

  lemma BuiltFromRoot(deps: seq<Name>) returns (t: Tables)
    ensures Coherent(Ordered(deps)) && RootOnly(t) && Built(Ordered(deps)) == AddedAll(t, deps).prjFiles
  {
    t := RootRecorded(deps);
    RootFacts(deps, t);
  }

  lemma FirstOrder(t: Tables)
    requires RootOnly(t)
    ensures AddedAll(t, ["aa", "bbb"]).prjFiles == {"r.sv", "ab.sv"}
  {
    SecondIsSkipped(t, "aa", "bbb");
  }

  lemma OtherOrder(t: Tables)
    requires RootOnly(t)
    ensures {"r.sv", "ab.sv", "c.sv"} <= AddedAll(t, ["bbb", "aa"]).prjFiles
  {
    SecondIsFollowed(t, "bbb", "aa", "cccc");
  }

  /** The same modules need the same. */
  ghost predicate SameGraph(s: Tables, t: Tables)
    requires Coherent(s) && Coherent(t)
  {
    forall m, n :: Needs(s, m, n) <==> Needs(t, m, n)
  }

  ghost predicate Complete(t: Tables)
    requires Coherent(t)
  {
    forall f :: f in Built(t) <==> FileReached(t, {"r"}, f)
  }

  /** No condition on the dependency graph alone decides whether the build is complete: two caches that
      differ in the order of one list of dependencies, of which the source iterates a hash set, give
      the same modules the same needs; from one the build is complete, from the other it is not. */
  lemma OrderDecides()
    ensures Coherent(Ordered(["aa", "bbb"])) && Coherent(Ordered(["bbb", "aa"]))
    ensures SameGraph(Ordered(["aa", "bbb"]), Ordered(["bbb", "aa"]))
    ensures !Complete(Ordered(["aa", "bbb"])) && Complete(Ordered(["bbb", "aa"]))
  {
    IncompleteInOneOrder(["aa", "bbb"]);
    CompleteInOtherOrder(["bbb", "aa"]);
    SameNeeds(["aa", "bbb"], ["bbb", "aa"]);
  }

  lemma IncompleteInOneOrder(deps: seq<Name>)
    requires deps == ["aa", "bbb"]
    ensures Coherent(Ordered(deps)) && !Complete(Ordered(deps))
  {
    var t := BuiltFromRoot(deps);
    FirstOrder(t);
    OrderedReached(deps);
  }

  lemma OrderedFiles(deps: seq<Name>, f: Path)
    requires Coherent(Ordered(deps)) && FileReached(Ordered(deps), {"r"}, f)
    ensures f in {"r.sv", "ab.sv", "c.sv"}
  {
    var n :| Lookup(Ordered(deps), n).Some? && Reached(Ordered(deps), {"r"}, n) && f == FileOf(Ordered(deps), n);
    LookupSound(Ordered(deps), n);
  }

  lemma CompleteInOtherOrder(deps: seq<Name>)
    requires deps == ["bbb", "aa"]
    ensures Coherent(Ordered(deps)) && Complete(Ordered(deps))
  {
    var t := Ordered(deps);
    OrderedIsCoherent(deps);
    var u := BuiltFromRoot(deps);
    OtherOrder(u);
    BuildIsSound(t, "r");
    forall f | FileReached(t, {"r"}, f) ensures f in Built(t) {
      OrderedFiles(deps, f);
    }
  }

  lemma SameNeeds(one: seq<Name>, other: seq<Name>)
    requires Coherent(Ordered(one)) && Coherent(Ordered(other)) && forall d :: d in one <==> d in other
    ensures SameGraph(Ordered(one), Ordered(other))
  {
    OrderedLookups(one);
    OrderedLookups(other);
    var s, t := Ordered(one), Ordered(other);
    forall m, n ensures Needs(s, m, n) <==> Needs(t, m, n) {
      assert Lookup(s, m) == Lookup(t, m);
    }
  }

  lemma OrderedReached(deps: seq<Name>)
    requires Coherent(Ordered(deps)) && "bbb" in deps
    ensures FileReached(Ordered(deps), {"r"}, "c.sv")
  {
    OrderedLookups(deps);
    ReachedSeed(Ordered(deps), {"r"}, "r");
    ReachedStep(Ordered(deps), {"r"}, "r", "bbb");
    ReachedStep(Ordered(deps), {"r"}, "bbb", "cccc");
  }

  // ------------------------------------------------ the two algorithms agree

  lemma {:induction false} ChainFromRoot(c: Tables, m: Name, n: Name, k: nat)
    requires Coherent(c) && Lookup(c, m).Some? && Chain(c, {m}, n, k + 1)
    ensures Reached(c, Elements(DepsOf(c, m)), n)
    decreases k
  {
    LookupSound(c, m);
    var a :| Chain(c, {m}, a, k) && Needs(c, a, n);
    if k == 0 {
      ReachedSeed(c, Elements(DepsOf(c, m)), n);
    } else {
      ChainFromRoot(c, m, a, k - 1);
      ReachedStep(c, Elements(DepsOf(c, m)), a, n);
    }
  }

  lemma {:induction false} ChainToRoot(c: Tables, m: Name, n: Name, k: nat)
    requires Coherent(c) && Lookup(c, m).Some? && Chain(c, Elements(DepsOf(c, m)), n, k)
    ensures Reached(c, {m}, n)
    decreases k
  {
    LookupSound(c, m);
    if k == 0 {
      ReachedSeed(c, {m}, m);
      ReachedStep(c, {m}, m, n);
    } else {
      var a :| Chain(c, Elements(DepsOf(c, m)), a, k - 1) && Needs(c, a, n);
      ChainToRoot(c, m, a, k - 1);
      ReachedStep(c, {m}, a, n);
    }
  }

  lemma ReachedFromRoot(c: Tables, m: Name, n: Name)
    requires Coherent(c) && Lookup(c, m).Some?
    ensures Reached(c, {m}, n) <==> n == m || Reached(c, Elements(DepsOf(c, m)), n)
  {
    if Reached(c, {m}, n) && n != m {
      var k: nat :| Chain(c, {m}, n, k);
      assert k != 0;
      ChainFromRoot(c, m, n, k - 1);
    }
    if Reached(c, Elements(DepsOf(c, m)), n) {
      var k: nat :| Chain(c, Elements(DepsOf(c, m)), n, k);
      ChainToRoot(c, m, n, k);
    }
    ReachedSeed(c, {m}, m);
  }

  lemma UriInjective(p: Path, q: Path)
    requires UriOf(p) == UriOf(q)
    ensures p == q
  {
    assert UriOf(p)[7..] == p && UriOf(q)[7..] == q;
  }

  lemma NeededIsReached(c: Tables, m: Name, f: Path)
    requires Coherent(c) && Lookup(c, m).Some? && Lookup(c, m).value in c.storage
    ensures NeededFile(c, Lookup(c, m).value, UriOf(f)) <==> FileReached(c, {m}, f)
  {
    var seeds := Elements(DepsOf(c, m));
    ReachedSeed(c, {m}, m);
    if NeededFile(c, Lookup(c, m).value, UriOf(f)) {
      if UriOf(f) == UriOf(FileOf(c, m)) {
        UriInjective(f, FileOf(c, m));
      } else {
        var n :| Lookup(c, n).Some? && Reached(c, seeds, n) && UriOf(f) == UriOf(FileOf(c, n));
        UriInjective(f, FileOf(c, n));
        ReachedFromRoot(c, m, n);
      }
    }
    if FileReached(c, {m}, f) {
      var n :| Lookup(c, n).Some? && Reached(c, {m}, n) && f == FileOf(c, n);
      ReachedFromRoot(c, m, n);
    }
  }

  /** On a cleared project without shared files, the recursive build and the worklist select the
      same files. */
  lemma BuildAgreesWithWorklist(t: Tables, m: Name)
    requires Coherent(t) && Coherent(Cleared(t)) && Subsumed(Cleared(t), {m})
    requires Lookup(Cleared(t), m).Some? && Lookup(Cleared(t), m).value in t.storage
    ensures forall f :: f in Added(Cleared(t), m).prjFiles <==>
      NeededFile(Cleared(t), Lookup(Cleared(t), m).value, UriOf(f))
  {
    BuildIsExact(t, m);
    forall f ensures NeededFile(Cleared(t), Lookup(Cleared(t), m).value, UriOf(f)) <==> FileReached(Cleared(t), {m}, f) {
      NeededIsReached(Cleared(t), m, f);
    }
  }

  // --------------------------------------------------------------- the object

  class ProjectTree {
    const cache: DiplomatDocumentCache
    var topLevel: Option<Name>
    var fileTreeValid: bool

    constructor (c: DiplomatDocumentCache, top: Option<Name>)
      ensures cache == c && topLevel == top && !fileTreeValid
    {
      cache, topLevel, fileTreeValid := c, top, false;
    }

    method ClearProjectTree()
      requires Coherent(cache.Value())
      modifies this`fileTreeValid, cache
      ensures cache.Value() == Cleared(old(cache.Value())) && Coherent(cache.Value())
      ensures !fileTreeValid
    {
      fileTreeValid := false;
      cache.ClearProject();
    }

    method AddModuleToProjectTree(m: Name)
      requires Coherent(cache.Value())
      modifies cache
      ensures cache.Value() == Added(old(cache.Value()), m) && Coherent(cache.Value())
      decreases Unlisted(cache.Value()), if m in cache.prjModules then 2 else 0
    {
      ghost var t := cache.Value();
      var bb := cache.GetBbByModule(m);
      if bb.Some? {
        LookupSound(t, m);
        RecordLists(t, m);
        cache.RecordFile(cache.bbToPath[bb.value], true);
        AddDependencies(cache.storage[bb.value].deps);
      }
    }

    /** The loop over the dependencies of a module that has just been recorded. */
    method AddDependencies(deps: seq<Name>)
      requires Coherent(cache.Value())
      modifies cache
      ensures cache.Value() == AddedAll(old(cache.Value()), deps) && Coherent(cache.Value())
      decreases Unlisted(cache.Value()), 1
    {
      ghost var r := cache.Value();
      for i := 0 to |deps|
        invariant Coherent(cache.Value()) && Unlisted(cache.Value()) <= Unlisted(r)
        invariant AddedAll(cache.Value(), deps[i..]) == AddedAll(r, deps)
      {
        assert deps[i..][0] == deps[i] && deps[i..][1..] == deps[i + 1..];
        if deps[i] !in cache.prjModules {
          AddModuleToProjectTree(deps[i]);
        }
      }
    }

    /** Rebuilding the project from its top level gives exactly the files it needs. */
    method ComputeProjectTree(keepTree: bool)
      requires Coherent(cache.Value())
      modifies this`fileTreeValid, cache
      ensures Coherent(cache.Value())
      ensures var start := if keepTree then old(cache.Value()) else Cleared(old(cache.Value()));
        if topLevel.None? then cache.Value() == start && fileTreeValid == (keepTree && old(fileTreeValid))
        else Coherent(start) && cache.Value() == Added(start, topLevel.value) && fileTreeValid
    {
      if !keepTree {
        ClearProjectTree();
      }
      if topLevel.None? {
        return;
      }
      AddModuleToProjectTree(topLevel.value);
      fileTreeValid := true;
    }
  }
}
