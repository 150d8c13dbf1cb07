/** The blackbox cache: eight redundant tables about the modules found in source files.
    Addresses of blackboxes are natural numbers; an address may be handed out again once freed. */
module CacheModel {
  import opened Wrappers
  import opened Choice

  type Path = string
  type Name = string
  type Ptr = nat

  /** What is kept of a module: its name and the names of the modules it instantiates. */
  datatype BlackBox = BlackBox(name: Name, deps: seq<Name>)

  /** The value of all the tables. */
  datatype Tables = Tables(
    storage: map<Ptr, BlackBox>,
    prjFiles: set<Path>,
    wsFiles: set<Path>,
    stamps: map<Path, int>,
    pathToBb: map<Path, seq<Ptr>>,
    bbToPath: map<Ptr, Path>,
    prjModules: map<Name, Ptr>,
    wsModules: map<Name, set<Ptr>>)

  const EMPTY := Tables(map[], {}, {}, map[], map[], map[], map[], map[])

  // -------------------------------------------------------------- coherence

  /** The tables talk about the same files. */
  ghost predicate FilesAgree(t: Tables) {
    t.prjFiles <= t.wsFiles && t.wsFiles == t.pathToBb.Keys && t.wsFiles == t.stamps.Keys
  }

  /** File to blackboxes and blackbox to file are inverse to each other and cover the storage. */
  ghost predicate Inverse(t: Tables) {
    && t.bbToPath.Keys == t.storage.Keys
    && (forall p, i :: p in t.pathToBb && 0 <= i < |t.pathToBb[p]| ==>
          t.pathToBb[p][i] in t.bbToPath && t.bbToPath[t.pathToBb[p][i]] == p)
    && (forall b :: b in t.bbToPath ==> t.bbToPath[b] in t.pathToBb && b in t.pathToBb[t.bbToPath[b]])
  }

  /** A file declares a module name at most once. */
  ghost predicate NamesDistinct(t: Tables)
    requires Inverse(t)
  {
    forall p, i, j :: p in t.pathToBb && 0 <= i < j < |t.pathToBb[p]| ==>
      t.storage[t.pathToBb[p][i]].name != t.storage[t.pathToBb[p][j]].name
  }

  /** The project table points at stored blackboxes of that name, in project files. */
  ghost predicate ProjectFiled(t: Tables)
    requires Inverse(t)
  {
    forall m :: m in t.prjModules ==>
      && t.prjModules[m] in t.storage
      && t.storage[t.prjModules[m]].name == m
      && t.bbToPath[t.prjModules[m]] in t.prjFiles
  }

  /** The workspace table files every stored blackbox, and nothing else, under its own name. */
  ghost predicate WorkspaceFiled(t: Tables) {
    && (forall m :: m in t.wsModules ==> t.wsModules[m] != {})
    && (forall m, b :: m in t.wsModules && b in t.wsModules[m] ==> b in t.storage && t.storage[b].name == m)
    && (forall b :: b in t.storage ==> t.storage[b].name in t.wsModules && b in t.wsModules[t.storage[b].name])
  }

  ghost predicate Coherent(t: Tables) {
    FilesAgree(t) && Inverse(t) && NamesDistinct(t) && ProjectFiled(t) && WorkspaceFiled(t)
  }

  // ------------------------------------------------------------- operations

  /** The project table once the given blackboxes have been pushed to it, in order. */
  function Published(t: Tables, boxes: seq<Ptr>): map<Name, Ptr>
    requires forall i :: 0 <= i < |boxes| ==> boxes[i] in t.storage
  {
    if boxes == [] then t.prjModules
    else
      var n := |boxes| - 1;
      Published(t, boxes[..n])[t.storage[boxes[n]].name := boxes[n]]
  }

  /** The lookup that record_file performs would fail. */
  predicate RecordFails(t: Tables, p: Path, inPrj: bool) {
    inPrj && p in t.wsFiles && p !in t.pathToBb
  }

  function Recorded(t: Tables, p: Path, inPrj: bool): Tables
    requires Inverse(t) && !RecordFails(t, p, inPrj)
  {
    t.(prjFiles := if inPrj then t.prjFiles + {p} else t.prjFiles,
       wsFiles := t.wsFiles + {p},
       prjModules := if inPrj && p in t.wsFiles then Published(t, t.pathToBb[p]) else t.prjModules)
  }

  /** The lookup that remove_file performs would fail. */
  predicate RemoveFails(t: Tables, p: Path) {
    p in t.wsFiles && p !in t.pathToBb
  }

  function BoxesOf(t: Tables, p: Path): set<Ptr> {
    if p in t.pathToBb then set i | 0 <= i < |t.pathToBb[p]| :: t.pathToBb[p][i] else {}
  }

  /** The tables without anything about some blackboxes. */
  function WithoutBoxes(t: Tables, gone: set<Ptr>): Tables {
    t.(storage := t.storage - gone,
       bbToPath := t.bbToPath - gone,
       prjModules := map m | m in t.prjModules && t.prjModules[m] !in gone :: t.prjModules[m],
       wsModules := map m | m in t.wsModules && t.wsModules[m] - gone != {} :: t.wsModules[m] - gone)
  }

  /** The tables without anything about a file. */
  function Removed(t: Tables, p: Path): Tables
    requires !RemoveFails(t, p)
  {
    if p !in t.wsFiles then t
    else
      WithoutBoxes(t, BoxesOf(t, p)).(
        pathToBb := t.pathToBb - {p}, prjFiles := t.prjFiles - {p},
        wsFiles := t.wsFiles - {p}, stamps := t.stamps - {p})
  }

  function Cleared(t: Tables): Tables {
    t.(prjFiles := {}, prjModules := map[])
  }

  /** What parsing a file yields: blackboxes of different names at addresses not in use. */
  ghost predicate FreshParse(storage: map<Ptr, BlackBox>, found: seq<(Ptr, BlackBox)>) {
    && (forall i :: 0 <= i < |found| ==> found[i].0 !in storage)
    && (forall i, j :: 0 <= i < j < |found| ==> found[i].0 != found[j].0 && found[i].1.name != found[j].1.name)
  }

  function Addresses(found: seq<(Ptr, BlackBox)>): seq<Ptr> {
    seq(|found|, i requires 0 <= i < |found| => found[i].0)
  }

  function Filed(ws: map<Name, set<Ptr>>, name: Name): set<Ptr> {
    if name in ws then ws[name] else {}
  }

  /** One blackbox of a file entered in the tables. */
  function Bound(t: Tables, p: Path, b: Ptr, bb: BlackBox): Tables {
    t.(storage := t.storage[b := bb],
       bbToPath := t.bbToPath[b := p],
       pathToBb := t.pathToBb[p := (if p in t.pathToBb then t.pathToBb[p] else []) + [b]],
       wsModules := t.wsModules[bb.name := Filed(t.wsModules, bb.name) + {b}])
  }

  function BoundAll(t: Tables, p: Path, found: seq<(Ptr, BlackBox)>): Tables {
    if found == [] then t
    else
      var n := |found| - 1;
      Bound(BoundAll(t, p, found[..n]), p, found[n].0, found[n].1)
  }

  /** A file of the file system as the cache meets it. */
  datatype Source = Missing | Present(lastWrite: int, now: int, found: seq<(Ptr, BlackBox)>)

  predicate UpToDate(t: Tables, p: Path, src: Source) {
    src.Present? && p in t.stamps && src.lastWrite <= t.stamps[p]
  }

  /** The file freshly parsed and entered, before it is recorded. */
  function Loaded(t: Tables, p: Path, src: Source): Tables
    requires src.Present?
  {
    var u := if src.found == [] then t.(pathToBb := t.pathToBb[p := []]) else BoundAll(t, p, src.found);
    u.(stamps := u.stamps[p := src.now])
  }

  /** process_file from coherent tables. */
  function Processed(t: Tables, p: Path, inPrj: bool, src: Source): Tables
    requires Coherent(t)
    requires src.Present? ==> FreshParse(Removed(t, p).storage, src.found)
  {
    if src.Missing? then t
    else if UpToDate(t, p, src) then Recorded(t, p, inPrj)
    else
      var u := Loaded(Removed(t, p), p, src);
      var keep := if p in t.stamps then p in t.prjFiles else inPrj;
      u.(prjFiles := if keep then u.prjFiles + {p} else u.prjFiles, wsFiles := u.wsFiles + {p})
  }

  // ------------------------------------------------------------- properties

  lemma {:induction false} PublishedKeys(t: Tables, boxes: seq<Ptr>)
    requires forall i :: 0 <= i < |boxes| ==> boxes[i] in t.storage
    ensures forall m :: m in Published(t, boxes) <==>
      m in t.prjModules || exists i :: 0 <= i < |boxes| && t.storage[boxes[i]].name == m
    ensures forall m :: m in Published(t, boxes) ==>
      || (m in t.prjModules && Published(t, boxes)[m] == t.prjModules[m])
      || (exists i :: 0 <= i < |boxes| && boxes[i] == Published(t, boxes)[m] && t.storage[boxes[i]].name == m)
    decreases |boxes|
  {
    if boxes != [] {
      var n := |boxes| - 1;
      PublishedKeys(t, boxes[..n]);
      forall m | m in Published(t, boxes[..n]) && (exists i :: 0 <= i < n && t.storage[boxes[..n][i]].name == m)
        ensures exists i :: 0 <= i < |boxes| && t.storage[boxes[i]].name == m
      {
        var i :| 0 <= i < n && t.storage[boxes[..n][i]].name == m;
        assert boxes[i] == boxes[..n][i];
      }
    }
  }

  /** When the names differ, each pushed blackbox ends up under its name. */
  lemma {:induction false} PublishedAll(t: Tables, boxes: seq<Ptr>, k: nat)
    requires forall i :: 0 <= i < |boxes| ==> boxes[i] in t.storage
    requires forall i, j :: 0 <= i < j < |boxes| ==> t.storage[boxes[i]].name != t.storage[boxes[j]].name
    requires k < |boxes|
    ensures t.storage[boxes[k]].name in Published(t, boxes)
    ensures Published(t, boxes)[t.storage[boxes[k]].name] == boxes[k]
    decreases |boxes|
  {
    var n := |boxes| - 1;
    if k < n {
      PublishedAll(t, boxes[..n], k);
    }
  }

  /** Recording keeps the tables coherent exactly when the file is already known. */
  lemma RecordKeepsCoherenceExactly(t: Tables, p: Path, inPrj: bool)
    requires Coherent(t)
    ensures !RecordFails(t, p, inPrj)
    ensures Coherent(Recorded(t, p, inPrj)) <==> p in t.wsFiles
  {
    if p in t.wsFiles && inPrj {
      PublishedKeys(t, t.pathToBb[p]);
    }
  }

  /** Recording a file that was never processed plants a failure: recording it for the project
      again, or removing it, then looks up a file that is not there, and parsing it meets the
      project branch. For known files none of this happens. */
  lemma RecordingUnknownFile(t: Tables, p: Path)
    requires Coherent(t)
    ensures !RecordFails(t, p, true)
    ensures var u := Recorded(t, p, true);
      && (RecordFails(u, p, true) <==> p !in t.wsFiles)
      && (RemoveFails(u, p) <==> p !in t.wsFiles)
      && ((p in u.prjFiles && p !in u.stamps) <==> p !in t.wsFiles)
  {
  }

  lemma RemoveKeepsCoherence(t: Tables, p: Path)
    requires Coherent(t)
    ensures !RemoveFails(t, p)
    ensures Coherent(Removed(t, p))
    ensures p !in Removed(t, p).wsFiles
  {
    var u := Removed(t, p);
    if p in t.wsFiles {
      forall q, i | q in u.pathToBb && 0 <= i < |u.pathToBb[q]|
        ensures u.pathToBb[q][i] in u.bbToPath && u.bbToPath[u.pathToBb[q][i]] == q
      {
        assert t.bbToPath[t.pathToBb[q][i]] == q;
      }
      forall b | b in u.bbToPath
        ensures u.bbToPath[b] in u.pathToBb && b in u.pathToBb[u.bbToPath[b]]
      {
        assert t.bbToPath[b] != p;
      }
      assert Inverse(u);
      forall b | b in u.storage
        ensures u.storage[b].name in u.wsModules && b in u.wsModules[u.storage[b].name]
      {
        assert b in t.wsModules[t.storage[b].name] - BoxesOf(t, p);
      }
    }
  }

  /** Removal leaves no trace of the file or of its blackboxes in any table, and touches nothing
      of the other files: table by table, exactly the rest stays, as it was. */
  lemma RemoveForgetsExactlyTheFile(t: Tables, p: Path)
    requires Coherent(t)
    ensures var u := Removed(t, p);
      && u.prjFiles == t.prjFiles - {p} && u.wsFiles == t.wsFiles - {p}
      && u.stamps == t.stamps - {p} && u.pathToBb == t.pathToBb - {p}
      && (forall b :: b in u.storage <==> b in t.storage && t.bbToPath[b] != p)
      && (forall b :: b in u.bbToPath <==> b in t.storage && t.bbToPath[b] != p)
      && (forall b :: b in u.storage ==> u.storage[b] == t.storage[b] && u.bbToPath[b] == t.bbToPath[b])
      && (forall m :: m in u.prjModules <==> m in t.prjModules && t.bbToPath[t.prjModules[m]] != p)
      && (forall m :: m in u.prjModules ==> u.prjModules[m] == t.prjModules[m])
      && (forall m, b :: (m in u.wsModules && b in u.wsModules[m])
                    <==> m in t.wsModules && b in t.wsModules[m] && t.bbToPath[b] != p)
  {
    BoxesAreOfTheFile(t, p);
    RemoveUnfilesExactly(t, p);
  }

  lemma RemoveUnfilesExactly(t: Tables, p: Path)
    requires FilesAgree(t) && Inverse(t) && WorkspaceFiled(t)
    ensures forall m, b :: (m in Removed(t, p).wsModules && b in Removed(t, p).wsModules[m])
                      <==> m in t.wsModules && b in t.wsModules[m] && t.bbToPath[b] != p
  {
    BoxesAreOfTheFile(t, p);
    var u := Removed(t, p);
    forall m, b ensures (m in u.wsModules && b in u.wsModules[m]) <==> m in t.wsModules && b in t.wsModules[m] && t.bbToPath[b] != p {
      if p in t.wsFiles && m in t.wsModules {
        assert b in t.wsModules[m] - BoxesOf(t, p) <==> b in t.wsModules[m] && t.bbToPath[b] != p;
      }
    }
  }

  lemma BoxesAreOfTheFile(t: Tables, p: Path)
    requires Inverse(t)
    ensures forall b :: b in t.bbToPath ==> (b in BoxesOf(t, p) <==> t.bbToPath[b] == p)
  {
    forall b | b in t.bbToPath ensures b in BoxesOf(t, p) <==> t.bbToPath[b] == p {
      assert b in t.pathToBb[t.bbToPath[b]];
    }
  }

  /** A module name survives in the workspace table exactly when another file declares it. */
  lemma RemoveKeepsSharedNames(t: Tables, p: Path, m: Name)
    requires FilesAgree(t) && Inverse(t) && WorkspaceFiled(t)
    ensures m in Removed(t, p).wsModules <==>
      m in t.wsModules && exists b :: b in t.wsModules[m] && t.bbToPath[b] != p
  {
    var u, gone := Removed(t, p), BoxesOf(t, p);
    BoxesAreOfTheFile(t, p);
    if m in t.wsModules && p in t.wsFiles {
      if m in u.wsModules {
        var b :| b in t.wsModules[m] - gone;
        assert t.bbToPath[b] != p;
      }
      if exists b :: b in t.wsModules[m] && t.bbToPath[b] != p {
        var b :| b in t.wsModules[m] && t.bbToPath[b] != p;
        assert b in t.wsModules[m] - gone;
      }
    } else if m in t.wsModules {
      var b :| b in t.wsModules[m];
      assert b in t.bbToPath && t.bbToPath[b] != p;
    }
  }

  /** Between the removal and the recording of a file: only the path table may know it. */
  ghost predicate Loading(t: Tables, p: Path) {
    && Inverse(t) && NamesDistinct(t) && ProjectFiled(t) && WorkspaceFiled(t)
    && p !in t.wsFiles && t.prjFiles <= t.wsFiles && t.wsFiles == t.stamps.Keys
    && t.pathToBb.Keys - {p} == t.wsFiles
  }

  lemma BindKeepsInverse(t: Tables, p: Path, b: Ptr, bb: BlackBox)
    requires Inverse(t) && b !in t.storage
    ensures Inverse(Bound(t, p, b, bb))
  {
    var u := Bound(t, p, b, bb);
    forall q, i | q in u.pathToBb && 0 <= i < |u.pathToBb[q]|
      ensures u.pathToBb[q][i] in u.bbToPath && u.bbToPath[u.pathToBb[q][i]] == q
    {
      if u.pathToBb[q][i] != b {
        assert q in t.pathToBb && t.bbToPath[t.pathToBb[q][i]] == q;
      }
    }
    forall c | c in u.bbToPath
      ensures u.bbToPath[c] in u.pathToBb && c in u.pathToBb[u.bbToPath[c]]
    {
      if c != b {
        assert c in t.pathToBb[t.bbToPath[c]];
      } else {
        assert u.pathToBb[p][|u.pathToBb[p]| - 1] == b;
      }
    }
  }

  lemma BindKeepsNames(t: Tables, p: Path, b: Ptr, bb: BlackBox)
    requires Inverse(t) && NamesDistinct(t) && b !in t.storage
    requires p in t.pathToBb ==> forall i :: 0 <= i < |t.pathToBb[p]| ==> t.storage[t.pathToBb[p][i]].name != bb.name
    requires Inverse(Bound(t, p, b, bb))
    ensures NamesDistinct(Bound(t, p, b, bb))
  {
    var u := Bound(t, p, b, bb);
    forall q, i, j | q in u.pathToBb && 0 <= i < j < |u.pathToBb[q]|
      ensures u.storage[u.pathToBb[q][i]].name != u.storage[u.pathToBb[q][j]].name
    {
      assert q in t.pathToBb && t.pathToBb[q][i] == u.pathToBb[q][i];
      if q != p || j < |u.pathToBb[q]| - 1 {
        assert t.pathToBb[q][j] == u.pathToBb[q][j];
      }
    }
  }

  lemma BindKeepsLoading(t: Tables, p: Path, b: Ptr, bb: BlackBox)
    requires Loading(t, p) && b !in t.storage
    requires p in t.pathToBb ==> forall i :: 0 <= i < |t.pathToBb[p]| ==> t.storage[t.pathToBb[p][i]].name != bb.name
    ensures Loading(Bound(t, p, b, bb), p)
  {
    BindKeepsInverse(t, p, b, bb);
    BindKeepsNames(t, p, b, bb);
    BindKeepsFiling(t, p, b, bb);
    assert Bound(t, p, b, bb).pathToBb.Keys - {p} == t.wsFiles;
  }

  lemma BindKeepsFiling(t: Tables, p: Path, b: Ptr, bb: BlackBox)
    requires Inverse(t) && Inverse(Bound(t, p, b, bb)) && b !in t.storage
    requires ProjectFiled(t) && WorkspaceFiled(t)
    ensures ProjectFiled(Bound(t, p, b, bb)) && WorkspaceFiled(Bound(t, p, b, bb))
  {
    FileNext(t.storage, t.wsModules, b, bb);
  }

  lemma FileNext(storage: map<Ptr, BlackBox>, ws: map<Name, set<Ptr>>, b: Ptr, bb: BlackBox)
    requires b !in storage
    requires forall m :: m in ws ==> ws[m] != {}
    requires forall m, c :: m in ws && c in ws[m] ==> c in storage && storage[c].name == m
    requires forall c :: c in storage ==> storage[c].name in ws && c in ws[storage[c].name]
    ensures var ws', st' := ws[bb.name := Filed(ws, bb.name) + {b}], storage[b := bb];
      && (forall m :: m in ws' ==> ws'[m] != {})
      && (forall m, c :: m in ws' && c in ws'[m] ==> c in st' && st'[c].name == m)
      && (forall c :: c in st' ==> st'[c].name in ws' && c in ws'[st'[c].name])
  {
  }

  /** What entering the blackboxes of a file changes. */
  ghost predicate Entered(t: Tables, u: Tables, p: Path, found: seq<(Ptr, BlackBox)>) {
    && (if found == [] then u == t else p in u.pathToBb && u.pathToBb[p] == Addresses(found))
    && u.prjFiles == t.prjFiles && u.wsFiles == t.wsFiles && u.stamps == t.stamps && u.prjModules == t.prjModules
    && Stored(t.storage, u.storage, found)
    && u.pathToBb - {p} == t.pathToBb - {p}
  }

  ghost predicate Stored(before: map<Ptr, BlackBox>, after: map<Ptr, BlackBox>, found: seq<(Ptr, BlackBox)>) {
    && after.Keys == before.Keys + (set b | b in Addresses(found))
    && (forall i :: 0 <= i < |found| ==> found[i].0 in after && after[found[i].0] == found[i].1)
  }

  lemma StoreNext(before: map<Ptr, BlackBox>, after: map<Ptr, BlackBox>, found: seq<(Ptr, BlackBox)>, next: (Ptr, BlackBox))
    requires Stored(before, after, found)
    requires forall i :: 0 <= i < |found| ==> found[i].0 != next.0
    ensures Stored(before, after[next.0 := next.1], found + [next])
  {
    assert Addresses(found + [next]) == Addresses(found) + [next.0];
  }

  lemma BindEnters(t: Tables, v: Tables, p: Path, found: seq<(Ptr, BlackBox)>)
    requires found != [] && p !in t.pathToBb && FreshParse(t.storage, found)
    requires Entered(t, v, p, found[..|found| - 1])
    ensures Entered(t, Bound(v, p, found[|found| - 1].0, found[|found| - 1].1), p, found)
  {
    var n := |found| - 1;
    assert found == found[..n] + [found[n]];
    StoreNext(t.storage, v.storage, found[..n], found[n]);
    assert Addresses(found) == Addresses(found[..n]) + [found[n].0];
    assert Bound(v, p, found[n].0, found[n].1).pathToBb - {p} == v.pathToBb - {p};
  }

  /** The next blackbox of the file is at a free address and has a name the file has not used. */
  lemma NextIsFresh(t: Tables, v: Tables, p: Path, found: seq<(Ptr, BlackBox)>)
    requires found != [] && p !in t.pathToBb && FreshParse(t.storage, found)
    requires Inverse(v) && Entered(t, v, p, found[..|found| - 1])
    ensures found[|found| - 1].0 !in v.storage
    ensures p in v.pathToBb ==>
      forall i :: 0 <= i < |v.pathToBb[p]| ==> v.storage[v.pathToBb[p][i]].name != found[|found| - 1].1.name
  {
    if p in v.pathToBb {
      forall i | 0 <= i < |v.pathToBb[p]|
        ensures v.storage[v.pathToBb[p][i]].name != found[|found| - 1].1.name
      {
        assert v.pathToBb[p][i] == found[..|found| - 1][i].0;
      }
    }
  }

  lemma {:induction false} BindAllEnters(t: Tables, p: Path, found: seq<(Ptr, BlackBox)>)
    requires p !in t.pathToBb && FreshParse(t.storage, found)
    ensures Entered(t, BoundAll(t, p, found), p, found)
    decreases |found|
  {
    if found != [] {
      BindAllEnters(t, p, found[..|found| - 1]);
      BindEnters(t, BoundAll(t, p, found[..|found| - 1]), p, found);
    }
  }

  lemma {:induction false} BindAllKeepsLoading(t: Tables, p: Path, found: seq<(Ptr, BlackBox)>)
    requires Loading(t, p) && p !in t.pathToBb && FreshParse(t.storage, found)
    ensures Loading(BoundAll(t, p, found), p)
    decreases |found|
  {
    if found != [] {
      var n := |found| - 1;
      var v := BoundAll(t, p, found[..n]);
      BindAllKeepsLoading(t, p, found[..n]);
      BindAllEnters(t, p, found[..n]);
      NextIsFresh(t, v, p, found);
      BindKeepsLoading(v, p, found[n].0, found[n].1);
    }
  }

  lemma EmptyFileKeepsLoading(t: Tables, p: Path)
    requires Loading(t, p) && p !in t.pathToBb
    ensures Loading(t.(pathToBb := t.pathToBb[p := []]), p)
  {
    var u := t.(pathToBb := t.pathToBb[p := []]);
    assert Inverse(u);
    assert u.pathToBb.Keys - {p} == u.wsFiles;
  }

  /** The freshly parsed file: what process_file leaves when it does not return early. */
  lemma ReprocessedFile(t: Tables, p: Path, inPrj: bool, src: Source)
    requires Coherent(t) && src.Present? && !UpToDate(t, p, src)
    requires FreshParse(Removed(t, p).storage, src.found)
    ensures var u := Processed(t, p, inPrj, src);
      && Coherent(u)
      && p in u.wsFiles && u.pathToBb[p] == Addresses(src.found) && u.stamps[p] == src.now
      && u.prjModules == Removed(t, p).prjModules
      && (p in u.prjFiles <==> if p in t.stamps then p in t.prjFiles else inPrj)
      && (forall q :: q != p ==>
            && (q in u.wsFiles <==> q in t.wsFiles) && (q in u.prjFiles <==> q in t.prjFiles)
            && (q in t.wsFiles ==> u.pathToBb[q] == t.pathToBb[q] && u.stamps[q] == t.stamps[q]))
  {
    var v := Loaded(Removed(t, p), p, src);
    LoadedAfterRemoval(t, p, src);
    LoadedBecomesCoherent(v, Processed(t, p, inPrj, src), p);
  }

  /** A file that is new, or was written after it was processed, is parsed again: afterwards it has
      exactly the blackboxes found, each stored at its address, and the stamp of this time. */
  lemma ModifiedIsParsed(t: Tables, p: Path, inPrj: bool, lastWrite: int, now: int, found: seq<(Ptr, BlackBox)>)
    requires Coherent(t) && FreshParse(Removed(t, p).storage, found)
    requires p !in t.stamps || lastWrite > t.stamps[p]
    ensures var u := Processed(t, p, inPrj, Present(lastWrite, now, found));
      && p in u.pathToBb && |u.pathToBb[p]| == |found| && p in u.stamps && u.stamps[p] == now
      && (forall i :: 0 <= i < |found| ==> u.pathToBb[p][i] == found[i].0)
      && (forall i :: 0 <= i < |found| ==> found[i].0 in u.storage && u.storage[found[i].0] == found[i].1)
      && (forall i :: 0 <= i < |found| ==> found[i].0 in u.bbToPath && u.bbToPath[found[i].0] == p)
  {
    var src := Present(lastWrite, now, found);
    ReprocessedFile(t, p, inPrj, src);
    LoadedStores(Removed(t, p), p, src);
    var u := Processed(t, p, inPrj, src);
    assert forall i :: 0 <= i < |found| ==> u.pathToBb[p][i] in u.bbToPath;
  }

  /** A file not written since it was processed, or that is not there, is not parsed: files, stamps,
      blackboxes and the workspace table stay as they are. */
  lemma CurrentIsKept(t: Tables, p: Path, inPrj: bool, src: Source)
    requires Coherent(t) && (src.Present? ==> FreshParse(Removed(t, p).storage, src.found))
    requires src.Present? ==> p in t.stamps && src.lastWrite <= t.stamps[p]
    ensures var u := Processed(t, p, inPrj, src);
      && u.storage == t.storage && u.stamps == t.stamps && u.pathToBb == t.pathToBb && u.bbToPath == t.bbToPath
      && u.wsModules == t.wsModules && u.wsFiles == t.wsFiles
      && u.prjFiles == (if src.Present? && inPrj then t.prjFiles + {p} else t.prjFiles)
  {
  }

  lemma {:induction false} BindAllStores(t: Tables, p: Path, found: seq<(Ptr, BlackBox)>)
    requires forall i, j :: 0 <= i < j < |found| ==> found[i].0 != found[j].0
    ensures forall i :: 0 <= i < |found| ==> var u := BoundAll(t, p, found); found[i].0 in u.storage && u.storage[found[i].0] == found[i].1
    decreases |found|
  {
    if found != [] {
      BindAllStores(t, p, found[..|found| - 1]);
    }
  }

  lemma LoadedStores(t: Tables, p: Path, src: Source)
    requires src.Present? && FreshParse(t.storage, src.found)
    ensures forall i :: 0 <= i < |src.found| ==>
      var u := Loaded(t, p, src); src.found[i].0 in u.storage && u.storage[src.found[i].0] == src.found[i].1
  {
    BindAllStores(t, p, src.found);
  }

  /** What the removal leaves of the file tables: everything but the file. */
  lemma RemovedFiles(t: Tables, p: Path)
    requires Coherent(t)
    ensures var r := Removed(t, p);
      && r.prjFiles == t.prjFiles - {p} && r.wsFiles == t.wsFiles - {p}
      && r.pathToBb == t.pathToBb - {p} && r.stamps == t.stamps - {p}
  {
  }

  lemma LoadedAfterRemoval(t: Tables, p: Path, src: Source)
    requires Coherent(t) && src.Present? && FreshParse(Removed(t, p).storage, src.found)
    ensures var r := Removed(t, p);
      var v := Loaded(r, p, src);
      && Inverse(v) && NamesDistinct(v) && ProjectFiled(v) && WorkspaceFiled(v)
      && v.prjFiles == t.prjFiles - {p} && v.wsFiles == t.wsFiles - {p} && v.prjModules == r.prjModules
      && v.stamps.Keys == v.pathToBb.Keys == v.wsFiles + {p} && v.prjFiles <= v.wsFiles
      && v.stamps[p] == src.now && v.pathToBb[p] == Addresses(src.found)
      && (forall q :: q != p && q in t.wsFiles ==>
            q in v.pathToBb && q in v.stamps && v.pathToBb[q] == t.pathToBb[q] && v.stamps[q] == t.stamps[q])
  {
    var r := Removed(t, p);
    RemoveKeepsCoherence(t, p);
    RemovedFiles(t, p);
    LoadKeepsLoading(r, p, src);
    OthersStay(t, Loaded(r, p, src), p, src.now);
  }

  lemma OthersStay(t: Tables, v: Tables, p: Path, now: int)
    requires t.stamps.Keys == t.pathToBb.Keys == t.wsFiles
    requires v.stamps == (t.stamps - {p})[p := now] && v.pathToBb - {p} == (t.pathToBb - {p}) - {p}
    requires v.pathToBb.Keys == (t.wsFiles - {p}) + {p}
    ensures v.stamps.Keys == (t.wsFiles - {p}) + {p}
    ensures forall q :: q != p && q in t.wsFiles ==>
      q in v.pathToBb && q in v.stamps && v.pathToBb[q] == t.pathToBb[q] && v.stamps[q] == t.stamps[q]
  {
    forall q | q != p && q in t.wsFiles ensures q in v.pathToBb && v.pathToBb[q] == t.pathToBb[q] {
      assert q in (t.pathToBb - {p}) - {p};
      assert q in v.pathToBb - {p};
    }
  }

  lemma LoadKeepsLoading(r: Tables, p: Path, src: Source)
    requires Coherent(r) && p !in r.wsFiles && src.Present? && FreshParse(r.storage, src.found)
    ensures var v := Loaded(r, p, src);
      && Inverse(v) && NamesDistinct(v) && ProjectFiled(v) && WorkspaceFiled(v)
      && v.prjFiles == r.prjFiles && v.wsFiles == r.wsFiles && v.prjModules == r.prjModules
      && v.stamps == r.stamps[p := src.now] && v.pathToBb.Keys == r.wsFiles + {p}
      && v.pathToBb[p] == Addresses(src.found) && v.pathToBb - {p} == r.pathToBb - {p}
  {
    assert Loading(r, p);
    var w := r.(pathToBb := r.pathToBb[p := []]);
    if src.found == [] {
      EmptyFileKeepsLoading(r, p);
      assert w.pathToBb - {p} == r.pathToBb - {p};
    } else {
      w := BoundAll(r, p, src.found);
      BindAllKeepsLoading(r, p, src.found);
      BindAllEnters(r, p, src.found);
    }
    StampKeepsFiling(w, Loaded(r, p, src), p);
  }

  lemma StampKeepsFiling(w: Tables, v: Tables, p: Path)
    requires Loading(w, p) && p in w.pathToBb && v == w.(stamps := v.stamps)
    ensures Inverse(v) && NamesDistinct(v) && ProjectFiled(v) && WorkspaceFiled(v)
    ensures v.pathToBb.Keys == w.wsFiles + {p}
  {
    assert Inverse(v);
    assert v.pathToBb.Keys == (w.pathToBb.Keys - {p}) + {p};
  }

  /** Adding the file to the file sets completes the tables. */
  lemma LoadedBecomesCoherent(v: Tables, u: Tables, p: Path)
    requires Inverse(v) && NamesDistinct(v) && ProjectFiled(v) && WorkspaceFiled(v)
    requires v.prjFiles <= v.wsFiles && v.stamps.Keys == v.pathToBb.Keys == v.wsFiles + {p}
    requires u == v.(prjFiles := u.prjFiles, wsFiles := v.wsFiles + {p})
    requires v.prjFiles <= u.prjFiles <= v.prjFiles + {p}
    ensures Coherent(u)
  {
    assert Inverse(u);
  }

  /** The branch that files new modules straight into the project is never taken. */
  lemma ProjectBranchIsDead(t: Tables, p: Path, src: Source)
    requires Coherent(t) && src.Present? && !UpToDate(t, p, src)
    ensures p !in Removed(t, p).prjFiles
  {
    RemoveKeepsCoherence(t, p);
  }

  lemma ProcessKeepsCoherence(t: Tables, p: Path, inPrj: bool, src: Source)
    requires Coherent(t)
    requires src.Present? ==> FreshParse(Removed(t, p).storage, src.found)
    ensures Coherent(Processed(t, p, inPrj, src))
  {
    if src.Present? {
      if UpToDate(t, p, src) {
        RecordKeepsCoherenceExactly(t, p, inPrj);
      } else {
        ReprocessedFile(t, p, inPrj, src);
      }
    }
  }

  /** All modules of a file are found through the project table. */
  ghost predicate AllPublished(t: Tables, p: Path) {
    p in t.pathToBb && forall i :: 0 <= i < |t.pathToBb[p]| ==>
      && t.pathToBb[p][i] in t.storage
      && t.storage[t.pathToBb[p][i]].name in t.prjModules
      && t.prjModules[t.storage[t.pathToBb[p][i]].name] == t.pathToBb[p][i]
  }

  /** Processing a file for the project publishes its modules only when it was known and has not
      changed: a new or modified file joins the project files but not the project modules. */
  lemma ProcessPublishesExactly(t: Tables, p: Path, src: Source)
    requires Coherent(t) && src.Present? && FreshParse(Removed(t, p).storage, src.found)
    ensures AllPublished(Processed(t, p, true, src), p) <==> UpToDate(t, p, src) || src.found == []
  {
    var u := Processed(t, p, true, src);
    if UpToDate(t, p, src) {
      forall i | 0 <= i < |t.pathToBb[p]|
        ensures var m := t.storage[t.pathToBb[p][i]].name; m in u.prjModules && u.prjModules[m] == t.pathToBb[p][i]
      {
        PublishedAll(t, t.pathToBb[p], i);
      }
    } else {
      ReprocessedFile(t, p, true, src);
      RemoveKeepsCoherence(t, p);
      if src.found != [] {
        assert u.pathToBb[p][0] == src.found[0].0;
        assert src.found[0].0 !in Removed(t, p).storage;
      }
    }
  }

  // -------------------------------------------------------------------- runs

  datatype Op =
    | Process(p: Path, inPrj: bool, src: Source)
    | Record(p: Path, inPrj: bool)
    | Remove(p: Path)
    | ClearProject

  /** What callers respect: parsed blackboxes are at free addresses, and only files already
      processed are recorded from outside. */
  ghost predicate Legal(t: Tables, op: Op)
    requires Coherent(t)
  {
    match op
    case Process(p, _, src) => src.Present? ==> FreshParse(Removed(t, p).storage, src.found)
    case Record(p, _) => p in t.wsFiles
    case _ => true
  }

  function Apply(t: Tables, op: Op): Tables
    requires Coherent(t) && Legal(t, op)
  {
    match op
    case Process(p, inPrj, src) => Processed(t, p, inPrj, src)
    case Record(p, inPrj) => Recorded(t, p, inPrj)
    case Remove(p) => Removed(t, p)
    case ClearProject => Cleared(t)
  }

  lemma ApplyKeepsCoherence(t: Tables, op: Op)
    requires Coherent(t) && Legal(t, op)
    ensures Coherent(Apply(t, op))
  {
    match op
    case Process(p, inPrj, src) => ProcessKeepsCoherence(t, p, inPrj, src);
    case Record(p, inPrj) => RecordKeepsCoherenceExactly(t, p, inPrj);
    case Remove(p) => RemoveKeepsCoherence(t, p);
    case ClearProject =>
  }

  /** The tables after a run, or None at the first operation its caller may not perform. */
  ghost function Run(t: Tables, ops: seq<Op>): Option<Tables>
    requires Coherent(t)
    decreases |ops|
  {
    if ops == [] then Some(t)
    else if !Legal(t, ops[0]) then None
    else
      ApplyKeepsCoherence(t, ops[0]);
      Run(Apply(t, ops[0]), ops[1..])
  }

  /** Every run from the empty cache ends in coherent tables. */
  lemma {:induction false} EveryRunIsCoherent(t: Tables, ops: seq<Op>)
    requires Coherent(t) && Run(t, ops).Some?
    ensures Coherent(Run(t, ops).value)
    decreases |ops|
  {
    if ops != [] {
      ApplyKeepsCoherence(t, ops[0]);
      EveryRunIsCoherent(Apply(t, ops[0]), ops[1..]);
    }
  }

  lemma EmptyIsCoherent()
    ensures Coherent(EMPTY)
  {
  }

  // ------------------------------------------------------------------ lookup

  /** get_bb_by_module: the project first, then any file of the workspace. */
  function Lookup(t: Tables, m: Name): Option<Ptr>
    requires forall n :: n in t.wsModules ==> t.wsModules[n] != {}
  {
    if m in t.prjModules then Some(t.prjModules[m])
    else if m in t.wsModules then Some(Least(t.wsModules[m]))
    else None
  }

  /** A module is found exactly when some processed file declares it, the project's before others;
      what is found is stored, has that name and belongs to a known file. */
  lemma LookupSound(t: Tables, m: Name)
    requires Coherent(t)
    ensures Lookup(t, m).Some? <==> exists b :: b in t.storage && t.storage[b].name == m
    ensures m in t.prjModules ==> Lookup(t, m) == Some(t.prjModules[m])
    ensures Lookup(t, m).Some? ==>
      var b := Lookup(t, m).value;
      b in t.storage && t.storage[b].name == m && b in t.bbToPath && t.bbToPath[b] in t.wsFiles
  {
    if Lookup(t, m).Some? {
      var b := Lookup(t, m).value;
      assert b in t.storage && t.storage[b].name == m;
    }
    if b :| b in t.storage && t.storage[b].name == m {
      assert b in t.wsModules[m];
    }
  }
}

/** The cache object, whose methods update the tables in place. */
module DocumentCache {
  import opened Wrappers
  import opened Choice
  import opened CacheModel

  lemma WithoutNothing(t: Tables)
    requires forall m :: m in t.wsModules ==> t.wsModules[m] != {}
    ensures WithoutBoxes(t, {}) == t
  {
    assert t.storage - {} == t.storage && t.bbToPath - {} == t.bbToPath;
    assert WithoutBoxes(t, {}).prjModules == t.prjModules;
    forall m | m in t.wsModules ensures t.wsModules[m] - {} == t.wsModules[m] {
    }
    assert WithoutBoxes(t, {}).wsModules == t.wsModules;
  }

  /** A set of addresses dropped from one of the sets of the workspace table. */
  function Unfiled(ws: map<Name, set<Ptr>>, m: Name, b: Ptr): map<Name, set<Ptr>>
    requires m in ws
  {
    if ws[m] - {b} == {} then ws - {m} else ws[m := ws[m] - {b}]
  }

  lemma UnfileOneMore(ws: map<Name, set<Ptr>>, gone: set<Ptr>, b: Ptr, m: Name)
    requires m in ws && b in ws[m] && b !in gone
    requires forall n :: n in ws && b in ws[n] ==> n == m
    ensures var w := map n | n in ws && ws[n] - gone != {} :: ws[n] - gone;
      m in w && Unfiled(w, m, b) == map n | n in ws && ws[n] - (gone + {b}) != {} :: ws[n] - (gone + {b})
  {
    assert b in ws[m] - gone;
    assert ws[m] - (gone + {b}) == (ws[m] - gone) - {b};
    forall n | n in ws && n != m ensures ws[n] - (gone + {b}) == ws[n] - gone {
    }
  }

  /** The tables with one blackbox erased, as the loop of remove_file does it. */
  function Erased(t: Tables, b: Ptr): Tables
    requires b in t.storage && t.storage[b].name in t.wsModules
  {
    var m := t.storage[b].name;
    t.(storage := t.storage - {b},
       bbToPath := t.bbToPath - {b},
       prjModules := if m in t.prjModules && t.prjModules[m] == b then t.prjModules - {m} else t.prjModules,
       wsModules := Unfiled(t.wsModules, m, b))
  }

  /** A stored blackbox is filed under its own name and nowhere else. */
  ghost predicate FiledOnce(t: Tables, b: Ptr) {
    && b in t.storage && t.storage[b].name in t.wsModules && b in t.wsModules[t.storage[b].name]
    && (forall n :: n in t.wsModules && b in t.wsModules[n] ==> n == t.storage[b].name)
    && (forall n :: n in t.prjModules && t.prjModules[n] == b ==> n == t.storage[b].name)
  }

  lemma UnpublishOneMore(prj: map<Name, Ptr>, gone: set<Ptr>, b: Ptr, m: Name)
    requires forall n :: n in prj && prj[n] == b ==> n == m
    ensures var w := map n | n in prj && prj[n] !in gone :: prj[n];
      (if m in w && w[m] == b then w - {m} else w) == map n | n in prj && prj[n] !in gone + {b} :: prj[n]
  {
  }

  /** Erasing one more blackbox, table by table, is removing it from all of them. */
  lemma RemoveOneMore(t: Tables, gone: set<Ptr>, b: Ptr)
    requires FiledOnce(t, b) && b !in gone
    ensures var w := WithoutBoxes(t, gone);
      b in w.storage && w.storage[b].name in w.wsModules && WithoutBoxes(t, gone + {b}) == Erased(w, b)
  {
    UnfileOneMore(t.wsModules, gone, b, t.storage[b].name);
    UnpublishOneMore(t.prjModules, gone, b, t.storage[b].name);
    assert t.storage - (gone + {b}) == t.storage - gone - {b};
    assert t.bbToPath - (gone + {b}) == t.bbToPath - gone - {b};
  }

  function First(boxes: seq<Ptr>, i: nat): set<Ptr>
    requires i <= |boxes|
  {
    set k | 0 <= k < i :: boxes[k]
  }

  lemma NextBox(t: Tables, p: Path, i: nat)
    requires Coherent(t) && p in t.pathToBb && i < |t.pathToBb[p]|
    ensures var b := t.pathToBb[p][i];
      FiledOnce(t, b) && b !in First(t.pathToBb[p], i) && First(t.pathToBb[p], i + 1) == First(t.pathToBb[p], i) + {b}
  {
    var boxes := t.pathToBb[p];
    assert boxes[i] in t.bbToPath;
    forall k | 0 <= k < i ensures boxes[k] != boxes[i] {
      assert t.storage[t.pathToBb[p][k]].name != t.storage[t.pathToBb[p][i]].name;
    }
  }

  lemma EraseNext(t: Tables, p: Path, i: nat)
    requires Coherent(t) && p in t.pathToBb && i < |t.pathToBb[p]|
    ensures var b, w := t.pathToBb[p][i], WithoutBoxes(t, First(t.pathToBb[p], i));
      && b in w.storage && w.storage[b].name in w.wsModules
      && Erased(w, b) == WithoutBoxes(t, First(t.pathToBb[p], i + 1))
  {
    NextBox(t, p, i);
    RemoveOneMore(t, First(t.pathToBb[p], i), t.pathToBb[p][i]);
  }

  class DiplomatDocumentCache {
    var storage: map<Ptr, BlackBox>
    var prjFiles: set<Path>
    var wsFiles: set<Path>
    var stamps: map<Path, int>
    var pathToBb: map<Path, seq<Ptr>>
    var bbToPath: map<Ptr, Path>
    var prjModules: map<Name, Ptr>
    var wsModules: map<Name, set<Ptr>>

    ghost function Value(): Tables
      reads this
    {
      Tables(storage, prjFiles, wsFiles, stamps, pathToBb, bbToPath, prjModules, wsModules)
    }

    constructor ()
      ensures Value() == EMPTY && Coherent(Value())
    {
      storage, prjFiles, wsFiles, stamps := map[], {}, {}, map[];
      pathToBb, bbToPath, prjModules, wsModules := map[], map[], map[], map[];
      new;
      EmptyIsCoherent();
    }

    method BindBbAndPath(p: Path, bb: Option<Ptr>)
      modifies this`pathToBb, this`bbToPath
      ensures bb.None? ==> pathToBb == old(pathToBb)[p := []] && bbToPath == old(bbToPath)
      ensures bb.Some? ==>
        && pathToBb == old(pathToBb)[p := (if p in old(pathToBb) then old(pathToBb)[p] else []) + [bb.value]]
        && bbToPath == old(bbToPath)[bb.value := p]
    {
      match bb {
        case None => pathToBb := pathToBb[p := []];
        case Some(b) =>
          if p in pathToBb {
            pathToBb := pathToBb[p := pathToBb[p] + [b]];
          } else {
            assert [] + [b] == [b];
            pathToBb := pathToBb[p := [b]];
          }
          bbToPath := bbToPath[b := p];
      }
    }

    method ClearProject()
      requires Coherent(Value())
      modifies this`prjFiles, this`prjModules
      ensures Value() == Cleared(old(Value())) && Coherent(Value())
    {
      prjFiles := {};
      prjModules := map[];
    }

    method RecordFile(p: Path, inPrj: bool)
      requires Inverse(Value()) && !RecordFails(Value(), p, inPrj)
      modifies this`prjFiles, this`wsFiles, this`prjModules
      ensures Value() == Recorded(old(Value()), p, inPrj)
    {
      ghost var t := Value();
      if inPrj {
        prjFiles := prjFiles + {p};
      }
      var inserted := p !in wsFiles;
      wsFiles := wsFiles + {p};
      if inPrj && !inserted {
        var boxes := pathToBb[p];
        for i := 0 to |boxes|
          invariant Value() == t.(prjFiles := t.prjFiles + {p}, wsFiles := t.wsFiles + {p},
                                  prjModules := Published(t, boxes[..i]))
        {
          assert boxes[..i + 1][..i] == boxes[..i];
          assert boxes[i] in bbToPath;
          prjModules := prjModules[storage[boxes[i]].name := boxes[i]];
        }
        assert boxes[..|boxes|] == boxes;
      }
    }

    /** One round of the loop of remove_file. */
    method EraseBox(b: Ptr)
      requires b in storage && storage[b].name in wsModules
      modifies this`prjModules, this`bbToPath, this`wsModules, this`storage
      ensures Value() == Erased(old(Value()), b)
    {
      var modname := storage[b].name;
      if modname in prjModules && prjModules[modname] == b {
        prjModules := prjModules - {modname};
      }
      bbToPath := bbToPath - {b};
      ghost var ws := wsModules;
      wsModules := wsModules[modname := wsModules[modname] - {b}];
      if wsModules[modname] == {} {
        wsModules := wsModules - {modname};
        assert wsModules == ws - {modname};
      }
      storage := storage - {b};
    }

    method EraseBoxes(ghost t: Tables, p: Path)
      requires Value() == t && Coherent(t) && p in pathToBb
      modifies this`prjModules, this`bbToPath, this`wsModules, this`storage
      ensures Value() == WithoutBoxes(t, BoxesOf(t, p))
    {
      var boxes := pathToBb[p];
      WithoutNothing(t);
      assert First(boxes, 0) == {};
      for i := 0 to |boxes|
        invariant Value() == WithoutBoxes(t, First(boxes, i))
      {
        EraseNext(t, p, i);
        EraseBox(boxes[i]);
      }
    }

    method RemoveFile(p: Path)
      requires Coherent(Value())
      modifies this
      ensures Value() == Removed(old(Value()), p) && Coherent(Value())
    {
      ghost var t := Value();
      RemoveKeepsCoherence(t, p);
      if p in wsFiles {
        EraseBoxes(t, p);
        pathToBb := pathToBb - {p};
        prjFiles := prjFiles - {p};
        wsFiles := wsFiles - {p};
        stamps := stamps - {p};
      }
    }

    method ProcessFile(p: Path, inPrj: bool, src: Source)
      requires Coherent(Value())
      requires src.Present? ==> FreshParse(Removed(Value(), p).storage, src.found)
      modifies this
      ensures Value() == Processed(old(Value()), p, inPrj, src) && Coherent(Value())
    {
      ghost var t := Value();
      ProcessKeepsCoherence(t, p, inPrj, src);
      if src.Missing? {
        return;
      }
      var keep := inPrj;
      if p in stamps {
        if src.lastWrite <= stamps[p] {
          RecordFile(p, inPrj);
          return;
        }
        keep := p in prjFiles;
        RemoveFile(p);
      }
      ghost var base := Value();
      ProjectBranchIsDead(t, p, src);
      RemoveKeepsCoherence(t, p);
      LoadKeepsLoading(base, p, src);
      LoadParsed(p, src.found);
      stamps := stamps[p := src.now];
      assert Value() == Loaded(base, p, src);
      RecordFile(p, keep);
    }

    /** The modules found in a file, entered one by one. */
    method LoadParsed(p: Path, found: seq<(Ptr, BlackBox)>)
      requires p !in prjFiles
      modifies this`storage, this`wsModules, this`pathToBb, this`bbToPath
      ensures Value() == if found == [] then old(Value()).(pathToBb := old(pathToBb)[p := []])
                         else BoundAll(old(Value()), p, found)
    {
      ghost var t := Value();
      if found == [] {
        BindBbAndPath(p, None);
      } else {
        for i := 0 to |found|
          invariant Value() == BoundAll(t, p, found[..i])
        {
          assert found[..i + 1][..i] == found[..i];
          var (b, bb) := found[i];
          storage := storage[b := bb];
          if p in prjFiles {
            assert false;
          } else {
            assert {} + {b} == {b};
            if bb.name in wsModules {
              wsModules := wsModules[bb.name := wsModules[bb.name] + {b}];
            } else {
              wsModules := wsModules[bb.name := {b}];
            }
            BindBbAndPath(p, Some(b));
          }
        }
        assert found[..|found|] == found;
      }
    }

    method GetBbByModule(m: Name) returns (r: Option<Ptr>)
      requires Coherent(Value())
      ensures r == Lookup(Value(), m)
    {
      if m in prjModules {
        return Some(prjModules[m]);
      } else if m in wsModules {
        return Some(Least(wsModules[m]));
      } else {
        return None;
      }
    }
  }
}
