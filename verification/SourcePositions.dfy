/** Positions in source files, and the lookups by position. */
module Positions {

  type File = string

  datatype Location = Location(file: File, line: nat, column: nat)

  datatype Range = Range(start: Location, end: Location)

  /** Line first, then column. */
  predicate Leq(a: Location, b: Location) {
    a.line < b.line || (a.line == b.line && a.column <= b.column)
  }

  predicate Less(a: Location, b: Location)
    ensures Less(a, b) <==> a.line < b.line || (a.line == b.line && a.column < b.column)
  {
    Leq(a, b) && !Leq(b, a)
  }

  /** The line and column tests of the code are inclusion in the order of positions. The file of
      the end of a range is not looked at. */
  predicate Contains(r: Range, l: Location)
    ensures Contains(r, l) <==> l.file == r.start.file && Leq(r.start, l) && Leq(l, r.end)
  {
    if l.file != r.start.file then false
    else if l.line < r.start.line || l.line > r.end.line then false
    else if l.line == r.start.line && l.column < r.start.column then false
    else !(l.line == r.end.line && l.column > r.end.column)
  }

  predicate ContainsRange(r: Range, s: Range)
    ensures ContainsRange(r, s) <==> s.start.file == r.start.file && Leq(r.start, s.start) && Leq(s.end, r.end)
  {
    if s.start.file != r.start.file then false
    else if s.start.line < r.start.line || s.end.line > r.end.line then false
    else if s.start.line == r.start.line && s.start.column < r.start.column then false
    else !(s.end.line == r.end.line && s.end.column > r.end.column)
  }

  /** For ranges within one file and in order, a range contains another exactly when it contains
      all of its positions. */
  lemma ContainsRangeIsInclusion(r: Range, s: Range)
    requires Ordered(s)
    ensures ContainsRange(r, s) <==> forall l :: Contains(s, l) ==> Contains(r, l)
  {
    if forall l :: Contains(s, l) ==> Contains(r, l) {
      assert Contains(s, s.start) && Contains(s, s.end);
    }
  }

  /** The range starts before it ends, in one file. */
  predicate Ordered(r: Range) {
    r.start.file == r.end.file && Leq(r.start, r.end)
  }

  ghost predicate Disjoint(r: Range, s: Range) {
    forall l :: !(Contains(r, l) && Contains(s, l))
  }
}

/** The references of a file, ordered by where they start. */
module PositionIndex {
  import opened Wrappers
  import opened Positions

  type SymbolId = nat

  datatype Record = Record(loc: Range, key: SymbolId, isDefinition: bool)

  /** A position map: strictly increasing starts. */
  ghost predicate Sorted(refs: seq<Record>) {
    forall i, j :: 0 <= i < j < |refs| ==> Less(refs[i].loc.start, refs[j].loc.start)
  }

  /** All the records of a file's map start in that file. */
  ghost predicate InFile(refs: seq<Record>, file: File) {
    forall i :: 0 <= i < |refs| ==> refs[i].loc.start.file == file
  }

  /** The first entry that starts after a position. */
  function UpperBound(refs: seq<Record>, l: Location): (n: nat)
    ensures n <= |refs|
  {
    if refs == [] || Leq(refs[|refs| - 1].loc.start, l) then |refs| else UpperBound(refs[..|refs| - 1], l)
  }

  lemma {:induction false} UpperBoundSplits(refs: seq<Record>, l: Location)
    requires Sorted(refs)
    ensures forall i :: 0 <= i < |refs| ==> (i < UpperBound(refs, l) <==> Leq(refs[i].loc.start, l))
  {
    if refs != [] && !Leq(refs[|refs| - 1].loc.start, l) {
      UpperBoundSplits(refs[..|refs| - 1], l);
      forall i | 0 <= i < |refs| ensures i < UpperBound(refs, l) <==> Leq(refs[i].loc.start, l) {
        if i < |refs| - 1 {
          assert refs[..|refs| - 1][i] == refs[i];
        }
      }
    }
  }

  /** The entry found by stepping back from the upper bound, if the position is within it. */
  function Found(refs: seq<Record>, l: Location): Option<nat> {
    var n := UpperBound(refs, l);
    if n == 0 then None else if Contains(refs[n - 1].loc, l) then Some(n - 1) else None
  }

  ghost predicate PairwiseDisjoint(refs: seq<Record>) {
    forall i, j :: 0 <= i < j < |refs| ==> Disjoint(refs[i].loc, refs[j].loc)
  }

  /** The lookup is a linear scan: it finds every record at each of its positions. */
  ghost predicate FindsAll(refs: seq<Record>) {
    forall i, l :: 0 <= i < |refs| && Contains(refs[i].loc, l) ==> Found(refs, l) == Some(i)
  }

  /** A record reaching past the start of a later one overlaps it. */
  lemma LaterStartOverlaps(refs: seq<Record>, file: File, i: nat, j: nat, l: Location)
    requires Sorted(refs) && InFile(refs, file) && i < j < |refs| && Ordered(refs[j].loc)
    requires Contains(refs[i].loc, l) && Leq(refs[j].loc.start, l)
    ensures !Disjoint(refs[i].loc, refs[j].loc)
  {
    assert Contains(refs[j].loc, refs[j].loc.start) && Contains(refs[i].loc, refs[j].loc.start);
  }

  /** It does so exactly when no two records overlap. */
  lemma LookupIsScanExactly(refs: seq<Record>, file: File)
    requires Sorted(refs) && InFile(refs, file) && forall i :: 0 <= i < |refs| ==> Ordered(refs[i].loc)
    ensures FindsAll(refs) <==> PairwiseDisjoint(refs)
  {
    if PairwiseDisjoint(refs) {
      forall i, l | 0 <= i < |refs| && Contains(refs[i].loc, l) ensures Found(refs, l) == Some(i) {
        UpperBoundSplits(refs, l);
        var j := UpperBound(refs, l) - 1;
        if i < j {
          LaterStartOverlaps(refs, file, i, j, l);
        }
      }
    } else {
      var i, j :| 0 <= i < j < |refs| && !Disjoint(refs[i].loc, refs[j].loc);
      var l :| Contains(refs[i].loc, l) && Contains(refs[j].loc, l);
      assert !(Found(refs, l) == Some(i) && Found(refs, l) == Some(j));
    }
  }

  /** What is found is right, whatever overlaps. */
  lemma FoundContains(refs: seq<Record>, l: Location)
    ensures Found(refs, l).Some? ==> Found(refs, l).value < |refs| && Contains(refs[Found(refs, l).value].loc, l)
  {
  }

  /** Insertion, refused when something already starts at the same position. */
  function Emplaced(refs: seq<Record>, r: Record): (seq<Record>, bool) {
    var n := UpperBound(refs, r.loc.start);
    if n > 0 && Leq(r.loc.start, refs[n - 1].loc.start) then (refs, false)
    else (refs[..n] + [r] + refs[n..], true)
  }

  lemma InsertAt(refs: seq<Record>, n: nat, r: Record, i: nat)
    requires n <= |refs| && i <= |refs|
    ensures (refs[..n] + [r] + refs[n..])[i] == if i < n then refs[i] else if i == n then r else refs[i - 1]
  {
  }

  lemma InsertKeepsElements(refs: seq<Record>, n: nat, r: Record)
    requires n <= |refs|
    ensures forall x :: x in refs[..n] + [r] + refs[n..] <==> x in refs || x == r
  {
    assert refs == refs[..n] + refs[n..];
  }

  lemma InsertKeepsSorted(refs: seq<Record>, n: nat, r: Record)
    requires Sorted(refs) && n <= |refs|
    requires n > 0 ==> Less(refs[n - 1].loc.start, r.loc.start)
    requires n < |refs| ==> Less(r.loc.start, refs[n].loc.start)
    ensures Sorted(refs[..n] + [r] + refs[n..])
  {
    var after := refs[..n] + [r] + refs[n..];
    forall i, j | 0 <= i < j < |after| ensures Less(after[i].loc.start, after[j].loc.start) {
      InsertAt(refs, n, r, i);
      InsertAt(refs, n, r, j);
    }
  }

  lemma EmplaceKeepsSorted(refs: seq<Record>, r: Record)
    requires Sorted(refs) && InFile(refs, r.loc.start.file)
    ensures var (after, ok) := Emplaced(refs, r);
      && Sorted(after) && InFile(after, r.loc.start.file)
      && (ok <==> forall i :: 0 <= i < |refs| ==> refs[i].loc.start != r.loc.start)
      && (forall x :: x in after <==> x in refs || (ok && x == r))
  {
    UpperBoundSplits(refs, r.loc.start);
    var n := UpperBound(refs, r.loc.start);
    if Emplaced(refs, r).1 {
      InsertKeepsElements(refs, n, r);
      InsertKeepsSorted(refs, n, r);
    } else {
      assert refs[n - 1].loc.start == r.loc.start;
    }
  }

  /** Some file has the record. */
  ghost predicate RecordedIn(references: map<File, seq<Record>>, x: Record) {
    exists f, i :: f in references && 0 <= i < |references[f]| && references[f][i] == x
  }

  /** The index of all files, with the reference sets kept by the symbols. */
  class IndexCore {
    var references: map<File, seq<Record>>
    var declarations: map<Range, SymbolId>
    var symbolRefs: map<SymbolId, set<Range>>

    ghost predicate Recorded(k: SymbolId, r: Range)
      reads this
    {
      RecordedIn(references, Record(r, k, false))
    }

    /** Every file's records are ordered, and each symbol knows exactly the records keyed to it that
        are not definitions, across all files. */
    ghost predicate Valid()
      reads this
    {
      && (forall f :: f in references ==> Sorted(references[f]) && InFile(references[f], f))
      && (forall f, i :: f in references && 0 <= i < |references[f]| ==> references[f][i].key in symbolRefs)
      && (forall d :: d in declarations ==> declarations[d] in symbolRefs)
      && (forall k, r :: k in symbolRefs ==> (r in symbolRefs[k] <==> Recorded(k, r)))
    }

    constructor ()
      ensures Valid() && references == map[] && symbolRefs == map[]
    {
      references, declarations, symbolRefs := map[], map[], map[];
    }

    function RefsOf(f: File): seq<Record>
      reads this
    {
      if f in references then references[f] else []
    }

    /** Adds a reference unless something already starts there. */
    method AddReference(k: SymbolId, range: Range, isDefinition: bool) returns (added: bool)
      requires Valid() && k in symbolRefs
      modifies this`references, this`symbolRefs
      ensures Valid()
      ensures references == old(references)[range.start.file := Emplaced(old(RefsOf(range.start.file)), Record(range, k, isDefinition)).0]
      ensures added <==> forall x :: x in old(RefsOf(range.start.file)) ==> x.loc.start != range.start
      ensures symbolRefs == if added && !isDefinition then old(symbolRefs)[k := old(symbolRefs)[k] + {range}] else old(symbolRefs)
    {
      var file, rec := range.start.file, Record(range, k, isDefinition);
      ghost var before := references;
      EmplaceKeepsSorted(RefsOf(file), rec);
      var (refs, ok) := Emplaced(RefsOf(file), rec);
      ghost var others := RefsOf(file);
      references := references[file := refs];
      if ok && !isDefinition {
        symbolRefs := symbolRefs[k := symbolRefs[k] + {range}];
      }
      added := ok;
      forall k', r ensures Recorded(k', r) <==>
        old(Recorded(k', r)) || (ok && !isDefinition && k' == k && r == range)
      {
        OneMoreRecord(before, references, file, others, rec, ok, Record(r, k', false));
      }
    }

    /** A declared symbol: the one already declared over the range, or a new one. */
    method AddSymbol(range: Range, newKey: SymbolId) returns (k: SymbolId)
      requires Valid() && newKey !in symbolRefs
      modifies this
      ensures Valid()
      ensures if range in old(declarations) then k == old(declarations)[range] && references == old(references) && symbolRefs == old(symbolRefs)
              else k == newKey && symbolRefs == old(symbolRefs)[newKey := {}]
                   && references == old(references)[range.start.file :=
                        Emplaced(old(RefsOf(range.start.file)), Record(range, newKey, true)).0]
      ensures declarations == old(declarations)[range := k]
    {
      if range in declarations {
        return declarations[range];
      }
      assert forall r :: !Recorded(newKey, r);
      symbolRefs := symbolRefs[newKey := {}];
      declarations := declarations[range := newKey];
      assert Valid();
      var _ := AddReference(newKey, range, true);
      return newKey;
    }

    method LookupSymbolByLocation(l: Location) returns (k: Option<SymbolId>)
      requires Valid()
      ensures var refs := RefsOf(l.file); var found := Found(refs, l);
        k == if found.None? then None else Some(refs[found.value].key)
    {
      var refs := RefsOf(l.file);
      var n := UpperBound(refs, l);
      if n == 0 {
        return None;
      }
      if Contains(refs[n - 1].loc, l) {
        return Some(refs[n - 1].key);
      }
      return None;
    }
  }

  lemma OneMoreRecord(before: map<File, seq<Record>>, after: map<File, seq<Record>>, file: File, others: seq<Record>,
                      rec: Record, ok: bool, x: Record)
    requires others == (if file in before then before[file] else [])
    requires file in after && after == before[file := after[file]]
    requires forall y :: y in after[file] <==> y in others || (ok && y == rec)
    ensures RecordedIn(after, x) <==> RecordedIn(before, x) || (ok && x == rec)
  {
    if f, i :| f in after && 0 <= i < |after[f]| && after[f][i] == x {
      if f == file {
        assert x in after[file];
        if x in others {
          var j :| 0 <= j < |others| && others[j] == x;
        }
      } else {
        assert before[f][i] == x;
      }
    }
    if f, i :| f in before && 0 <= i < |before[f]| && before[f][i] == x {
      if f == file {
        assert x in others && x in after[file];
        var j :| 0 <= j < |after[file]| && after[file][j] == x;
      } else {
        assert after[f][i] == x;
      }
    }
    if ok && x == rec {
      assert x in after[file];
      var j :| 0 <= j < |after[file]| && after[file][j] == x;
    }
  }
}
