/** The search for the scope around a position. The scope of an instance has the text of its module
    and hangs below the scope that instantiates it, so a child is often elsewhere than its parent,
    and several scopes share one text. */
module InnermostScope {
  import opened Wrappers
  import opened Positions

  /** A scope as the search sees it: no names to resolve or parents to follow, only ranges, and the
      children in the order in which the table is walked. */
  datatype Scope = Scope(name: string, range: Option<Range>, children: seq<Scope>)

  predicate Covers(s: Scope, l: Location) {
    s.range.Some? && Contains(s.range.value, l)
  }

  /** get_scope_for_location, not deep. */
  function ScopeAt(s: Scope, l: Location): Option<Scope>
    decreases s, 1
  {
    if !Covers(s, l) then None
    else
      var inner := FirstAt(s.children, l);
      if inner.Some? then inner else Some(s)
  }

  /** The first answer along a list of scopes. */
  function FirstAt(scopes: seq<Scope>, l: Location): Option<Scope>
    decreases scopes, 0
  {
    if scopes == [] then None
    else
      var r := ScopeAt(scopes[0], l);
      if r.Some? then r else FirstAt(scopes[1..], l)
  }

  /** n is the scope itself or below it. */
  ghost predicate Within(n: Scope, s: Scope)
    decreases s
  {
    n == s || exists i :: 0 <= i < |s.children| && Within(n, s.children[i])
  }

  // -------------------------------------------------- where the search stops

  /** The scope is around the position, and none of its children is. */
  ghost predicate Stops(s: Scope, l: Location) {
    Covers(s, l) && forall i :: 0 <= i < |s.children| ==> !Covers(s.children[i], l)
  }

  lemma {:induction false} FirstAtIsSome(scopes: seq<Scope>, l: Location, i: nat)
    requires i < |scopes| && Covers(scopes[i], l)
    requires forall j :: 0 <= j < i ==> !Covers(scopes[j], l)
    ensures FirstAt(scopes, l) == ScopeAt(scopes[i], l) && ScopeAt(scopes[i], l).Some?
    decreases i
  {
    if i > 0 {
      FirstAtIsSome(scopes[1..], l, i - 1);
    }
  }

  lemma {:induction false} FirstAtIsNone(scopes: seq<Scope>, l: Location)
    requires forall j :: 0 <= j < |scopes| ==> !Covers(scopes[j], l)
    ensures FirstAt(scopes, l).None?
    decreases |scopes|
  {
    if scopes != [] {
      FirstAtIsNone(scopes[1..], l);
    }
  }

  /** The walk along a list is decided by the first scope around the position. */
  lemma FirstAtExactly(scopes: seq<Scope>, l: Location)
    ensures FirstAt(scopes, l).Some? <==> exists i :: 0 <= i < |scopes| && Covers(scopes[i], l)
    ensures FirstAt(scopes, l).Some? ==>
      exists i :: 0 <= i < |scopes| && Covers(scopes[i], l) && FirstAt(scopes, l) == ScopeAt(scopes[i], l)
  {
    if k: nat :| k < |scopes| && Covers(scopes[k], l) {
      var i := 0;
      while !Covers(scopes[i], l)
        invariant i <= k && forall j :: 0 <= j < i ==> !Covers(scopes[j], l)
        decreases k - i
      {
        i := i + 1;
      }
      FirstAtIsSome(scopes, l, i);
    } else {
      FirstAtIsNone(scopes, l);
    }
  }

  /** Whatever the ranges: the search from a scope finds something exactly when the scope is around
      the position, and what it finds is a place below where it has to stop. */
  lemma {:induction false} AnswerStops(s: Scope, l: Location)
    ensures ScopeAt(s, l).Some? <==> Covers(s, l)
    ensures ScopeAt(s, l).Some? ==> Within(ScopeAt(s, l).value, s) && Stops(ScopeAt(s, l).value, l)
    decreases s
  {
    if Covers(s, l) {
      FirstAtExactly(s.children, l);
      if FirstAt(s.children, l).Some? {
        var i :| 0 <= i < |s.children| && Covers(s.children[i], l) && FirstAt(s.children, l) == ScopeAt(s.children[i], l);
        AnswerStops(s.children[i], l);
      }
    }
  }

  /** A place where the search has to stop is its own answer. */
  lemma StopIsAnswer(s: Scope, l: Location)
    requires Stops(s, l)
    ensures ScopeAt(s, l) == Some(s)
  {
    FirstAtIsNone(s.children, l);
  }

  // --------------------------------------------------------- inside one tree

  /** Around a position of a scope, a child is around it too when anything below the child is, and no
      two children are. Children may lie elsewhere, as instances do. */
  ghost predicate Followed(s: Scope)
    decreases s
  {
    && (forall i :: 0 <= i < |s.children| ==> Followed(s.children[i]))
    && (forall i, n, l :: 0 <= i < |s.children| && Within(n, s.children[i]) && Covers(n, l) && Covers(s, l) ==>
          Covers(s.children[i], l))
    && (forall i, j, l :: 0 <= i < j < |s.children| && Covers(s, l) ==> !(Covers(s.children[i], l) && Covers(s.children[j], l)))
  }

  /** r is the smallest scope below s around the position: every other one around it holds r. */
  ghost predicate Innermost(r: Scope, s: Scope, l: Location) {
    Within(r, s) && Covers(r, l) && forall n :: Within(n, s) && Covers(n, l) ==> Within(r, n)
  }

  /** The search finds the innermost scope, and finds nothing only where the scope itself is not. */
  lemma {:induction false} ScopeAtIsInnermost(s: Scope, l: Location)
    requires Followed(s)
    ensures ScopeAt(s, l).Some? <==> Covers(s, l)
    ensures ScopeAt(s, l).Some? ==> Innermost(ScopeAt(s, l).value, s, l)
    decreases s
  {
    if Covers(s, l) {
      if i :| 0 <= i < |s.children| && Covers(s.children[i], l) {
        ScopeAtIsInnermost(s.children[i], l);
        FirstAtIsSome(s.children, l, i);
        var r := ScopeAt(s.children[i], l).value;
        forall n | Within(n, s) && Covers(n, l) ensures Within(r, n) {
          if n != s {
            var j :| 0 <= j < |s.children| && Within(n, s.children[j]);
            assert Covers(s.children[j], l);
            assert j == i;
          }
        }
      } else {
        FirstAtIsNone(s.children, l);
      }
    }
  }

  /** Two scopes of one text with the same scopes at the same places below, in any order. */
  ghost predicate Twins(s: Scope, s': Scope)
    decreases s, 1
  {
    && s.range == s'.range
    && (forall i :: 0 <= i < |s.children| ==> TwinAmong(s.children[i], s'.children))
    && (forall j :: 0 <= j < |s'.children| ==> TwinOf(s.children, s'.children[j]))
  }

  ghost predicate TwinAmong(s: Scope, scopes: seq<Scope>)
    decreases s, 2
  {
    exists j :: 0 <= j < |scopes| && Twins(s, scopes[j])
  }

  ghost predicate TwinOf(scopes: seq<Scope>, s': Scope)
    decreases scopes, 0
  {
    exists i :: 0 <= i < |scopes| && Twins(scopes[i], s')
  }

  lemma {:induction false} TwinWithin(n: Scope, s: Scope, s': Scope) returns (n': Scope)
    requires Within(n, s) && Twins(s, s')
    ensures Within(n', s') && Twins(n, n')
    decreases s
  {
    if n == s {
      n' := s';
    } else {
      var i :| 0 <= i < |s.children| && Within(n, s.children[i]);
      assert TwinAmong(s.children[i], s'.children);
      var j :| 0 <= j < |s'.children| && Twins(s.children[i], s'.children[j]);
      n' := TwinWithin(n, s.children[i], s'.children[j]);
    }
  }

  lemma TwinStops(s: Scope, s': Scope, l: Location)
    requires Twins(s, s') && Stops(s, l)
    ensures Stops(s', l)
  {
    forall j | 0 <= j < |s'.children| ensures !Covers(s'.children[j], l) {
      assert TwinOf(s.children, s'.children[j]);
    }
  }

  lemma {:induction false} FollowedBelow(n: Scope, s: Scope)
    requires Followed(s) && Within(n, s)
    ensures Followed(n)
    decreases s
  {
    if n != s {
      var i :| 0 <= i < |s.children| && Within(n, s.children[i]);
      FollowedBelow(n, s.children[i]);
    }
  }

  /** Below a place where the search stops, nothing is around the position. */
  lemma NothingBelowAStop(n: Scope, s: Scope, l: Location)
    requires Followed(s) && Stops(s, l) && Within(n, s) && Covers(n, l)
    ensures n == s
  {
  }

  /** The order in which the children of scopes are walked, at any level, does not matter: both
      answers have the same range. */
  lemma ChildOrderIrrelevant(s: Scope, s': Scope, l: Location)
    requires Followed(s') && Twins(s, s')
    ensures ScopeAt(s, l).Some? <==> ScopeAt(s', l).Some?
    ensures ScopeAt(s, l).Some? ==> ScopeAt(s, l).value.range == ScopeAt(s', l).value.range
  {
    AnswerStops(s, l);
    AnswerStops(s', l);
    if Covers(s, l) {
      var r, r' := ScopeAt(s, l).value, ScopeAt(s', l).value;
      ScopeAtIsInnermost(s', l);
      var n := TwinWithin(r, s, s');
      TwinStops(r, n, l);
      FollowedBelow(n, s');
      NothingBelowAStop(r', n, l);
    }
  }

  // ------------------------------------------------------ scopes of a file

  /** The scopes registered for a file: each child around a position of its parent is among them. */
  ghost predicate Registered(scopes: seq<Scope>) {
    forall s, i, l :: s in scopes && 0 <= i < |s.children| && Covers(s, l) && Covers(s.children[i], l) ==> s.children[i] in scopes
  }

  lemma {:induction false} AnswerIsRegistered(scopes: seq<Scope>, s: Scope, l: Location)
    requires Registered(scopes) && s in scopes && Covers(s, l)
    ensures ScopeAt(s, l).Some? && ScopeAt(s, l).value in scopes && Stops(ScopeAt(s, l).value, l)
    decreases s
  {
    AnswerStops(s, l);
    FirstAtExactly(s.children, l);
    if FirstAt(s.children, l).Some? {
      var i :| 0 <= i < |s.children| && Covers(s.children[i], l) && FirstAt(s.children, l) == ScopeAt(s.children[i], l);
      AnswerIsRegistered(scopes, s.children[i], l);
    }
  }

  /** Some order in which the table of registered scopes may be walked. */
  ghost predicate Order(order: seq<Scope>, scopes: seq<Scope>) {
    multiset(order) == multiset(scopes)
  }

  lemma OrderHolds(order: seq<Scope>, scopes: seq<Scope>, s: Scope)
    requires Order(order, scopes)
    ensures s in order <==> s in scopes
  {
    assert s in order <==> s in multiset(order);
    assert s in scopes <==> s in multiset(scopes);
  }

  /** Any registered scope may come first. */
  lemma AnyFirst(scopes: seq<Scope>, s: Scope) returns (order: seq<Scope>)
    requires s in scopes
    ensures Order(order, scopes) && order != [] && order[0] == s
  {
    var i :| 0 <= i < |scopes| && scopes[i] == s;
    order := [s] + (scopes[..i] + scopes[i + 1..]);
    assert scopes == scopes[..i] + ([s] + scopes[i + 1..]);
  }

  /** Whatever the order, the lookup answers with a registered scope where the search stops; it
      answers exactly when some registered scope is around the position. */
  lemma LookupStops(order: seq<Scope>, scopes: seq<Scope>, l: Location)
    requires Registered(scopes) && Order(order, scopes)
    ensures FirstAt(order, l).Some? <==> exists s :: s in scopes && Covers(s, l)
    ensures FirstAt(order, l).Some? ==> FirstAt(order, l).value in scopes && Stops(FirstAt(order, l).value, l)
  {
    FirstAtExactly(order, l);
    if FirstAt(order, l).Some? {
      var i :| 0 <= i < |order| && Covers(order[i], l) && FirstAt(order, l) == ScopeAt(order[i], l);
      OrderHolds(order, scopes, order[i]);
      AnswerIsRegistered(scopes, order[i], l);
    }
    if s :| s in scopes && Covers(s, l) {
      OrderHolds(order, scopes, s);
      var i :| 0 <= i < |order| && order[i] == s;
    }
  }

  /** And every such scope is the answer in some order. */
  lemma StopsAreAnswers(scopes: seq<Scope>, s: Scope, l: Location) returns (order: seq<Scope>)
    requires s in scopes && Stops(s, l)
    ensures Order(order, scopes) && FirstAt(order, l) == Some(s)
  {
    order := AnyFirst(scopes, s);
    StopIsAnswer(s, l);
    FirstAtIsSome(order, l, 0);
  }

  /** No position of the first is outside the second. */
  ghost predicate Inside(a: Scope, b: Scope) {
    forall l :: Covers(a, l) ==> Covers(b, l)
  }

  ghost predicate SameText(a: Scope, b: Scope) {
    Inside(a, b) && Inside(b, a)
  }

  /** Scopes over the same text have the same range, when ranges are in order within one file. */
  lemma SameTextSameRange(a: Scope, b: Scope)
    requires a.range.Some? && b.range.Some? && Ordered(a.range.value) && Ordered(b.range.value)
    ensures SameText(a, b) <==> a.range == b.range
  {
    if SameText(a, b) {
      assert Covers(a, a.range.value.start) && Covers(a, a.range.value.end);
      assert Covers(b, b.range.value.start) && Covers(b, b.range.value.end);
    }
  }

  /** No registered scope around the position is narrower. */
  ghost predicate Narrowest(r: Scope, scopes: seq<Scope>, l: Location) {
    Covers(r, l) && forall n :: n in scopes && Covers(n, l) ==> Inside(r, n)
  }

  /** Around a position, a scope that is not inside another one has a child. */
  ghost predicate ChildrenHoldNarrower(scopes: seq<Scope>) {
    forall t, n, l :: t in scopes && n in scopes && Covers(t, l) && Covers(n, l) && !Inside(t, n) ==> !Stops(t, l)
  }

  ghost predicate AlwaysNarrowest(scopes: seq<Scope>) {
    forall order, l :: Order(order, scopes) && FirstAt(order, l).Some? ==> Narrowest(FirstAt(order, l).value, scopes, l)
  }

  /** The lookup in a file gives the smallest scope around every position, whatever the order of the
      table, exactly when no scope has a narrower one of the file at a place its children leave out. */
  lemma LookupNarrowestExactly(scopes: seq<Scope>)
    requires Registered(scopes)
    ensures AlwaysNarrowest(scopes) <==> ChildrenHoldNarrower(scopes)
  {
    if ChildrenHoldNarrower(scopes) {
      forall order, l | Order(order, scopes) && FirstAt(order, l).Some? ensures Narrowest(FirstAt(order, l).value, scopes, l) {
        LookupStops(order, scopes, l);
      }
    }
    if AlwaysNarrowest(scopes) {
      forall t, n, l | t in scopes && n in scopes && Stops(t, l) && Covers(n, l) ensures Inside(t, n) {
        var order := StopsAreAnswers(scopes, t, l);
        assert Narrowest(FirstAt(order, l).value, scopes, l);
      }
    }
  }

  ghost predicate OneText(scopes: seq<Scope>) {
    forall order, order', l :: Order(order, scopes) && Order(order', scopes) && FirstAt(order, l).Some? && FirstAt(order', l).Some? ==>
      SameText(FirstAt(order, l).value, FirstAt(order', l).value)
  }

  ghost predicate StopsAgree(scopes: seq<Scope>) {
    forall t, t', l :: t in scopes && t' in scopes && Stops(t, l) && Stops(t', l) ==> SameText(t, t')
  }

  /** The order of the table does not matter exactly when any two scopes where the search can stop
      around a position cover the same text. */
  lemma OrderIrrelevantExactly(scopes: seq<Scope>)
    requires Registered(scopes)
    ensures OneText(scopes) <==> StopsAgree(scopes)
  {
    if StopsAgree(scopes) {
      forall order, order', l | Order(order, scopes) && Order(order', scopes) && FirstAt(order, l).Some? && FirstAt(order', l).Some?
        ensures SameText(FirstAt(order, l).value, FirstAt(order', l).value)
      {
        LookupStops(order, scopes, l);
        LookupStops(order', scopes, l);
      }
    }
    if OneText(scopes) {
      forall t, t', l | t in scopes && t' in scopes && Stops(t, l) && Stops(t', l) ensures SameText(t, t') {
        var order := StopsAreAnswers(scopes, t, l);
        var order' := StopsAreAnswers(scopes, t', l);
        assert SameText(FirstAt(order, l).value, FirstAt(order', l).value);
      }
    }
  }

  // ------------------------------------------------ trees of the usual shape

  /** Scopes around a position lie one within the other, or are twins, as instances of one module are. */
  ghost predicate Related(scopes: seq<Scope>) {
    && (forall s :: s in scopes ==> Followed(s))
    && (forall s, t, l :: s in scopes && t in scopes && Covers(s, l) && Covers(t, l) ==> Within(s, t) || Within(t, s) || Twins(s, t))
  }

  lemma StopsHaveOneRange(scopes: seq<Scope>, s: Scope, t: Scope, l: Location)
    requires Related(scopes) && s in scopes && t in scopes && Stops(s, l) && Stops(t, l)
    ensures s.range == t.range
  {
    if Within(s, t) {
      NothingBelowAStop(s, t, l);
    } else if Within(t, s) {
      NothingBelowAStop(t, s, l);
    }
  }

  /** Whatever registered scope the walk meets first around a position, its answer has the range of a
      scope that is within every scope around the position below any other registered one. */
  lemma AnswerIsInnermostOfFile(scopes: seq<Scope>, s: Scope, t: Scope, l: Location)
    requires Registered(scopes) && Related(scopes) && s in scopes && t in scopes && Covers(s, l) && Covers(t, l)
    ensures ScopeAt(s, l).Some? && ScopeAt(t, l).Some? && ScopeAt(s, l).value.range == ScopeAt(t, l).value.range
    ensures forall n :: Within(n, t) && Covers(n, l) ==> Within(ScopeAt(t, l).value, n)
  {
    AnswerIsRegistered(scopes, s, l);
    AnswerIsRegistered(scopes, t, l);
    StopsHaveOneRange(scopes, ScopeAt(s, l).value, ScopeAt(t, l).value, l);
    ScopeAtIsInnermost(t, l);
  }

  /** Any two orders of the table give answers of the same range. */
  lemma LookupIgnoresOrder(scopes: seq<Scope>, order: seq<Scope>, order': seq<Scope>, l: Location)
    requires Registered(scopes) && Related(scopes) && Order(order, scopes) && Order(order', scopes)
    ensures FirstAt(order, l).Some? <==> FirstAt(order', l).Some?
    ensures FirstAt(order, l).Some? ==> FirstAt(order, l).value.range == FirstAt(order', l).value.range
  {
    LookupStops(order, scopes, l);
    LookupStops(order', scopes, l);
    if FirstAt(order, l).Some? {
      StopsHaveOneRange(scopes, FirstAt(order, l).value, FirstAt(order', l).value, l);
    }
  }

  // --------------------------------------------------------------- examples

  function Lines(first: nat, last: nat): Option<Range> {
    Some(Range(Location("f.sv", first, 0), Location("f.sv", last, 0)))
  }

  const SUB := Scope("sub_i", Lines(20, 30), [])
  const OTHER_SUB := Scope("other_i", Lines(20, 30), [])
  const MID := Scope("mid_i", Lines(11, 19), [SUB])
  const TOP := Scope("top", Lines(1, 10), [MID, OTHER_SUB])

  lemma WithinLeaf(n: Scope, s: Scope)
    requires Within(n, s) && s.children == []
    ensures n == s
  {
  }

  lemma WithinMid(n: Scope)
    requires Within(n, MID)
    ensures n == MID || n == SUB
  {
    if n != MID {
      var i :| 0 <= i < |MID.children| && Within(n, MID.children[i]);
      WithinLeaf(n, SUB);
    }
  }

  lemma TopIsFollowed()
    ensures Followed(SUB) && Followed(OTHER_SUB) && Followed(MID) && Followed(TOP)
  {
    assert MID.children[0] == SUB && TOP.children[0] == MID && TOP.children[1] == OTHER_SUB;
    assert Followed(SUB) && Followed(OTHER_SUB);
    assert Followed(MID);
    forall i, n, l | 0 <= i < |TOP.children| && Within(n, TOP.children[i]) && Covers(n, l) && Covers(TOP, l)
      ensures Covers(TOP.children[i], l)
    {
      if i == 0 {
        WithinMid(n);
      } else {
        WithinLeaf(n, OTHER_SUB);
      }
    }
  }

  lemma TopFilesScopes()
    ensures Registered([TOP, MID, SUB, OTHER_SUB])
  {
    assert MID.children[0] == SUB && TOP.children[0] == MID && TOP.children[1] == OTHER_SUB;
  }

  lemma TopScopesRelated()
    ensures Related([TOP, MID, SUB, OTHER_SUB])
  {
    TopIsFollowed();
    assert Twins(SUB, OTHER_SUB) && Twins(OTHER_SUB, SUB);
  }

  lemma TopHoldsNarrower()
    ensures ChildrenHoldNarrower([TOP, MID, SUB, OTHER_SUB])
  {
    assert Inside(SUB, OTHER_SUB) && Inside(OTHER_SUB, SUB);
  }

  /** Modules instantiated elsewhere in the file, one of them twice: the search is right. */
  lemma InstancesElsewhere()
    ensures var scopes := [TOP, MID, SUB, OTHER_SUB]; Registered(scopes) && Related(scopes) && ChildrenHoldNarrower(scopes)
  {
    TopFilesScopes();
    TopScopesRelated();
    TopHoldsNarrower();
  }

  const BLOCK := Scope("g", Lines(3, 5), [])
  const WITH_BLOCK := Scope("u", Lines(1, 9), [BLOCK])
  const WITHOUT_BLOCK := Scope("u", Lines(1, 9), [])
  const FIRST_HOST := Scope("p", Lines(11, 13), [WITH_BLOCK])
  const SECOND_HOST := Scope("q", Lines(15, 17), [WITHOUT_BLOCK])
  const HOSTS := Scope("top", Lines(19, 25), [FIRST_HOST, SECOND_HOST])

  /** All scopes of the file, in one order of the table and in the opposite one. */
  const ONE_ORDER := [HOSTS, FIRST_HOST, WITH_BLOCK, BLOCK, SECOND_HOST, WITHOUT_BLOCK]
  const OTHER_ORDER := [WITHOUT_BLOCK, SECOND_HOST, BLOCK, WITH_BLOCK, FIRST_HOST, HOSTS]

  lemma BlockStops()
    ensures var l := Location("f.sv", 4, 0);
      ScopeAt(WITH_BLOCK, l) == Some(BLOCK) && Stops(BLOCK, l) && Stops(WITHOUT_BLOCK, l) && !Inside(WITHOUT_BLOCK, BLOCK)
  {
    var l, first := Location("f.sv", 4, 0), Location("f.sv", 1, 0);
    assert WITH_BLOCK.children[0] == BLOCK;
    StopIsAnswer(BLOCK, l);
    FirstAtIsSome(WITH_BLOCK.children, l, 0);
    assert Covers(WITHOUT_BLOCK, first) && !Covers(BLOCK, first);
  }

  lemma HostsAreRegistered()
    ensures Registered(ONE_ORDER)
  {
    assert HOSTS.children[0] == FIRST_HOST && HOSTS.children[1] == SECOND_HOST;
    assert FIRST_HOST.children[0] == WITH_BLOCK && SECOND_HOST.children[0] == WITHOUT_BLOCK && WITH_BLOCK.children[0] == BLOCK;
  }

  lemma OrdersAreOrders()
    ensures Order(OTHER_ORDER, ONE_ORDER)
  {
  }

  lemma StopsDisagree(scopes: seq<Scope>, t: Scope, t': Scope, l: Location)
    requires t in scopes && t' in scopes && Stops(t, l) && Stops(t', l) && !Inside(t', t)
    ensures !StopsAgree(scopes) && !ChildrenHoldNarrower(scopes)
  {
  }

  lemma OrdersDiffer()
    ensures var l := Location("f.sv", 4, 0);
      FirstAt(ONE_ORDER, l) == Some(BLOCK) && FirstAt(OTHER_ORDER, l) == Some(WITHOUT_BLOCK)
  {
    var l := Location("f.sv", 4, 0);
    BlockStops();
    StopIsAnswer(WITHOUT_BLOCK, l);
    FirstAtIsSome(ONE_ORDER, l, 2);
    FirstAtIsSome(OTHER_ORDER, l, 0);
  }

  /** Two instances of one module below different parents, of which a parameter gives only one a
      generate block: the lookup inside the block depends on the order of the table. */
  lemma ParametersDecide()
    ensures Registered(ONE_ORDER) && Order(OTHER_ORDER, ONE_ORDER)
    ensures var l := Location("f.sv", 4, 0);
      FirstAt(ONE_ORDER, l) == Some(BLOCK) && FirstAt(OTHER_ORDER, l) == Some(WITHOUT_BLOCK)
    ensures !StopsAgree(ONE_ORDER) && !ChildrenHoldNarrower(ONE_ORDER)
  {
    HostsAreRegistered();
    OrdersAreOrders();
    OrdersDiffer();
    BlockStops();
    assert ONE_ORDER[3] in ONE_ORDER && ONE_ORDER[5] in ONE_ORDER;
    StopsDisagree(ONE_ORDER, BLOCK, WITHOUT_BLOCK, Location("f.sv", 4, 0));
  }
}
