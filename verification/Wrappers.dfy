/** Optional values. */
module Wrappers {

  datatype Option<+T> = None | Some(value: T)
}

/** The first element of an ordered set of addresses. */
module Choice {

  lemma {:induction false} FindLeast(s: set<nat>) returns (r: nat)
    requires s != {}
    ensures r in s && forall x :: x in s ==> r <= x
  {
    r :| r in s;
    var rest := s - {r};
    assert forall x :: x in s ==> x == r || x in rest;
    if rest != {} {
      var d := FindLeast(rest);
      r := if d < r then d else r;
    }
  }

  lemma LeastExists(s: set<nat>)
    requires s != {}
    ensures exists r :: r in s && forall x :: x in s ==> r <= x
  {
    var r := FindLeast(s);
  }

  function Least(s: set<nat>): (r: nat)
    requires s != {}
    ensures r in s && forall x :: x in s ==> r <= x
  {
    LeastExists(s);
    var r :| r in s && forall x :: x in s ==> r <= x;
    r
  }
}

/** Decimal numerals. */
module Decimals {

  function Decimal(n: nat): (r: string)
    ensures r != "" && forall i :: 0 <= i < |r| ==> '0' <= r[i] <= '9'
  {
    (if n < 10 then "" else Decimal(n / 10)) + [('0' as int + n % 10) as char]
  }

  lemma {:induction false} DecimalInjective(m: nat, n: nat)
    requires Decimal(m) == Decimal(n)
    ensures m == n
  {
    var a, b := Decimal(m), Decimal(n);
    assert a[|a| - 1] == ('0' as int + m % 10) as char && b[|b| - 1] == ('0' as int + n % 10) as char;
    assert a[..|a| - 1] == (if m < 10 then "" else Decimal(m / 10));
    assert b[..|b| - 1] == (if n < 10 then "" else Decimal(n / 10));
    if m >= 10 && n >= 10 {
      DecimalInjective(m / 10, n / 10);
    }
  }

  predicate Digit(c: char) {
    '0' <= c <= '9'
  }

  /** The number that digits spell. */
  function NumberOf(s: string): nat
    requires forall i :: 0 <= i < |s| ==> Digit(s[i])
  {
    if s == "" then 0
    else
      assert Digit(s[|s| - 1]);
      10 * NumberOf(s[..|s| - 1]) + (s[|s| - 1] as int - '0' as int)
  }

  lemma {:induction false} DecimalReadsBack(n: nat)
    ensures NumberOf(Decimal(n)) == n
  {
    var d := Decimal(n);
    assert d[..|d| - 1] == (if n < 10 then "" else Decimal(n / 10));
    if n >= 10 {
      DecimalReadsBack(n / 10);
    }
  }
}
