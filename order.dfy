/** Python's ordering of `str` values (code point by code point, a proper prefix first)
    and the two ways the services turn a set into a list: `sorted(...)`, and
    `list(set(...))`, whose order Python leaves to hashing. */
module Order {

  /** Python's `a < b` on strings. */
  predicate Less(a: string, b: string)
  {
    if |a| == 0 then |b| > 0
    else if |b| == 0 then false
    else if a[0] != b[0] then a[0] < b[0]
    else Less(a[1..], b[1..])
  }

  lemma {:induction false} LessIrreflexive(a: string)
    ensures !Less(a, a)
  {
    if |a| > 0 { LessIrreflexive(a[1..]); }
  }

  lemma {:induction false} LessTransitive(a: string, b: string, c: string)
    requires Less(a, b) && Less(b, c)
    ensures Less(a, c)
  {
    if |a| > 0 && |b| > 0 && |c| > 0 && a[0] == b[0] && b[0] == c[0] {
      LessTransitive(a[1..], b[1..], c[1..]);
    }
  }

  lemma {:induction false} LessTotal(a: string, b: string)
    requires a != b
    ensures Less(a, b) || Less(b, a)
  {
    if |a| > 0 && |b| > 0 && a[0] == b[0] {
      assert a == [a[0]] + a[1..] && b == [b[0]] + b[1..];
      LessTotal(a[1..], b[1..]);
    }
  }

  lemma {:induction false} LessAsymmetric(a: string, b: string)
    requires Less(a, b)
    ensures !Less(b, a)
  {
    if |a| > 0 && |b| > 0 && a[0] == b[0] {
      LessAsymmetric(a[1..], b[1..]);
    }
  }

  predicate StrictlySorted(s: seq<string>)
  {
    forall i, j :: 0 <= i < j < |s| ==> Less(s[i], s[j])
  }

  predicate Distinct<T(==)>(s: seq<T>)
  {
    forall i, j :: 0 <= i < j < |s| ==> s[i] != s[j]
  }

  lemma SortedIsDistinct(s: seq<string>)
    requires StrictlySorted(s)
    ensures Distinct(s)
  {
    forall i, j | 0 <= i < j < |s| ensures s[i] != s[j] {
      if s[i] == s[j] { LessIrreflexive(s[i]); }
    }
  }

  /** Puts `x` at its place in a sorted list. */
  function Insert(s: seq<string>, x: string): (r: seq<string>)
    requires StrictlySorted(s) && x !in s
    ensures StrictlySorted(r)
    ensures |r| == |s| + 1
    ensures forall y :: y in r <==> y in s || y == x
  {
    if |s| == 0 then [x]
    else if Less(x, s[0]) then
      FirstIsLeast(s, x);
      [x] + s
    else
      LessTotal(x, s[0]);
      var t := Insert(s[1..], x);
      assert forall y :: y in t ==> Less(s[0], y) by {
        forall y | y in t ensures Less(s[0], y) {
          if y != x { var k :| 0 <= k < |s[1..]| && s[1..][k] == y; assert s[k + 1] == y; }
        }
      }
      [s[0]] + t
  }

  lemma FirstIsLeast(s: seq<string>, x: string)
    requires StrictlySorted(s) && |s| > 0 && Less(x, s[0])
    ensures StrictlySorted([x] + s)
  {
    forall j | 1 <= j < |s| + 1 ensures Less(([x] + s)[0], ([x] + s)[j]) {
      if j > 1 { LessTransitive(x, s[0], s[j - 1]); }
    }
  }

  /** Two sorted lists with the same elements are the same list. */
  lemma {:induction false} SortedUnique(a: seq<string>, b: seq<string>)
    requires StrictlySorted(a) && StrictlySorted(b)
    requires forall y :: y in a <==> y in b
    ensures a == b
  {
    assert |a| > 0 ==> a[0] in b;
    assert |b| > 0 ==> b[0] in a;
    if |a| > 0 && |b| > 0 {
      assert a[0] in b;
      var k :| 0 <= k < |b| && b[k] == a[0];
      assert b[0] in a;
      var m :| 0 <= m < |a| && a[m] == b[0];
      if k > 0 && m > 0 {
        LessAsymmetric(b[0], a[0]);
        assert false;
      }
      assert a[0] == b[0];
      forall y ensures y in a[1..] <==> y in b[1..] {
        if y in a[1..] {
          var i :| 0 <= i < |a[1..]| && a[1..][i] == y;
          assert Less(a[0], y);
          LessIrreflexive(y);
          assert a[i + 1] == y && y in a && y in b;
          var j :| 0 <= j < |b| && b[j] == y;
          assert j != 0;
          assert b[1..][j - 1] == y;
        }
        if y in b[1..] {
          var i :| 0 <= i < |b[1..]| && b[1..][i] == y;
          assert Less(b[0], y);
          LessIrreflexive(y);
          assert b[i + 1] == y && y in b && y in a;
          var j :| 0 <= j < |a| && a[j] == y;
          assert j != 0;
          assert a[1..][j - 1] == y;
        }
      }
      SortedUnique(a[1..], b[1..]);
      assert a == [a[0]] + a[1..] && b == [b[0]] + b[1..];
    }
  }

  /** A sequence with no members is empty. */
  lemma NoMembersEmpty<T>(r: seq<T>)
    requires forall y :: y !in r
    ensures r == []
  {
    if r != [] {
      HeadIsMember(r);
      assert false;
    }
  }

  lemma HeadIsMember<T>(r: seq<T>)
    requires r != []
    ensures r[0] in r
  {
  }

  /** `sorted(items)` for a set of strings: ascending, with every element once. */
  method SortedList(items: set<string>) returns (r: seq<string>)
    ensures StrictlySorted(r)
    ensures forall y :: y in r <==> y in items
    ensures |r| == |items|
  {
    r := [];
    var rest := items;
    while rest != {}
      invariant StrictlySorted(r)
      invariant forall y :: y in r <==> y in items && y !in rest
      invariant rest <= items
      invariant |r| + |rest| == |items|
      decreases |rest|
    {
      var x :| x in rest;
      r := Insert(r, x);
      rest := rest - {x};
    }
  }

  /** `list(s)` for a set: every element once, in an order the model leaves open. */
  method ListOfSet<T>(items: set<T>) returns (r: seq<T>)
    ensures Distinct(r)
    ensures forall y :: y in r <==> y in items
    ensures |r| == |items|
  {
    r := [];
    var rest := items;
    while rest != {}
      invariant Distinct(r)
      invariant forall y :: y in r <==> y in items && y !in rest
      invariant rest <= items
      invariant |r| + |rest| == |items|
      decreases |rest|
    {
      var x :| x in rest;
      r := r + [x];
      rest := rest - {x};
    }
  }
}
