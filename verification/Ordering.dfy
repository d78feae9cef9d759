/** Python's order of strings (by code point) and `sorted` over a set of them. */
module Ordering {
  predicate Less(a: string, b: string) {
    b != [] && (a == [] || a[0] < b[0] || (a[0] == b[0] && Less(a[1..], b[1..])))
  }

  lemma {:induction false} LessIsTransitive(a: string, b: string, c: string)
    requires Less(a, b) && Less(b, c)
    ensures Less(a, c)
  {
    if a != [] && a[0] == b[0] == c[0] {
      LessIsTransitive(a[1..], b[1..], c[1..]);
    }
  }

  lemma {:induction false} LessIsTotal(a: string, b: string)
    ensures Less(a, b) || a == b || Less(b, a)
    ensures !(Less(a, b) && (a == b || Less(b, a)))
  {
    if a != [] && b != [] && a[0] == b[0] {
      LessIsTotal(a[1..], b[1..]);
      assert a == [a[0]] + a[1..] && b == [b[0]] + b[1..];
    }
  }

  /** A proper prefix comes first. */
  lemma {:induction false} PrefixIsLess(a: string, b: string)
    requires a < b
    ensures Less(a, b)
  {
    if a != [] {
      assert a[0] == b[0];
      PrefixIsLess(a[1..], b[1..]);
    }
  }

  ghost predicate StrictlySorted(s: seq<string>) {
    forall i, j :: 0 <= i < j < |s| ==> Less(s[i], s[j])
  }

  lemma SortedIsDistinct(s: seq<string>)
    requires StrictlySorted(s)
    ensures forall i, j :: 0 <= i < j < |s| ==> s[i] != s[j]
  {
    forall i, j | 0 <= i < j < |s| ensures s[i] != s[j] {
      LessIsTotal(s[i], s[j]);
    }
  }

  lemma {:induction false} LeastExists(s: set<string>)
    requires s != {}
    ensures exists x :: x in s && forall y :: y in s && y != x ==> Less(x, y)
  {
    var x :| x in s;
    if s != {x} {
      var rest := s - {x};
      LeastExists(rest);
      var least :| least in rest && forall y :: y in rest && y != least ==> Less(least, y);
      LessIsTotal(least, x);
      if Less(x, least) {
        forall y | y in s && y != x ensures Less(x, y) {
          if y != least { LessIsTransitive(x, least, y); }
        }
      } else {
        forall y | y in s && y != least ensures Less(least, y) {
        }
      }
    }
  }

  ghost function Least(s: set<string>): (x: string)
    requires s != {}
    ensures x in s && forall y :: y in s && y != x ==> Less(x, y)
  {
    LeastExists(s);
    var x :| x in s && forall y :: y in s && y != x ==> Less(x, y);
    x
  }

  /** `sorted(s)` */
  ghost function Sorted(s: set<string>): (r: seq<string>)
    ensures forall x :: x in r <==> x in s
    ensures StrictlySorted(r)
  {
    if s == {} then []
    else
      var rest := Sorted(s - {Least(s)});
      assert forall k :: 0 <= k < |rest| ==> rest[k] in s - {Least(s)};
      [Least(s)] + rest
  }

  lemma HeadsAgree(a: seq<string>, b: seq<string>)
    requires StrictlySorted(a) && StrictlySorted(b) && a != [] && b != []
    requires forall x :: x in a <==> x in b
    ensures a[0] == b[0]
  {
    assert a[0] in b && b[0] in a;
    var i :| 0 <= i < |b| && b[i] == a[0];
    var j :| 0 <= j < |a| && a[j] == b[0];
    LessIsTotal(a[0], b[0]);
  }

  /** There is only one way to list a set in order. */
  lemma {:induction false} SortedIsUnique(a: seq<string>, b: seq<string>)
    requires StrictlySorted(a) && StrictlySorted(b)
    requires forall x :: x in a <==> x in b
    ensures a == b
  {
    assert a != [] ==> a[0] in b;
    assert b != [] ==> b[0] in a;
    if a != [] {
      SortedIsDistinct(a);
      SortedIsDistinct(b);
      HeadsAgree(a, b);
      forall x ensures x in a[1..] <==> x in b[1..] {
        assert x in a <==> x == a[0] || x in a[1..];
        assert x in b <==> x == b[0] || x in b[1..];
      }
      SortedIsUnique(a[1..], b[1..]);
    }
  }

  method LeastOf(s: set<string>) returns (x: string)
    requires s != {}
    ensures x == Least(s)
  {
    x :| x in s;
    var rest := s - {x};
    while rest != {}
      invariant rest <= s && x in s && x !in rest
      invariant forall y :: y in s && y !in rest && y != x ==> Less(x, y)
      decreases rest
    {
      var y :| y in rest;
      rest := rest - {y};
      LessIsTotal(y, x);
      if Less(y, x) {
        forall z | z in s && z !in rest && z != y ensures Less(y, z) {
          if z != x { LessIsTransitive(y, x, z); }
        }
        x := y;
      }
    }
    LessIsTotal(x, Least(s));
  }

  method SortSet(s: set<string>) returns (r: seq<string>)
    ensures r == Sorted(s)
  {
    r := [];
    var rest := s;
    while rest != {}
      invariant Sorted(s) == r + Sorted(rest)
      decreases rest
    {
      var x := LeastOf(rest);
      rest := rest - {x};
      r := r + [x];
    }
  }
}
