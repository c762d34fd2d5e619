/** Sorting a finite set under a strict total order, and the order text sorts in. */
module Sorting {

  /** Whether `below` orders the members of `s` strictly and totally. */
  ghost predicate Orders<T>(below: (T, T) -> bool, s: set<T>) {
    && (forall a | a in s :: !below(a, a))
    && (forall a, b | a in s && b in s && a != b :: below(a, b) || below(b, a))
    && (forall a, b, c | a in s && b in s && c in s && below(a, b) && below(b, c) :: below(a, c))
  }

  ghost predicate IsLeast<T>(below: (T, T) -> bool, x: T, s: set<T>) {
    x in s && forall y | y in s && y != x :: below(x, y)
  }

  lemma LeastExists<T>(below: (T, T) -> bool, s: set<T>)
    requires Orders(below, s)
    requires s != {}
    ensures exists x :: x in s && IsLeast(below, x, s)
  {
    var x :| x in s;
    if s == {x} {
      assert IsLeast(below, x, s);
    } else {
      LeastExists(below, s - {x});
      var y :| y in s - {x} && IsLeast(below, y, s - {x});
      var least := if below(x, y) then x else y;
      forall z | z in s && z != least
        ensures below(least, z)
      {
        assert z == x || z in s - {x};
      }
      assert IsLeast(below, least, s);
    }
  }

  function Least<T(!new,==)>(below: (T, T) -> bool, s: set<T>): (x: T)
    requires Orders(below, s)
    requires s != {}
    ensures IsLeast(below, x, s)
  {
    LeastExists(below, s);
    var x :| x in s && forall y | y in s && y != x :: below(x, y);
    x
  }

  /** The members of `s`, lowest first. */
  function Sorted<T(!new,==)>(below: (T, T) -> bool, s: set<T>): (r: seq<T>)
    requires Orders(below, s)
    ensures |r| == |s|
    ensures forall x :: x in r <==> x in s
    ensures forall i, j | 0 <= i < j < |r| :: below(r[i], r[j])
    decreases |s|
  {
    if s == {} then []
    else
      var x := Least(below, s);
      assert |s - {x}| == |s| - 1;
      [x] + Sorted(below, s - {x})
  }

  /** Two ascending sequences of the same members are one sequence. */
  lemma {:induction false} SortedOnce<T>(below: (T, T) -> bool, s: set<T>, a: seq<T>, b: seq<T>)
    requires Orders(below, s)
    requires forall x :: x in a <==> x in s
    requires forall x :: x in b <==> x in s
    requires forall i, j | 0 <= i < j < |a| :: below(a[i], a[j])
    requires forall i, j | 0 <= i < j < |b| :: below(b[i], b[j])
    ensures a == b
  {
    assert b != [] ==> b[0] in b && b[0] in a;
    if a != [] {
      assert a[0] in s && a[0] in b;
      var i :| 0 <= i < |b| && b[i] == a[0];
      var j :| 0 <= j < |a| && a[j] == b[0];
      assert a[0] == b[0];
      SortedOnceTail(below, s, a);
      SortedOnceTail(below, s, b);
      SortedOnce(below, s - {a[0]}, a[1..], b[1..]);
      assert a == [a[0]] + a[1..];
      assert b == [b[0]] + b[1..];
    }
  }

  lemma SortedOnceTail<T>(below: (T, T) -> bool, s: set<T>, a: seq<T>)
    requires Orders(below, s)
    requires a != []
    requires forall x :: x in a <==> x in s
    requires forall i, j | 0 <= i < j < |a| :: below(a[i], a[j])
    ensures forall x :: x in a[1..] <==> x in s - {a[0]}
  {
    forall x
      ensures x in a[1..] <==> x in s - {a[0]}
    {
      if x in a[1..] {
        var i :| 0 <= i < |a| - 1 && a[1..][i] == x;
        assert a[i + 1] == x && below(a[0], a[i + 1]);
        assert x in a && x in s;
        assert a[0] in s;
      }
      if x in s && x != a[0] {
        assert x in a;
        var i :| 0 <= i < |a| && a[i] == x;
        assert a[1..][i - 1] == x;
      }
    }
  }

  // ---------------------------------------------------------------- text

  /** Whether `a` sorts before `b`: the first difference decides, a prefix comes first. */
  predicate Before(a: string, b: string) {
    && b != []
    && (a == [] || a[0] < b[0] || (a[0] == b[0] && Before(a[1..], b[1..])))
  }

  /** Whether the two part at `k`: alike before it, where the first ends or has the smaller character. */
  predicate PartAt(a: string, b: string, k: nat) {
    && k <= |a| && k < |b| && a[..k] == b[..k]
    && (k == |a| || a[k] < b[k])
  }

  lemma {:induction false} BeforeMeans(a: string, b: string)
    ensures Before(a, b) <==> exists k: nat :: PartAt(a, b, k)
  {
    if a != [] && b != [] && a[0] == b[0] {
      BeforeMeans(a[1..], b[1..]);
      if k: nat :| PartAt(a[1..], b[1..], k) {
        assert a[..k + 1] == [a[0]] + a[1..][..k] && b[..k + 1] == [b[0]] + b[1..][..k];
        assert PartAt(a, b, k + 1);
      }
      if k: nat :| PartAt(a, b, k) {
        assert k > 0;
        assert a[1..][..k - 1] == a[..k][1..] && b[1..][..k - 1] == b[..k][1..];
        assert PartAt(a[1..], b[1..], k - 1);
      }
    } else if b != [] && (a == [] || a[0] < b[0]) {
      assert PartAt(a, b, 0);
    } else {
      assert forall k: nat | PartAt(a, b, k) :: k > 0 ==> a[..k][0] == a[0] && b[..k][0] == b[0];
    }
  }

  lemma {:induction false} BeforeTotal(a: string, b: string)
    ensures a == b || Before(a, b) || Before(b, a)
  {
    if a != [] && b != [] && a[0] == b[0] {
      BeforeTotal(a[1..], b[1..]);
      assert a == [a[0]] + a[1..];
      assert b == [b[0]] + b[1..];
    }
  }

  lemma {:induction false} BeforeStrict(a: string)
    ensures !Before(a, a)
  {
    if a != [] {
      BeforeStrict(a[1..]);
    }
  }

  lemma {:induction false} BeforeTransitive(a: string, b: string, c: string)
    requires Before(a, b)
    requires Before(b, c)
    ensures Before(a, c)
  {
    if a != [] && a[0] == b[0] && b[0] == c[0] {
      BeforeTransitive(a[1..], b[1..], c[1..]);
    }
  }

  /** Text order is a strict total order on any set of text. */
  lemma TextOrders(s: set<string>)
    ensures Orders(Before, s)
  {
    forall a | a in s
      ensures !Before(a, a)
    {
      BeforeStrict(a);
    }
    forall a, b | a in s && b in s && a != b
      ensures Before(a, b) || Before(b, a)
    {
      BeforeTotal(a, b);
    }
    forall a, b, c | a in s && b in s && c in s && Before(a, b) && Before(b, c)
      ensures Before(a, c)
    {
      BeforeTransitive(a, b, c);
    }
  }

  /** The texts of `s` in order. */
  function SortedTexts(s: set<string>): (r: seq<string>)
    ensures |r| == |s|
    ensures forall x :: x in r <==> x in s
    ensures forall i, j | 0 <= i < j < |r| :: Before(r[i], r[j])
  {
    TextOrders(s);
    Sorted(Before, s)
  }
}
