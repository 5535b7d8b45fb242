/** Lists in strict order under some comparison: one set of elements, one list. */
module OrderedLists {

  predicate Rises<T>(less: (T, T) -> bool, s: seq<T>) {
    forall i, j :: 0 <= i < j < |s| ==> less(s[i], s[j])
  }

  /** The comparison never holds both ways, nor of an element and itself. */
  predicate OneWay<T(==)>(less: (T, T) -> bool, s: seq<T>) {
    forall i, j :: 0 <= i < |s| && 0 <= j < |s| ==> !(less(s[i], s[j]) && (s[i] == s[j] || less(s[j], s[i])))
  }

  /** Two lists in order with the same elements are the same list. */
  lemma {:induction false} OneOrder<T>(less: (T, T) -> bool, a: seq<T>, b: seq<T>)
    requires Rises(less, a) && Rises(less, b) && OneWay(less, a) && OneWay(less, b) && forall x :: x in a <==> x in b
    ensures a == b
  {
    SameEmptiness(a, b);
    SameEmptiness(b, a);
    if a != [] {
      SameHead(less, a, b);
      assert a == [a[0]] + a[1..] && b == [b[0]] + b[1..];
      forall x
        ensures x in a[1..] <==> x in b[1..]
      {
        TailHas(less, a, x);
        TailHas(less, b, x);
      }
      OneOrder(less, a[1..], b[1..]);
    }
  }

  lemma SameEmptiness<T>(a: seq<T>, b: seq<T>)
    requires forall x :: x in a <==> x in b
    ensures a == [] ==> b == []
  {
    if b != [] {
      var x := b[0];
      assert x in b;
    }
  }

  lemma SameHead<T>(less: (T, T) -> bool, a: seq<T>, b: seq<T>)
    requires Rises(less, a) && Rises(less, b) && OneWay(less, a) && a != [] && b != [] && forall x :: x in a <==> x in b
    ensures a[0] == b[0]
  {
    assert a[0] in b && b[0] in a;
    HeadLeast(less, b, a[0]);
    HeadLeast(less, a, b[0]);
    var j :| 0 <= j < |a| && a[j] == b[0];
  }

  lemma HeadLeast<T>(less: (T, T) -> bool, a: seq<T>, x: T)
    requires Rises(less, a) && x in a
    ensures x == a[0] || less(a[0], x)
  {
  }

  lemma TailHas<T>(less: (T, T) -> bool, a: seq<T>, x: T)
    requires Rises(less, a) && OneWay(less, a) && a != []
    ensures x in a[1..] <==> x in a && x != a[0]
  {
    if x in a && x != a[0] {
      var i :| 0 <= i < |a| && a[i] == x;
      assert a[1..][i - 1] == x;
    }
    if x in a[1..] {
      var i :| 0 <= i < |a| - 1 && a[1..][i] == x;
      assert a[i + 1] == x && less(a[0], a[i + 1]);
    }
  }
}
