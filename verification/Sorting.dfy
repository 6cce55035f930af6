/** Stable sorting by insertion, and the order of strings. */
module Sorting {

  function Insert<T>(x: T, xs: seq<T>, less: (T, T) -> bool): seq<T> {
    if xs == [] || !less(xs[0], x) then [x] + xs
    else [xs[0]] + Insert(x, xs[1..], less)
  }

  function Sort<T>(xs: seq<T>, less: (T, T) -> bool): (ys: seq<T>)
    ensures |ys| == |xs|
  {
    if xs == [] then []
    else
      InsertLength(xs[0], Sort(xs[1..], less), less);
      Insert(xs[0], Sort(xs[1..], less), less)
  }

  lemma {:induction false} InsertLength<T>(x: T, xs: seq<T>, less: (T, T) -> bool)
    ensures |Insert(x, xs, less)| == |xs| + 1
  {
    if xs != [] && less(xs[0], x) {
      InsertLength(x, xs[1..], less);
    }
  }

  lemma {:induction false} InsertItems<T>(x: T, xs: seq<T>, less: (T, T) -> bool)
    ensures multiset(Insert(x, xs, less)) == multiset(xs) + multiset{x}
  {
    if xs != [] && less(xs[0], x) {
      InsertItems(x, xs[1..], less);
      assert xs == [xs[0]] + xs[1..];
    }
  }

  /** A strict order in which unrelated items count as equal. */
  ghost predicate WeakOrder<T(!new)>(less: (T, T) -> bool) {
    && (forall x :: !less(x, x))
    && (forall x, y, z :: less(x, y) && less(y, z) ==> less(x, z))
    && (forall x, y, z :: !less(x, y) && !less(y, z) ==> !less(x, z))
  }

  ghost predicate Ascending<T>(xs: seq<T>, less: (T, T) -> bool) {
    forall i, j | 0 <= i < j < |xs| :: !less(xs[j], xs[i])
  }

  lemma {:induction false} InsertAscends<T(!new)>(x: T, xs: seq<T>, less: (T, T) -> bool)
    requires WeakOrder(less) && Ascending(xs, less)
    ensures Ascending(Insert(x, xs, less), less)
  {
    if xs != [] && less(xs[0], x) {
      InsertAscends(x, xs[1..], less);
      InsertItems(x, xs[1..], less);
      var rest := Insert(x, xs[1..], less);
      forall j | 0 <= j < |rest| ensures !less(rest[j], xs[0]) {
        assert rest[j] in multiset(rest);
        assert rest[j] == x || rest[j] in multiset(xs[1..]);
      }
    }
  }

  lemma {:induction false} SortSorts<T(!new)>(xs: seq<T>, less: (T, T) -> bool)
    requires WeakOrder(less)
    ensures Ascending(Sort(xs, less), less) && multiset(Sort(xs, less)) == multiset(xs)
  {
    if xs != [] {
      SortSorts(xs[1..], less);
      InsertAscends(xs[0], Sort(xs[1..], less), less);
      InsertItems(xs[0], Sort(xs[1..], less), less);
      assert xs == [xs[0]] + xs[1..];
    }
  }

  /** The two ends of a sorted sequence are a least and a greatest item. */
  lemma SortEnds<T(!new)>(xs: seq<T>, less: (T, T) -> bool)
    requires WeakOrder(less) && xs != []
    ensures var ys := Sort(xs, less);
      ys[0] in xs && ys[|ys| - 1] in xs && forall x | x in xs :: !less(x, ys[0]) && !less(ys[|ys| - 1], x)
  {
    SortSorts(xs, less);
    var ys := Sort(xs, less);
    assert ys[0] in multiset(ys) && ys[|ys| - 1] in multiset(ys);
    forall x | x in xs ensures !less(x, ys[0]) && !less(ys[|ys| - 1], x) {
      assert x in multiset(ys);
      assert !less(x, x);
    }
  }

  /** The last of the sorted sequence is below a bound iff every item is. */
  lemma LastBelowIff<T(!new)>(xs: seq<T>, less: (T, T) -> bool, bound: T)
    requires WeakOrder(less) && xs != []
    ensures less(Sort(xs, less)[|xs| - 1], bound) <==> forall x | x in xs :: less(x, bound)
  {
    SortEnds(xs, less);
    var last := Sort(xs, less)[|xs| - 1];
    forall x | x in xs && less(last, bound) ensures less(x, bound) {
      assert !less(last, x);
    }
  }

  /** The first is above it iff every item is. */
  lemma FirstAboveIff<T(!new)>(xs: seq<T>, less: (T, T) -> bool, bound: T)
    requires WeakOrder(less) && xs != []
    ensures less(bound, Sort(xs, less)[0]) <==> forall x | x in xs :: less(bound, x)
  {
    SortEnds(xs, less);
    var first := Sort(xs, less)[0];
    forall x | x in xs && less(bound, first) ensures less(bound, x) {
      assert !less(x, first);
    }
  }

  /** `<` on strings, by code point. */
  predicate Before(a: string, b: string) {
    b != [] && (a == [] || a[0] < b[0] || (a[0] == b[0] && Before(a[1..], b[1..])))
  }

  /** `a` is a proper prefix of `b`, or has the smaller character where they first differ. */
  ghost predicate Earlier(a: string, b: string) {
    a < b || exists k: nat :: k < |a| && k < |b| && a[..k] == b[..k] && a[k] < b[k]
  }

  lemma EarlierTail(a: string, b: string)
    requires a != [] && b != [] && a[0] == b[0]
    ensures Earlier(a, b) <==> Earlier(a[1..], b[1..])
  {
    if k: nat :| k < |a| && k < |b| && a[..k] == b[..k] && a[k] < b[k] {
      assert a[1..][..k - 1] == a[..k][1..] && b[1..][..k - 1] == b[..k][1..];
      assert a[1..][k - 1] < b[1..][k - 1];
    }
    if k: nat :| k < |a[1..]| && k < |b[1..]| && a[1..][..k] == b[1..][..k] && a[1..][k] < b[1..][k] {
      assert a[..k + 1] == [a[0]] + a[1..][..k] && b[..k + 1] == [b[0]] + b[1..][..k];
      assert a[k + 1] < b[k + 1];
    }
    if a[1..] < b[1..] {
      assert forall i | 0 < i < |a| :: a[i] == a[1..][i - 1] && b[i] == b[1..][i - 1];
    }
  }

  lemma SameFirst(a: string, b: string, k: nat)
    requires k < |a| && k < |b| && a[..k] == b[..k]
    ensures k == 0 || a[0] == b[0]
  {
    if k > 0 {
      assert a[..k][0] == a[0] && b[..k][0] == b[0];
    }
  }

  /** The order is the order of code points. */
  lemma {:induction false} BeforeIff(a: string, b: string)
    ensures Before(a, b) <==> Earlier(a, b)
  {
    if a != [] && b != [] {
      if a[0] == b[0] {
        EarlierTail(a, b);
        BeforeIff(a[1..], b[1..]);
      } else {
        if a[0] < b[0] {
          assert a[..0] == b[..0];
        }
        if k: nat :| k < |a| && k < |b| && a[..k] == b[..k] && a[k] < b[k] {
          SameFirst(a, b, k);
        }
      }
    }
  }

  lemma {:induction false} BeforeTrichotomy(a: string, b: string)
    ensures !(Before(a, b) && Before(b, a)) && !Before(a, a)
    ensures Before(a, b) || Before(b, a) || a == b
  {
    if a != [] && b != [] {
      BeforeTrichotomy(a[1..], b[1..]);
      assert a == [a[0]] + a[1..] && b == [b[0]] + b[1..];
    }
    if a != [] {
      BeforeTrichotomy(a[1..], a[1..]);
    }
  }

  lemma {:induction false} BeforeTransitive(a: string, b: string, c: string)
    requires Before(a, b) && Before(b, c)
    ensures Before(a, c)
  {
    if a != [] && a[0] == b[0] == c[0] {
      BeforeTransitive(a[1..], b[1..], c[1..]);
    }
  }

  lemma BeforeIsWeakOrder()
    ensures WeakOrder(Before)
  {
    forall x ensures !Before(x, x) {
      BeforeTrichotomy(x, x);
    }
    forall x, y, z | Before(x, y) && Before(y, z) ensures Before(x, z) {
      BeforeTransitive(x, y, z);
    }
    forall x, y, z | !Before(x, y) && !Before(y, z) ensures !Before(x, z) {
      BeforeTrichotomy(x, y);
      BeforeTrichotomy(y, z);
      BeforeTrichotomy(x, z);
      if Before(z, y) && Before(y, x) {
        BeforeTransitive(z, y, x);
      }
    }
  }
}
