/** Sorted lists: merging changes into one, and searching one. */
module Merging {
  type Compare<!T> = (T, T) -> int

  /** compare orders the elements of dom, one before another, and tells no two apart elements equal. */
  ghost predicate Orders<T>(compare: Compare<T>, dom: set<T>) {
    && (forall a, b :: a in dom && b in dom ==> (compare(a, b) == 0 <==> a == b) && (compare(a, b) < 0 <==> compare(b, a) > 0))
    && (forall a, b, c :: a in dom && b in dom && c in dom && compare(a, b) < 0 && compare(b, c) < 0 ==> compare(a, c) < 0)
  }

  /** Strictly: no element twice. */
  ghost predicate Sorted<T>(s: seq<T>, compare: Compare<T>) {
    forall i, j :: 0 <= i < j < |s| ==> compare(s[i], s[j]) < 0
  }

  ghost predicate Within<T>(s: seq<T>, dom: set<T>) { forall x :: x in s ==> x in dom }

  /** x comes before every element of s from i on. */
  ghost predicate Before<T>(compare: Compare<T>, x: T, s: seq<T>, i: nat) { forall k :: i <= k < |s| ==> compare(x, s[k]) < 0 }

  ghost predicate AllBefore<T>(compare: Compare<T>, xs: seq<T>, s: seq<T>, i: nat) { forall x :: x in xs ==> Before(compare, x, s, i) }

  /** The next element of a merge: the lesser head, or both where they are equal. */
  ghost predicate Picks<T>(base: seq<T>, adds: seq<T>, i: nat, j: nat, next: T, i': nat, j': nat) {
    && i <= i' <= |base| && j <= j' <= |adds| && i' <= i + 1 && j' <= j + 1 && i + j < i' + j'
    && (i' > i ==> next == base[i]) && (j' > j ==> next == adds[j])
  }

  /** The sorted list of what is in base or adds and not in drops; either may overlap base or miss it. */
  method MergeSorted<T(==)>(base: seq<T>, adds: seq<T>, drops: seq<T>, compare: Compare<T>, ghost dom: set<T>) returns (out: seq<T>)
    requires Orders(compare, dom) && Within(base, dom) && Within(adds, dom) && Within(drops, dom)
    requires Sorted(base, compare) && Sorted(adds, compare) && Sorted(drops, compare)
    ensures Sorted(out, compare)
    ensures forall x :: x in out <==> (x in base || x in adds) && x !in drops
  {
    if |adds| == 0 && |drops| == 0 { return base; }
    out := [];
    var d, i, j := 0, 0, 0;
    while i < |base| || j < |adds|
      invariant i <= |base| && j <= |adds| && d <= |drops|
      invariant Sorted(out, compare) && Within(out, dom)
      invariant forall x :: x in out <==> (x in base[..i] || x in adds[..j]) && x !in drops
      invariant AllBefore(compare, out, base, i) && AllBefore(compare, out, adds, j)
      invariant AllBefore(compare, drops[..d], base, i) && AllBefore(compare, drops[..d], adds, j)
      decreases |base| - i + |adds| - j
    {
      hide Orders, Sorted, Within, AllBefore, Before, Picks;
      var next, i', j' := Pick(base, adds, i, j, compare, dom);
      d := SkipDrops(drops, d, next, compare, dom, base, adds, i, j, i', j');
      Dropped(drops, d, next, compare, dom);
      Advances(next, base, adds, i, j, i', j');
      if d < |drops| && compare(drops[d], next) == 0 {
        KeepsBefore(out, base, i, i', compare);
        KeepsBefore(out, adds, j, j', compare);
      } else {
        AppendKeeps(out, next, base, adds, i, j, i', j', compare, dom);
        out := out + [next];
      }
      i, j := i', j';
    }
    assert base[..i] == base && adds[..j] == adds;
  }

  lemma AppendKeeps<T>(out: seq<T>, next: T, base: seq<T>, adds: seq<T>, i: nat, j: nat, i': nat, j': nat, compare: Compare<T>, dom: set<T>)
    requires Picks(base, adds, i, j, next, i', j') && Sorted(out, compare) && Within(out, dom) && next in dom
    requires AllBefore(compare, out, base, i) && AllBefore(compare, out, adds, j)
    requires Before(compare, next, base, i') && Before(compare, next, adds, j')
    ensures Sorted(out + [next], compare) && Within(out + [next], dom)
    ensures AllBefore(compare, out + [next], base, i') && AllBefore(compare, out + [next], adds, j')
  {
    KeepsBefore(out, base, i, i', compare);
    KeepsBefore(out, adds, j, j', compare);
    forall k | 0 <= k < |out| ensures compare(out[k], next) < 0 {
      assert Before(compare, out[k], base, i) && Before(compare, out[k], adds, j);
    }
  }

  /** What has been passed grows by the element picked. */
  lemma Advances<T>(next: T, base: seq<T>, adds: seq<T>, i: nat, j: nat, i': nat, j': nat)
    requires Picks(base, adds, i, j, next, i', j')
    ensures i <= i' <= |base| && j <= j' <= |adds| && i + j < i' + j'
    ensures forall x :: x in base[..i'] || x in adds[..j'] <==> x in base[..i] || x in adds[..j] || x == next
  {
  }

  /** The lesser of two heads comes before all that is left behind it. */
  method Pick<T(==)>(base: seq<T>, adds: seq<T>, i: nat, j: nat, compare: Compare<T>, ghost dom: set<T>)
    returns (next: T, i': nat, j': nat)
    requires Orders(compare, dom) && Within(base, dom) && Within(adds, dom) && Sorted(base, compare) && Sorted(adds, compare)
    requires i <= |base| && j <= |adds| && (i < |base| || j < |adds|)
    ensures Picks(base, adds, i, j, next, i', j') && next in dom
    ensures Before(compare, next, base, i') && Before(compare, next, adds, j')
  {
    if j == |adds| {
      return base[i], i + 1, j;
    } else if i == |base| {
      return adds[j], i, j + 1;
    }
    assert base[i] in base && adds[j] in adds;
    var c := compare(base[i], adds[j]);
    if c < 0 {
      Ahead(base[i], adds, j, compare, dom);
      return base[i], i + 1, j;
    } else if c > 0 {
      Ahead(adds[j], base, i, compare, dom);
      return adds[j], i, j + 1;
    }
    return base[i], i + 1, j + 1;
  }

  lemma Ahead<T>(x: T, s: seq<T>, i: nat, compare: Compare<T>, dom: set<T>)
    requires Orders(compare, dom) && Within(s, dom) && Sorted(s, compare) && x in dom && i < |s| && compare(x, s[i]) < 0
    ensures Before(compare, x, s, i)
  {
  }

  /** Passes the drops that come before next; all of them come before whatever is left. */
  method SkipDrops<T(==)>(drops: seq<T>, from: nat, next: T, compare: Compare<T>, ghost dom: set<T>,
                          ghost base: seq<T>, ghost adds: seq<T>, ghost i: nat, ghost j: nat, ghost i': nat, ghost j': nat)
    returns (d: nat)
    requires Orders(compare, dom) && Within(base, dom) && Within(adds, dom) && Within(drops, dom) && next in dom
    requires from <= |drops| && Picks(base, adds, i, j, next, i', j')
    requires Before(compare, next, base, i') && Before(compare, next, adds, j')
    requires AllBefore(compare, drops[..from], base, i) && AllBefore(compare, drops[..from], adds, j)
    ensures from <= d <= |drops| && (d < |drops| ==> compare(drops[d], next) >= 0)
    ensures forall x :: x in drops[..d] ==> compare(x, next) < 0
    ensures AllBefore(compare, drops[..d], base, i') && AllBefore(compare, drops[..d], adds, j')
  {
    d := from;
    forall x | x in drops[..d] ensures compare(x, next) < 0 { assert Before(compare, x, base, i) && Before(compare, x, adds, j); }
    hide Orders, Within, Before, AllBefore;
    KeepsBefore(drops[..d], base, i, i', compare);
    KeepsBefore(drops[..d], adds, j, j', compare);
    while d < |drops| && compare(drops[d], next) < 0
      invariant from <= d <= |drops| && forall x :: x in drops[..d] ==> compare(x, next) < 0
      invariant AllBefore(compare, drops[..d], base, i') && AllBefore(compare, drops[..d], adds, j')
    {
      MoreBefore(drops, d, next, base, i', compare, dom);
      MoreBefore(drops, d, next, adds, j', compare, dom);
      assert drops[..d + 1] == drops[..d] + [drops[d]];
      d := d + 1;
    }
  }

  lemma MoreBefore<T>(xs: seq<T>, d: nat, y: T, s: seq<T>, i: nat, compare: Compare<T>, dom: set<T>)
    requires Orders(compare, dom) && Within(s, dom) && Within(xs, dom) && d < |xs| && y in dom
    requires compare(xs[d], y) < 0 && Before(compare, y, s, i) && AllBefore(compare, xs[..d], s, i)
    ensures AllBefore(compare, xs[..d + 1], s, i)
  {
  }

  lemma KeepsBefore<T>(xs: seq<T>, s: seq<T>, i: nat, i': nat, compare: Compare<T>)
    requires AllBefore(compare, xs, s, i) && i <= i'
    ensures AllBefore(compare, xs, s, i')
  {
  }

  /** With the lesser drops passed, next is dropped exactly when it is at hand. */
  lemma Dropped<T>(drops: seq<T>, d: nat, next: T, compare: Compare<T>, dom: set<T>)
    requires Orders(compare, dom) && Within(drops, dom) && Sorted(drops, compare) && next in dom && d <= |drops|
    requires forall x :: x in drops[..d] ==> compare(x, next) < 0
    requires d < |drops| ==> compare(drops[d], next) >= 0
    ensures (d < |drops| && compare(drops[d], next) == 0) <==> next in drops
  {
  }

  /** Whether x is in a sorted list. */
  method BinarySearch<T(==)>(s: seq<T>, x: T, compare: Compare<T>, ghost dom: set<T>) returns (found: bool)
    requires Orders(compare, dom) && Within(s, dom) && Sorted(s, compare) && x in dom
    ensures found <==> x in s
  {
    var low, high := 0, |s|;
    while low < high
      invariant low <= high <= |s|
      invariant x in s ==> x in s[low..high]
    {
      var mid := (low + high) / 2;
      var c := compare(s[mid], x);
      assert s[mid] in s;
      if c == 0 { return true; }
      Halves(s, x, compare, dom, low, mid, high);
      if c < 0 { low := mid + 1; } else { high := mid; }
    }
    return false;
  }

  lemma Halves<T>(s: seq<T>, x: T, compare: Compare<T>, dom: set<T>, low: nat, mid: nat, high: nat)
    requires Orders(compare, dom) && Within(s, dom) && Sorted(s, compare) && x in dom && low <= mid < high <= |s|
    requires compare(s[mid], x) != 0
    ensures x in s[low..high] ==> x in if compare(s[mid], x) < 0 then s[mid + 1..high] else s[low..mid]
  {
  }
}
