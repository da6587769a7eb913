/** A stable sort and what makes its result unique, and what else is needed about sequences and numbers. */
module Sorting {
  import opened Strings

  function Min(a: int, b: int): int {
    if a < b then a else b
  }

  function Max(a: int, b: int): int {
    if a > b then a else b
  }

  lemma Associative<T>(a: seq<T>, b: seq<T>, c: seq<T>)
    ensures (a + b) + c == a + (b + c)
  {
  }

  ghost predicate StrictOrder<T(!new)>(less: (T, T) -> bool) {
    && (forall x :: !less(x, x))
    && (forall x, y, z :: less(x, y) && less(y, z) ==> less(x, z))
  }

  function Insert<T>(x: T, sorted: seq<T>, less: (T, T) -> bool): seq<T> {
    if sorted == [] || !less(sorted[0], x) then [x] + sorted
    else [sorted[0]] + Insert(x, sorted[1..], less)
  }

  /** `[...xs].sort(...)`: equal elements keep their order. */
  function Sort<T>(xs: seq<T>, less: (T, T) -> bool): seq<T> {
    if xs == [] then [] else Insert(xs[0], Sort(xs[1..], less), less)
  }

  lemma {:induction false} InsertPermutes<T>(x: T, sorted: seq<T>, less: (T, T) -> bool)
    ensures multiset(Insert(x, sorted, less)) == multiset(sorted) + multiset{x}
    ensures |Insert(x, sorted, less)| == |sorted| + 1
    ensures forall y :: y in Insert(x, sorted, less) <==> y == x || y in sorted
  {
    if sorted != [] && less(sorted[0], x) {
      InsertPermutes(x, sorted[1..], less);
      assert sorted == [sorted[0]] + sorted[1..];
    }
  }

  lemma {:induction false} SortPermutes<T>(xs: seq<T>, less: (T, T) -> bool)
    ensures multiset(Sort(xs, less)) == multiset(xs)
    ensures |Sort(xs, less)| == |xs|
    ensures forall y :: y in Sort(xs, less) <==> y in xs
  {
    if xs == [] { return; }
    SortPermutes(xs[1..], less);
    InsertPermutes(xs[0], Sort(xs[1..], less), less);
    assert xs == [xs[0]] + xs[1..];
  }

  /** No later element is strictly smaller than an earlier one. */
  ghost predicate Sorted<T>(xs: seq<T>, less: (T, T) -> bool) {
    forall i, j :: 0 <= i < j < |xs| ==> !less(xs[j], xs[i])
  }

  ghost predicate StrictlySorted<T>(xs: seq<T>, less: (T, T) -> bool) {
    forall i, j :: 0 <= i < j < |xs| ==> less(xs[i], xs[j])
  }

  /** The comparator is a weak order: being not smaller is transitive. */
  ghost predicate WeakOrder<T(!new)>(less: (T, T) -> bool) {
    && StrictOrder(less)
    && (forall x, y, z :: !less(y, x) && !less(z, y) ==> !less(z, x))
  }

  lemma {:induction false} InsertSorted<T(!new)>(x: T, sorted: seq<T>, less: (T, T) -> bool)
    requires WeakOrder(less) && Sorted(sorted, less)
    ensures Sorted(Insert(x, sorted, less), less)
  {
    if sorted != [] && less(sorted[0], x) {
      var rest := Insert(x, sorted[1..], less);
      InsertSorted(x, sorted[1..], less);
      InsertPermutes(x, sorted[1..], less);
      forall j | 0 <= j < |rest| ensures !less(rest[j], sorted[0]) {
        assert rest[j] in rest;
        if rest[j] != x {
          var k :| 0 <= k < |sorted[1..]| && sorted[1..][k] == rest[j];
          assert sorted[k + 1] == rest[j];
        }
      }
    } else if sorted != [] {
      forall j | 0 <= j < |sorted| ensures !less(sorted[j], x) {
        assert j == 0 || !less(sorted[j], sorted[0]);
      }
    }
  }

  lemma {:induction false} SortSorted<T(!new)>(xs: seq<T>, less: (T, T) -> bool)
    requires WeakOrder(less)
    ensures Sorted(Sort(xs, less), less)
  {
    if xs == [] { return; }
    SortSorted(xs[1..], less);
    InsertSorted(xs[0], Sort(xs[1..], less), less);
  }

  /** A strictly sorted sequence is determined by its elements. */
  lemma {:induction false} StrictlySortedUnique<T(!new)>(a: seq<T>, b: seq<T>, less: (T, T) -> bool)
    requires StrictOrder(less)
    requires StrictlySorted(a, less) && StrictlySorted(b, less)
    requires forall x :: x in a <==> x in b
    ensures a == b
  {
    if a != [] { assert a[0] in b; }
    if b != [] { assert b[0] in a; }
    if a != [] {
      assert a[0] == b[0];
      forall x ensures x in a[1..] <==> x in b[1..] {
        TailElements(a, less, x);
        TailElements(b, less, x);
      }
      StrictlySortedUnique(a[1..], b[1..], less);
      assert a == [a[0]] + a[1..] && b == [b[0]] + b[1..];
    }
  }

  lemma TailElements<T(!new)>(a: seq<T>, less: (T, T) -> bool, x: T)
    requires StrictOrder(less) && StrictlySorted(a, less) && a != []
    ensures x in a[1..] <==> x in a && x != a[0]
  {
    if x in a[1..] {
      var k :| 0 <= k < |a[1..]| && a[1..][k] == x;
      assert less(a[0], a[k + 1]);
    }
  }

  function Elements<T>(xs: seq<T>): set<T> {
    set x <- xs
  }

  lemma TwiceIn<T>(xs: seq<T>, i: nat, j: nat)
    requires i < j < |xs| && xs[i] == xs[j]
    ensures multiset(xs)[xs[i]] >= 2
  {
    assert xs == xs[..j] + [xs[j]] + xs[j + 1..];
    assert xs[..j][i] == xs[i];
    assert multiset(xs) == multiset(xs[..j]) + multiset{xs[j]} + multiset(xs[j + 1..]);
  }

  lemma {:induction false} OnceIn<T>(xs: seq<T>, x: T)
    requires forall i, j :: 0 <= i < j < |xs| ==> xs[i] != xs[j]
    ensures multiset(xs)[x] <= 1
    decreases |xs|
  {
    if xs == [] { return; }
    OnceIn(xs[1..], x);
    assert xs == [xs[0]] + xs[1..];
    assert xs[0] !in xs[1..];
  }

  /** `[...new Set(xs)]`: the elements in the order of their first occurrence. */
  function Distinct<T(==,!new)>(xs: seq<T>): (r: seq<T>)
    ensures forall x :: x in r <==> x in xs
    ensures forall i, j :: 0 <= i < j < |r| ==> r[i] != r[j]
  {
    if xs == [] then []
    else
      var init := Distinct(xs[..|xs| - 1]);
      if xs[|xs| - 1] in init then init else init + [xs[|xs| - 1]]
  }

  /** `xs.filter(keep)` */
  function Select<T(!new)>(xs: seq<T>, keep: T -> bool): (r: seq<T>)
    ensures forall x :: x in r <==> x in xs && keep(x)
    ensures |r| <= |xs|
  {
    if xs == [] then [] else (if keep(xs[0]) then [xs[0]] else []) + Select(xs[1..], keep)
  }

  lemma SelectOne<T(!new)>(x: T, keep: T -> bool)
    ensures Select([x], keep) == if keep(x) then [x] else []
  {
    assert [x][1..] == [];
  }

  lemma {:induction false} SelectSorted<T(!new)>(xs: seq<T>, keep: T -> bool, less: (T, T) -> bool)
    requires StrictlySorted(xs, less)
    ensures StrictlySorted(Select(xs, keep), less)
  {
    if xs == [] { return; }
    SelectSorted(xs[1..], keep, less);
    var rest := Select(xs[1..], keep);
    forall j | 0 <= j < |rest| ensures less(xs[0], rest[j]) {
      assert rest[j] in rest;
      var k :| 0 <= k < |xs[1..]| && xs[1..][k] == rest[j];
      assert xs[k + 1] == rest[j];
    }
  }

  lemma {:induction false} SelectCounts<T(!new)>(xs: seq<T>, keep: T -> bool, x: T)
    ensures multiset(Select(xs, keep))[x] == if keep(x) then multiset(xs)[x] else 0
  {
    if xs == [] { return; }
    SelectCounts(xs[1..], keep, x);
    assert xs == [xs[0]] + xs[1..];
    assert multiset(xs) == multiset{xs[0]} + multiset(xs[1..]);
    var head := if keep(xs[0]) then [xs[0]] else [];
    assert multiset(Select(xs, keep)) == multiset(head) + multiset(Select(xs[1..], keep));
  }

  /** How many elements a filter keeps does not depend on their order. */
  lemma SelectLength<T(!new)>(xs: seq<T>, ys: seq<T>, keep: T -> bool)
    requires multiset(xs) == multiset(ys)
    ensures |Select(xs, keep)| == |Select(ys, keep)|
  {
    forall x ensures multiset(Select(xs, keep))[x] == multiset(Select(ys, keep))[x] {
      SelectCounts(xs, keep, x);
      SelectCounts(ys, keep, x);
    }
    assert multiset(Select(xs, keep)) == multiset(Select(ys, keep));
    assert |multiset(Select(xs, keep))| == |multiset(Select(ys, keep))|;
  }

  lemma {:induction false} SelectAppend<T(!new)>(a: seq<T>, b: seq<T>, keep: T -> bool)
    ensures Select(a + b, keep) == Select(a, keep) + Select(b, keep)
  {
    if a == [] {
      assert a + b == b;
      return;
    }
    assert (a + b)[1..] == a[1..] + b;
    SelectAppend(a[1..], b, keep);
  }

  lemma {:induction false} SelectAll<T(!new)>(xs: seq<T>, keep: T -> bool)
    requires forall i :: 0 <= i < |xs| ==> keep(xs[i])
    ensures Select(xs, keep) == xs
  {
    if xs == [] { return; }
    SelectAll(xs[1..], keep);
    assert xs == [xs[0]] + xs[1..];
  }

  lemma {:induction false} SelectNone<T(!new)>(xs: seq<T>, keep: T -> bool)
    requires forall i :: 0 <= i < |xs| ==> !keep(xs[i])
    ensures Select(xs, keep) == []
  {
    if xs == [] { return; }
    SelectNone(xs[1..], keep);
  }

  lemma BeforeIsWeak()
    ensures WeakOrder(Before)
  {
    forall x: string ensures !Before(x, x) { BeforeIrreflexive(x); }
    forall x: string, y: string, z: string | Before(x, y) && Before(y, z) ensures Before(x, z) {
      BeforeTransitive(x, y, z);
    }
    forall x: string, y: string, z: string | !Before(y, x) && !Before(z, y) ensures !Before(z, x) {
      BeforeTotal(x, y);
      BeforeTotal(y, z);
      if Before(z, x) && Before(x, y) { BeforeTransitive(z, x, y); }
    }
  }
}
