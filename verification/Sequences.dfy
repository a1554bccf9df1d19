/** Sequences without repetition, and those that list a finite set: one possible order in which a
    Go map may be visited. */
module Sequences {

  predicate Distinct<T(==)>(xs: seq<T>) {
    forall i, j :: 0 <= i < j < |xs| ==> xs[i] != xs[j]
  }

  /** `xs` visits every element of `keys` once. */
  ghost predicate Enumerates<T(!new)>(xs: seq<T>, keys: set<T>) {
    Distinct(xs) && forall x :: x in xs <==> x in keys
  }

  lemma Regrouped<T>(a: seq<T>, b: seq<T>, c: seq<T>)
    ensures a + b + c == a + (b + c)
  {
  }

  predicate Increasing(at: seq<int>) {
    forall i, j :: 0 <= i < j < |at| ==> at[i] < at[j]
  }

  /** `ys` is made of the elements of `xs` at these positions. */
  ghost predicate PicksAt<T>(xs: seq<T>, ys: seq<T>, at: seq<int>) {
    |at| == |ys| && forall i :: 0 <= i < |at| ==> 0 <= at[i] < |xs| && ys[i] == xs[at[i]]
  }

  ghost predicate Lists(at: seq<int>, keep: set<int>) {
    Increasing(at) && forall k :: k in at <==> k in keep
  }

  /** `ys` is made of the elements of `xs` at just the positions in `keep`, in their order. */
  ghost predicate Filters<T>(xs: seq<T>, ys: seq<T>, keep: set<int>) {
    exists at :: Lists(at, keep) && PicksAt(xs, ys, at)
  }

  lemma FiltersNone<T>(xs: seq<T>)
    ensures Filters(xs, [], {})
  {
    assert Lists([], {}) && PicksAt(xs, [], []);
  }

  lemma FiltersSkip<T>(xs: seq<T>, ys: seq<T>, keep: set<int>, x: T)
    requires Filters(xs, ys, keep)
    ensures Filters(xs + [x], ys, keep)
  {
    var at :| Lists(at, keep) && PicksAt(xs, ys, at);
    assert PicksAt(xs + [x], ys, at);
  }

  lemma FiltersMore<T>(xs: seq<T>, ys: seq<T>, keep: set<int>, x: T)
    requires Filters(xs, ys, keep)
    ensures Filters(xs + [x], ys + [x], keep + {|xs|})
  {
    var at :| Lists(at, keep) && PicksAt(xs, ys, at);
    assert forall k :: k in keep ==> k in at;
    var at' := at + [|xs|];
    assert PicksAt(xs + [x], ys + [x], at');
    assert Lists(at', keep + {|xs|});
  }

  // ---------- Counting ----------

  function Those(n: nat, p: int -> bool): set<int> {
    set j | 0 <= j < n && p(j)
  }

  function ThosePairs(m: nat, n: nat, p: (int, int) -> bool): set<(int, int)> {
    set i, j | 0 <= i < m && 0 <= j < n && p(i, j) :: (i, j)
  }

  lemma OneMore(n: nat, p: int -> bool)
    ensures |Those(n + 1, p)| == |Those(n, p)| + if p(n) then 1 else 0
  {
    assert Those(n + 1, p) == if p(n) then Those(n, p) + {n} else Those(n, p);
  }

  function Tagged(i: int, js: set<int>): set<(int, int)> {
    set j | j in js :: (i, j)
  }

  lemma {:induction false} TaggedSize(i: int, n: nat, p: int -> bool)
    ensures |Tagged(i, Those(n, p))| == |Those(n, p)|
  {
    if n == 0 {
      assert Tagged(i, Those(n, p)) == {} && Those(n, p) == {};
    } else {
      TaggedSize(i, n - 1, p);
      OneMore(n - 1, p);
      var before := Tagged(i, Those(n - 1, p));
      assert Tagged(i, Those(n, p)) == if p(n - 1) then before + {(i, n - 1)} else before;
    }
  }

  lemma RowMore(m: nat, n: nat, p: (int, int) -> bool)
    ensures |ThosePairs(m + 1, n, p)| == |ThosePairs(m, n, p)| + |Those(n, j => p(m, j))|
  {
    var row := Those(n, j => p(m, j));
    TaggedSize(m, n, j => p(m, j));
    assert ThosePairs(m + 1, n, p) == ThosePairs(m, n, p) + Tagged(m, row);
    assert ThosePairs(m, n, p) !! Tagged(m, row);
  }
}
