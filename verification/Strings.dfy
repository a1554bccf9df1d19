/** Go's ordering of strings, and lists sorted by it (`sort.Strings`). */
module Strings {

  predicate LessEq(a: string, b: string) {
    a == "" || (b != "" && (a[0] < b[0] || (a[0] == b[0] && LessEq(a[1..], b[1..]))))
  }

  /** The strings agree up to `i`, where both go on, `a` with the smaller character. */
  predicate SmallerAt(a: string, b: string, i: int) {
    0 <= i < |a| && i < |b| && a[i] < b[i] && a[..i] == b[..i]
  }

  /** The order of a dictionary: a string comes before another when it is the beginning of it, or has
      the smaller character where they first differ. */
  lemma {:induction false} LessEqExactly(a: string, b: string)
    ensures LessEq(a, b) <==> a <= b || exists i :: 0 <= i < |a| && SmallerAt(a, b, i)
    decreases |a|
  {
    if a != "" && b != "" {
      var c, d := a[1..], b[1..];
      assert a == [a[0]] + c && b == [b[0]] + d;
      LessEqExactly(c, d);
      if a[0] == b[0] {
        forall i | 0 <= i < |c|
          ensures SmallerAt(c, d, i) <==> SmallerAt(a, b, i + 1)
        {
          if i < |d| {
            assert a[..i + 1] == [a[0]] + c[..i] && b[..i + 1] == [b[0]] + d[..i];
            assert a[..i + 1][1..] == c[..i] && b[..i + 1][1..] == d[..i];
          }
        }
        SmallerLater(a, b);
      } else {
        forall i | 0 < i < |a|
          ensures !SmallerAt(a, b, i)
        {
          assert i < |b| ==> a[..i][0] != b[..i][0];
        }
        assert SmallerAt(a, b, 0) <==> a[0] < b[0];
      }
    }
  }

  lemma SmallerLater(a: string, b: string)
    requires a != "" && b != "" && a[0] == b[0]
    requires forall i :: 0 <= i < |a[1..]| ==> (SmallerAt(a[1..], b[1..], i) <==> SmallerAt(a, b, i + 1))
    ensures (exists i :: 0 <= i < |a| && SmallerAt(a, b, i)) <==>
            exists i :: 0 <= i < |a[1..]| && SmallerAt(a[1..], b[1..], i)
  {
    if i :| 0 <= i < |a| && SmallerAt(a, b, i) {
      assert SmallerAt(a[1..], b[1..], i - 1);
    }
    if i :| 0 <= i < |a[1..]| && SmallerAt(a[1..], b[1..], i) {
      assert SmallerAt(a, b, i + 1);
    }
  }

  lemma {:induction false} LessEqTotal(a: string, b: string)
    ensures LessEq(a, b) || LessEq(b, a)
  {
    if a != "" && b != "" && a[0] == b[0] {
      LessEqTotal(a[1..], b[1..]);
    }
  }

  lemma {:induction false} LessEqAntisymmetric(a: string, b: string)
    requires LessEq(a, b) && LessEq(b, a)
    ensures a == b
  {
    if a != "" && b != "" {
      LessEqAntisymmetric(a[1..], b[1..]);
      assert a == [a[0]] + a[1..];
      assert b == [b[0]] + b[1..];
    }
  }

  lemma {:induction false} LessEqTransitive(a: string, b: string, c: string)
    requires LessEq(a, b) && LessEq(b, c)
    ensures LessEq(a, c)
  {
    if a != "" && b[0] == a[0] && c[0] == b[0] {
      LessEqTransitive(a[1..], b[1..], c[1..]);
    }
  }

  predicate Sorted(xs: seq<string>) {
    forall i, j :: 0 <= i < j < |xs| ==> LessEq(xs[i], xs[j])
  }

  function Insert(x: string, xs: seq<string>): seq<string> {
    if xs == [] || LessEq(x, xs[0]) then [x] + xs else [xs[0]] + Insert(x, xs[1..])
  }

  function Sort(xs: seq<string>): seq<string> {
    if xs == [] then [] else Insert(xs[0], Sort(xs[1..]))
  }

  /** `x` comes before everything in `xs`. */
  predicate Below(x: string, xs: seq<string>) {
    forall i :: 0 <= i < |xs| ==> LessEq(x, xs[i])
  }

  lemma {:induction false} SortedFrom(x: string, xs: seq<string>)
    requires xs != [] && LessEq(x, xs[0]) && Sorted(xs)
    ensures Below(x, xs)
  {
    forall i | 0 < i < |xs|
      ensures LessEq(x, xs[i])
    {
      LessEqTransitive(x, xs[0], xs[i]);
    }
  }

  lemma SortedCons(x: string, xs: seq<string>)
    requires Below(x, xs) && Sorted(xs)
    ensures Sorted([x] + xs)
  {
    var ys := [x] + xs;
    forall i, j | 0 <= i < j < |ys|
      ensures LessEq(ys[i], ys[j])
    {
      assert ys[j] == xs[j - 1];
      assert i > 0 ==> ys[i] == xs[i - 1];
    }
  }

  lemma {:induction false} InsertBelow(low: string, x: string, xs: seq<string>)
    requires LessEq(low, x) && Below(low, xs)
    ensures Below(low, Insert(x, xs))
  {
    if xs != [] && !LessEq(x, xs[0]) {
      InsertBelow(low, x, xs[1..]);
    }
  }

  lemma {:induction false} InsertAdds(x: string, xs: seq<string>)
    ensures multiset(Insert(x, xs)) == multiset(xs) + multiset{x}
  {
    if xs != [] && !LessEq(x, xs[0]) {
      InsertAdds(x, xs[1..]);
      assert xs == [xs[0]] + xs[1..];
    }
  }

  lemma {:induction false} InsertSorts(x: string, xs: seq<string>)
    requires Sorted(xs)
    ensures Sorted(Insert(x, xs))
  {
    if xs == [] {
    } else if LessEq(x, xs[0]) {
      SortedFrom(x, xs);
      SortedCons(x, xs);
    } else {
      LessEqTotal(x, xs[0]);
      InsertSorts(x, xs[1..]);
      InsertBelow(xs[0], x, xs[1..]);
      SortedCons(xs[0], Insert(x, xs[1..]));
    }
  }

  lemma {:induction false} SortSorts(xs: seq<string>)
    ensures Sorted(Sort(xs)) && multiset(Sort(xs)) == multiset(xs)
  {
    if xs != [] {
      SortSorts(xs[1..]);
      InsertAdds(xs[0], Sort(xs[1..]));
      InsertSorts(xs[0], Sort(xs[1..]));
      assert xs == [xs[0]] + xs[1..];
    }
  }

  // ---------- The order in which elements come up does not matter ----------

  lemma {:induction false} InsertsCommute(x: string, y: string, xs: seq<string>)
    ensures Insert(x, Insert(y, xs)) == Insert(y, Insert(x, xs))
  {
    LessEqTotal(x, y);
    if LessEq(x, y) && LessEq(y, x) {
      LessEqAntisymmetric(x, y);
    } else if xs != [] {
      var h := xs[0];
      if LessEq(x, y) && LessEq(y, h) {
        LessEqTransitive(x, y, h);
      } else if LessEq(y, x) && LessEq(x, h) {
        LessEqTransitive(y, x, h);
      }
      InsertsCommute(x, y, xs[1..]);
    }
  }

  function Omit(xs: seq<string>, i: nat): seq<string>
    requires i < |xs|
  {
    xs[..i] + xs[i + 1..]
  }

  /** Any element may be taken out first and inserted last. */
  lemma {:induction false} SortPicks(xs: seq<string>, i: nat)
    requires i < |xs|
    ensures Sort(xs) == Insert(xs[i], Sort(Omit(xs, i)))
  {
    var rest := Omit(xs, i);
    if i == 0 {
      assert rest == xs[1..];
    } else {
      SortPicks(xs[1..], i - 1);
      assert rest[1..] == Omit(xs[1..], i - 1);
      InsertsCommute(xs[0], xs[i], Sort(rest[1..]));
    }
  }

  lemma TakeOut(xs: seq<string>, i: nat)
    requires i < |xs|
    ensures multiset(Omit(xs, i)) == multiset(xs) - multiset{xs[i]}
  {
    assert xs == xs[..i] + ([xs[i]] + xs[i + 1..]);
  }

  lemma TakeFirst(xs: seq<string>)
    requires xs != []
    ensures multiset(xs[1..]) == multiset(xs) - multiset{xs[0]}
  {
    assert xs == [xs[0]] + xs[1..];
  }

  lemma Position(x: string, ys: seq<string>) returns (i: nat)
    requires x in multiset(ys)
    ensures i < |ys| && ys[i] == x
  {
    assert x in ys;
    i :| 0 <= i < |ys| && ys[i] == x;
  }

  lemma {:induction false} SortIgnoresOrder(xs: seq<string>, ys: seq<string>)
    requires multiset(xs) == multiset(ys)
    ensures Sort(xs) == Sort(ys)
    decreases |xs|
  {
    if xs == [] {
      assert |multiset(ys)| == 0;
    } else {
      var i := Position(xs[0], ys);
      TakeOut(ys, i);
      TakeFirst(xs);
      SortIgnoresOrder(xs[1..], Omit(ys, i));
      SortPicks(ys, i);
    }
  }

  lemma {:induction false} SortOfSorted(xs: seq<string>)
    requires Sorted(xs)
    ensures Sort(xs) == xs
  {
    if xs != [] {
      SortOfSorted(xs[1..]);
      assert xs == [xs[0]] + xs[1..];
    }
  }

  /** There is only one sorted list of given elements: the one that sorting gives. */
  lemma SortedIsUnique(xs: seq<string>, ys: seq<string>)
    requires Sorted(xs) && Sorted(ys) && multiset(xs) == multiset(ys)
    ensures xs == ys
  {
    SortIgnoresOrder(xs, ys);
    SortOfSorted(xs);
    SortOfSorted(ys);
  }
}
