/** Regions, the services they offer, and which regions to suggest when some required services
    cannot be reached (goose/client/client.go). */
module Regions {
  import opened Sequences

  /** Endpoint URLs by service type, and those by region. */
  type ServiceURLs = map<string, string>
  type RegionTable = map<string, ServiceURLs>

  /** `strings.HasSuffix(userRegion, endpointRegion)` */
  predicate RegionMatches(userRegion: string, endpointRegion: string) {
    |endpointRegion| <= |userRegion| && userRegion[|userRegion| - |endpointRegion|..] == endpointRegion
  }

  /** A region matches when the user's region is it with something in front. */
  lemma MatchesExactly(userRegion: string, endpointRegion: string)
    ensures RegionMatches(userRegion, endpointRegion) <==> exists front :: userRegion == front + endpointRegion
  {
    if RegionMatches(userRegion, endpointRegion) {
      var n := |userRegion| - |endpointRegion|;
      assert userRegion == userRegion[..n] + endpointRegion;
    }
  }

  lemma MatchesItself(r: string)
    ensures RegionMatches(r, r)
  {
  }

  lemma MatchesTransitive(a: string, b: string, c: string)
    requires RegionMatches(a, b) && RegionMatches(b, c)
    ensures RegionMatches(a, c)
  {
    assert a[|a| - |c|..] == b[|b| - |c|..];
  }

  /** Of two regions that the same user region ends with, the longer ends with the shorter. */
  lemma MatchesChain(x: string, a: string, b: string)
    requires RegionMatches(x, a) && RegionMatches(x, b) && |b| <= |a|
    ensures RegionMatches(a, b)
  {
    assert a[|a| - |b|..] == x[|x| - |b|..];
  }

  predicate Offers(table: RegionTable, region: string, t: string) {
    region in table && t in table[region]
  }

  /** A client configured for `user` can find an endpoint of type `t`. */
  predicate Reaches(table: RegionTable, user: string, t: string) {
    exists r :: r in table && t in table[r] && RegionMatches(user, r)
  }

  /** The required types that `user` cannot reach, in the order they are required. */
  function Missing(table: RegionTable, user: string, required: seq<string>): seq<string> {
    if required == [] then []
    else
      var n := |required| - 1;
      Missing(table, user, required[..n]) + if Reaches(table, user, required[n]) then [] else [required[n]]
  }

  lemma {:induction false} MissingAre(table: RegionTable, user: string, required: seq<string>, t: string)
    ensures t in Missing(table, user, required) <==> t in required && !Reaches(table, user, t)
  {
    if required != [] {
      var n := |required| - 1;
      MissingAre(table, user, required[..n], t);
      assert required == required[..n] + [required[n]];
    }
  }

  /** The positions of required types that cannot be reached. */
  function Unreached(table: RegionTable, user: string, required: seq<string>): set<int> {
    set i | 0 <= i < |required| && !Reaches(table, user, required[i])
  }

  lemma UnreachedMore(table: RegionTable, user: string, required: seq<string>, t: string)
    ensures Unreached(table, user, required + [t]) ==
            Unreached(table, user, required) + if Reaches(table, user, t) then {} else {|required|}
  {
  }

  /** The missing types keep the order in which they are required, and their repetitions. */
  lemma {:induction false} MissingInOrder(table: RegionTable, user: string, required: seq<string>)
    ensures Filters(required, Missing(table, user, required), Unreached(table, user, required))
  {
    if required == [] {
      FiltersNone(required);
      assert Unreached(table, user, required) == {};
    } else {
      var n := |required| - 1;
      var before, t := required[..n], required[n];
      assert required == before + [t];
      MissingInOrder(table, user, before);
      UnreachedMore(table, user, before, t);
      if Reaches(table, user, t) {
        FiltersSkip(before, Missing(table, user, before), Unreached(table, user, before), t);
        assert Unreached(table, user, required) == Unreached(table, user, before);
      } else {
        FiltersMore(before, Missing(table, user, before), Unreached(table, user, before), t);
      }
    }
  }

  // ---------- Resolution ----------

  function Matching(table: RegionTable, user: string): set<string> {
    set r | r in table && RegionMatches(user, r)
  }

  /** The endpoints of the first `n` regions, a later region overriding the earlier ones. */
  function Merge(table: RegionTable, order: seq<string>, n: nat): ServiceURLs
    requires n <= |order| && forall r :: r in order ==> r in table
  {
    if n == 0 then map[] else Merge(table, order, n - 1) + table[order[n - 1]]
  }

  /** `order` is one in which the matching regions may come up. */
  ghost predicate MayComeUp(table: RegionTable, user: string, order: seq<string>) {
    Enumerates(order, Matching(table, user))
  }

  /** The endpoints of all matching regions, merged in some order - one for all types together. */
  ghost predicate UrlsOf(table: RegionTable, user: string, urls: ServiceURLs) {
    exists order :: MayComeUp(table, user, order) && urls == Merge(table, order, |order|)
  }

  /** `urls` is what resolution for `user` may store, with no required type left out. */
  ghost predicate Resolves(table: RegionTable, user: string, required: seq<string>, urls: ServiceURLs) {
    && (forall t :: t in required ==> t in urls)
    && UrlsOf(table, user, urls)
  }

  predicate UrlFrom(table: RegionTable, user: string, t: string, url: string) {
    exists r :: r in table && t in table[r] && RegionMatches(user, r) && table[r][t] == url
  }

  predicate OffersAmong(table: RegionTable, order: seq<string>, n: nat, t: string)
    requires n <= |order| && forall r :: r in order ==> r in table
  {
    exists i :: 0 <= i < n && t in table[order[i]]
  }

  lemma {:induction false} MergeHas(table: RegionTable, order: seq<string>, n: nat, t: string)
    requires n <= |order| && forall r :: r in order ==> r in table
    ensures t in Merge(table, order, n) <==> OffersAmong(table, order, n, t)
    ensures t in Merge(table, order, n) ==>
              exists i :: 0 <= i < n && t in table[order[i]] && Merge(table, order, n)[t] == table[order[i]][t]
  {
    if n > 0 {
      MergeHas(table, order, n - 1, t);
    }
  }

  lemma {:induction false} MergedMeans(table: RegionTable, user: string, order: seq<string>, t: string)
    requires MayComeUp(table, user, order)
    ensures var urls := Merge(table, order, |order|);
            && (t in urls <==> Reaches(table, user, t))
            && (t in urls ==> UrlFrom(table, user, t, urls[t]))
  {
    MergeHas(table, order, |order|, t);
    if Reaches(table, user, t) {
      var r :| r in table && t in table[r] && RegionMatches(user, r);
      assert r in order;
    }
    if OffersAmong(table, order, |order|, t) {
      var i :| 0 <= i < |order| && t in table[order[i]] && Merge(table, order, |order|)[t] == table[order[i]][t];
      assert order[i] in Matching(table, user);
    }
  }

  lemma UrlsOfMeansAt(table: RegionTable, user: string, urls: ServiceURLs, t: string)
    requires UrlsOf(table, user, urls)
    ensures t in urls <==> Reaches(table, user, t)
    ensures t in urls ==> UrlFrom(table, user, t, urls[t])
  {
    var order :| MayComeUp(table, user, order) && urls == Merge(table, order, |order|);
    MergedMeans(table, user, order, t);
  }

  /** Whatever the order: an endpoint for exactly the types that can be reached, each from a region
      that matches. */
  lemma UrlsOfMeans(table: RegionTable, user: string, urls: ServiceURLs)
    requires UrlsOf(table, user, urls)
    ensures forall t :: t in urls <==> Reaches(table, user, t)
    ensures forall t :: t in urls ==> UrlFrom(table, user, t, urls[t])
  {
    forall t
      ensures t in urls <==> Reaches(table, user, t)
      ensures t in urls ==> UrlFrom(table, user, t, urls[t])
    {
      UrlsOfMeansAt(table, user, urls, t);
    }
  }

  lemma {:induction false} EnumerationOf(keys: set<string>) returns (order: seq<string>)
    ensures Enumerates(order, keys)
  {
    if keys == {} {
      order := [];
    } else {
      var x :| x in keys;
      order := EnumerationOf(keys - {x});
      order := order + [x];
    }
  }

  /** The endpoint of any matching region can be the one that is stored. */
  lemma AnyMayWin(table: RegionTable, user: string, r: string, t: string) returns (urls: ServiceURLs)
    requires r in table && RegionMatches(user, r) && t in table[r]
    ensures UrlsOf(table, user, urls) && t in urls && urls[t] == table[r][t]
  {
    var rest := EnumerationOf(Matching(table, user) - {r});
    var order := rest + [r];
    assert MayComeUp(table, user, order);
    urls := Merge(table, order, |order|);
    assert order[|order| - 1] == r;
  }

  /** Matching regions that offer the same type list the same endpoint for it. */
  predicate OneEndpointEach(table: RegionTable, user: string) {
    forall q, r :: q in table && r in table && RegionMatches(user, q) && RegionMatches(user, r) ==>
      forall t :: t in table[q] && t in table[r] ==> table[q][t] == table[r][t]
  }

  ghost predicate OrderIrrelevant(table: RegionTable, user: string) {
    forall a, b :: UrlsOf(table, user, a) && UrlsOf(table, user, b) ==> a == b
  }

  /** Which endpoints are stored does not depend on the order exactly when no two matching regions
      disagree. */
  lemma OrderIrrelevantExactly(table: RegionTable, user: string)
    ensures OrderIrrelevant(table, user) <==> OneEndpointEach(table, user)
  {
    if OneEndpointEach(table, user) {
      forall a, b | UrlsOf(table, user, a) && UrlsOf(table, user, b)
        ensures a == b
      {
        SameEndpoints(table, user, a, b);
      }
    } else {
      var q, r, t :| q in table && r in table && RegionMatches(user, q) && RegionMatches(user, r) &&
                     t in table[q] && t in table[r] && table[q][t] != table[r][t];
      var a := AnyMayWin(table, user, q, t);
      var b := AnyMayWin(table, user, r, t);
    }
  }

  lemma SameEndpoint(table: RegionTable, user: string, t: string, u: string, v: string)
    requires OneEndpointEach(table, user) && UrlFrom(table, user, t, u) && UrlFrom(table, user, t, v)
    ensures u == v
  {
  }

  lemma SameEndpoints(table: RegionTable, user: string, a: ServiceURLs, b: ServiceURLs)
    requires OneEndpointEach(table, user) && UrlsOf(table, user, a) && UrlsOf(table, user, b)
    ensures a == b
  {
    forall t
      ensures t in a <==> t in b
      ensures t in a ==> a[t] == b[t]
    {
      UrlsOfMeansAt(table, user, a, t);
      UrlsOfMeansAt(table, user, b, t);
      if t in a {
        SameEndpoint(table, user, t, a[t], b[t]);
      }
    }
  }

  // ---------- Suggestions ----------

  function Providers(table: RegionTable, t: string): set<string> {
    set r | r in table && t in table[r]
  }

  /** Some longer region that ends with `region` offers `t`. */
  predicate HasLonger(table: RegionTable, region: string, t: string) {
    exists v :: v in table && t in table[v] && RegionMatches(v, region) && v != region
  }

  /** Regions suggested for a missing type `t` because of another missing type `u`. */
  function PairSuggestions(table: RegionTable, t: string, u: string): set<string> {
    set r | r in table && t in table[r] && !HasLonger(table, r, u) && Reaches(table, r, u)
  }

  function RowSuggestions(table: RegionTable, t: string, others: seq<string>): multiset<string> {
    if others == [] then multiset{}
    else
      var n := |others| - 1;
      RowSuggestions(table, t, others[..n]) +
      if t == others[n] then multiset{} else multiset(PairSuggestions(table, t, others[n]))
  }

  function GridSuggestions(table: RegionTable, rows: seq<string>, others: seq<string>): multiset<string> {
    if rows == [] then multiset{}
    else
      var n := |rows| - 1;
      GridSuggestions(table, rows[..n], others) + RowSuggestions(table, rows[n], others)
  }

  /** All suggestions, with repetitions: the providers of a single missing type, otherwise those
      of every ordered pair of different missing types. */
  function Suggestions(table: RegionTable, missing: seq<string>): multiset<string> {
    if |missing| == 1 then multiset(Providers(table, missing[0]))
    else GridSuggestions(table, missing, missing)
  }

  ghost predicate RowHas(table: RegionTable, t: string, others: seq<string>, r: string) {
    exists u :: u in others && u != t && r in PairSuggestions(table, t, u)
  }

  ghost predicate GridHas(table: RegionTable, rows: seq<string>, others: seq<string>, r: string) {
    exists t :: t in rows && RowHas(table, t, others, r)
  }

  lemma RowHasStep(table: RegionTable, t: string, others: seq<string>, r: string)
    requires others != []
    ensures var n := |others| - 1;
            RowHas(table, t, others, r) <==>
              RowHas(table, t, others[..n], r) || (others[n] != t && r in PairSuggestions(table, t, others[n]))
  {
    var n := |others| - 1;
    assert forall u :: u in others <==> u in others[..n] || u == others[n];
  }

  lemma {:induction false} InRow(table: RegionTable, t: string, others: seq<string>, r: string)
    ensures r in RowSuggestions(table, t, others) <==> RowHas(table, t, others, r)
  {
    if others != [] {
      InRow(table, t, others[..|others| - 1], r);
      RowHasStep(table, t, others, r);
    }
  }

  lemma GridHasStep(table: RegionTable, rows: seq<string>, others: seq<string>, r: string)
    requires rows != []
    ensures var n := |rows| - 1;
            GridHas(table, rows, others, r) <==>
              GridHas(table, rows[..n], others, r) || RowHas(table, rows[n], others, r)
  {
    var n := |rows| - 1;
    assert forall t :: t in rows <==> t in rows[..n] || t == rows[n];
  }

  lemma {:induction false} InGrid(table: RegionTable, rows: seq<string>, others: seq<string>, r: string)
    ensures r in GridSuggestions(table, rows, others) <==> GridHas(table, rows, others, r)
  {
    if rows != [] {
      var n := |rows| - 1;
      InGrid(table, rows[..n], others, r);
      InRow(table, rows[n], others, r);
      GridHasStep(table, rows, others, r);
    }
  }

  /** `r` offers `t` and ends with a region that offers `u`, and no other region that ends with `r`
      offers `u`. */
  predicate MostSpecific(table: RegionTable, t: string, u: string, r: string) {
    && r in table && t in table[r]
    && (exists v :: v in table && u in table[v] && RegionMatches(r, v))
    && (forall v :: v in table && u in table[v] && RegionMatches(v, r) ==> v == r)
  }

  lemma PairIsMostSpecific(table: RegionTable, t: string, u: string, r: string)
    ensures r in PairSuggestions(table, t, u) <==> MostSpecific(table, t, u, r)
  {
  }

  /** Which regions are suggested: those that offer the only missing type, or for which there are two
      different missing types, one offered and the other reached in the most specific way. */
  lemma SuggestedExactly(table: RegionTable, missing: seq<string>, r: string)
    ensures r in Suggestions(table, missing) <==>
            if |missing| == 1 then r in table && missing[0] in table[r]
            else exists t, u :: t in missing && u in missing && t != u && MostSpecific(table, t, u, r)
  {
    if |missing| != 1 {
      InGrid(table, missing, missing, r);
      forall t, u
        ensures r in PairSuggestions(table, t, u) <==> MostSpecific(table, t, u, r)
      {
        PairIsMostSpecific(table, t, u, r);
      }
      if t, u :| t in missing && u in missing && t != u && MostSpecific(table, t, u, r) {
        assert RowHas(table, t, missing, r);
      }
    }
  }

  /** The types at these positions differ and make `r` a suggestion. */
  predicate Hit(table: RegionTable, missing: seq<string>, r: string, i: int, j: int) {
    && 0 <= i < |missing| && 0 <= j < |missing| && missing[i] != missing[j]
    && MostSpecific(table, missing[i], missing[j], r)
  }

  lemma {:induction false} RowTimes(table: RegionTable, missing: seq<string>, r: string, i: nat, n: nat)
    requires i < |missing| && n <= |missing|
    ensures RowSuggestions(table, missing[i], missing[..n])[r] == |Those(n, j => Hit(table, missing, r, i, j))|
  {
    var hit := j => Hit(table, missing, r, i, j);
    if n == 0 {
      assert Those(n, hit) == {};
    } else {
      RowTimes(table, missing, r, i, n - 1);
      assert missing[..n][..n - 1] == missing[..n - 1];
      PairIsMostSpecific(table, missing[i], missing[n - 1], r);
      OneMore(n - 1, hit);
    }
  }

  lemma {:induction false} GridTimes(table: RegionTable, missing: seq<string>, r: string, m: nat)
    requires m <= |missing|
    ensures GridSuggestions(table, missing[..m], missing)[r] ==
            |ThosePairs(m, |missing|, (i, j) => Hit(table, missing, r, i, j))|
  {
    var hit := (i, j) => Hit(table, missing, r, i, j);
    if m == 0 {
      assert ThosePairs(m, |missing|, hit) == {};
    } else {
      GridTimes(table, missing, r, m - 1);
      assert missing[..m][..m - 1] == missing[..m - 1];
      assert missing[..|missing|] == missing;
      RowTimes(table, missing, r, m - 1, |missing|);
      RowMore(m - 1, |missing|, hit);
      assert Those(|missing|, j => Hit(table, missing, r, m - 1, j)) == Those(|missing|, j => hit(m - 1, j));
    }
  }

  /** How often a region is suggested: once for the only missing type, else once for each pair of
      positions of different missing types that make it a suggestion. */
  lemma {:induction false} SuggestedTimes(table: RegionTable, missing: seq<string>, r: string)
    ensures Suggestions(table, missing)[r] ==
            if |missing| == 1 then if r in table && missing[0] in table[r] then 1 else 0
            else |set i, j | 0 <= i < |missing| && 0 <= j < |missing| && missing[i] != missing[j] &&
                             MostSpecific(table, missing[i], missing[j], r) :: (i, j)|
  {
    if |missing| != 1 {
      GridTimes(table, missing, r, |missing|);
      assert missing[..|missing|] == missing;
      assert ThosePairs(|missing|, |missing|, (i, j) => Hit(table, missing, r, i, j)) ==
             set i, j | 0 <= i < |missing| && 0 <= j < |missing| && missing[i] != missing[j] &&
                        MostSpecific(table, missing[i], missing[j], r) :: (i, j);
    }
  }

  predicate ReachesTwo(table: RegionTable, user: string, missing: seq<string>) {
    exists t, u :: t in missing && u in missing && t != u && Reaches(table, user, t) && Reaches(table, user, u)
  }

  /** Every suggested region reaches the only missing type, or two different missing types. */
  lemma SuggestedReaches(table: RegionTable, missing: seq<string>, r: string)
    requires r in Suggestions(table, missing)
    ensures if |missing| == 1 then Reaches(table, r, missing[0]) else ReachesTwo(table, r, missing)
  {
    MatchesItself(r);
    if |missing| != 1 {
      InGrid(table, missing, missing, r);
      var t :| t in missing && RowHas(table, t, missing, r);
      var u :| u in missing && u != t && r in PairSuggestions(table, t, u);
      assert Reaches(table, r, t);
    }
  }

  ghost predicate HelpsAll(table: RegionTable, missing: seq<string>) {
    forall r :: r in Suggestions(table, missing) ==> forall t :: t in missing ==> Reaches(table, r, t)
  }

  predicate Among(missing: seq<string>, t: string, u: string) {
    forall m :: m in missing ==> m == t || m == u
  }

  ghost predicate AtMostTwo(missing: seq<string>) {
    exists t, u :: Among(missing, t, u)
  }

  lemma TwoTypesHelped(table: RegionTable, missing: seq<string>, t: string, u: string)
    requires Among(missing, t, u)
    ensures HelpsAll(table, missing)
  {
    forall r, m | r in Suggestions(table, missing) && m in missing
      ensures Reaches(table, r, m)
    {
      SuggestedReaches(table, missing, r);
    }
  }

  /** One region that offers just `t` and `u`. */
  function OneRegion(t: string, u: string): RegionTable {
    map["r" := map[t := "", u := ""]]
  }

  lemma OnlyRegion(urls: ServiceURLs, t: string)
    ensures Reaches(map["r" := urls], "r", t) <==> t in urls
    ensures !HasLonger(map["r" := urls], "r", t)
  {
    MatchesItself("r");
    var table: RegionTable := map["r" := urls];
    assert table["r"] == urls;
    assert forall r :: r in table <==> r == "r";
  }

  lemma OneRegionSuggested(t: string, u: string, v: string)
    requires t != u && u != v && t != v
    ensures "r" in PairSuggestions(OneRegion(t, u), t, u) && !Reaches(OneRegion(t, u), "r", v)
  {
    var urls: ServiceURLs := map[t := "", u := ""];
    OnlyRegion(urls, u);
    OnlyRegion(urls, v);
    assert OneRegion(t, u)["r"] == urls;
  }

  lemma SuggestedForPair(table: RegionTable, missing: seq<string>, t: string, u: string, r: string)
    requires t in missing && u in missing && t != u && r in PairSuggestions(table, t, u)
    ensures r in Suggestions(table, missing)
  {
    var i, j :| 0 <= i < |missing| && 0 <= j < |missing| && missing[i] == t && missing[j] == u;
    assert i != j;
    assert RowHas(table, t, missing, r);
    InGrid(table, missing, missing, r);
  }

  /** With three different types missing a suggestion can fail to reach the third. */
  lemma ThirdTypeLeftOut(missing: seq<string>, t: string, u: string, v: string)
    requires t in missing && u in missing && v in missing && t != u && u != v && t != v
    ensures !HelpsAll(OneRegion(t, u), missing)
  {
    OneRegionSuggested(t, u, v);
    SuggestedForPair(OneRegion(t, u), missing, t, u, "r");
  }

  /** The suggestions are documented to give access to all the missing types. Whatever the
      regions offer, that holds exactly when at most two different types are missing. */
  lemma SuggestionsHelpAllExactly(missing: seq<string>)
    ensures (forall table :: HelpsAll(table, missing)) <==> AtMostTwo(missing)
  {
    if AtMostTwo(missing) {
      var t, u :| Among(missing, t, u);
      forall table
        ensures HelpsAll(table, missing)
      {
        TwoTypesHelped(table, missing, t, u);
      }
    } else {
      var t, u, v := ThreeTypes(missing);
      ThirdTypeLeftOut(missing, t, u, v);
    }
  }

  lemma ThreeTypes(missing: seq<string>) returns (t: string, u: string, v: string)
    requires !AtMostTwo(missing)
    ensures t in missing && u in missing && v in missing && t != u && u != v && t != v
  {
    assert !Among(missing, "", "");
    t :| t in missing && t != "";
    assert !Among(missing, t, t);
    u :| u in missing && u != t;
    assert !Among(missing, t, u);
    v :| v in missing && v != t && v != u;
  }

  // ---------- When there is anything to suggest ----------

  lemma {:induction false} LengthBound(regions: set<string>) returns (n: nat)
    ensures forall r :: r in regions ==> |r| <= n
  {
    if regions == {} {
      n := 0;
    } else {
      var r :| r in regions;
      var m := LengthBound(regions - {r});
      n := if |r| <= m then m else |r|;
    }
  }

  /** From a region that offers `t` and reaches `u`, follow longer and longer regions, offering
      the two types in turn, up to one that is suggested. The table is finite, so there is one. */
  lemma {:induction false} Climb(table: RegionTable, t: string, u: string, r: string, bound: nat) returns (s: string)
    requires Offers(table, r, t) && Reaches(table, r, u) && forall v :: v in table ==> |v| <= bound
    ensures s in PairSuggestions(table, t, u) || s in PairSuggestions(table, u, t)
    decreases bound - |r|
  {
    if HasLonger(table, r, u) {
      var v :| v in table && u in table[v] && RegionMatches(v, r) && v != r;
      assert v[0..] == v;
      assert |v| > |r|;
      assert Reaches(table, v, t);
      s := Climb(table, u, t, v, bound);
    } else {
      s := r;
    }
  }

  lemma ReachableIsSuggested(table: RegionTable, t: string, u: string, user: string) returns (s: string)
    requires Reaches(table, user, t) && Reaches(table, user, u)
    ensures s in PairSuggestions(table, t, u) || s in PairSuggestions(table, u, t)
  {
    var a :| a in table && t in table[a] && RegionMatches(user, a);
    var b :| b in table && u in table[b] && RegionMatches(user, b);
    var bound := LengthBound(table.Keys);
    if |b| <= |a| {
      MatchesChain(user, a, b);
      s := Climb(table, t, u, a, bound);
    } else {
      MatchesChain(user, b, a);
      s := Climb(table, u, t, b, bound);
    }
  }

  /** There is something to suggest exactly when the only missing type is offered somewhere, or
      some region string, in the table or not, would reach two different missing types. A single
      type required - and missing - more than once gets no suggestion. */
  lemma SuggestionsExist(table: RegionTable, missing: seq<string>)
    ensures Suggestions(table, missing) != multiset{} <==>
            if |missing| == 1 then Providers(table, missing[0]) != {}
            else exists user :: ReachesTwo(table, user, missing)
  {
    if |missing| == 1 {
      assert forall r :: r in Suggestions(table, missing) <==> r in Providers(table, missing[0]);
    } else {
      if Suggestions(table, missing) != multiset{} {
        var r :| r in Suggestions(table, missing);
        SuggestedReaches(table, missing, r);
      }
      if user :| ReachesTwo(table, user, missing) {
        var t, u :| t in missing && u in missing && t != u && Reaches(table, user, t) && Reaches(table, user, u);
        var s := ReachableIsSuggested(table, t, u, user);
        if s in PairSuggestions(table, t, u) {
          SuggestedForPair(table, missing, t, u, s);
        } else {
          SuggestedForPair(table, missing, u, t, s);
        }
      }
    }
  }

  /** Two services, each offered in a region of its own. */
  function Apart(a: string, t: string, b: string, u: string): RegionTable {
    map[a := map[t := ""], b := map[u := ""]]
  }

  lemma ApartTable(a: string, t: string, b: string, u: string)
    requires a != b
    ensures var table := Apart(a, t, b, u);
            && (forall r :: r in table <==> r == a || r == b)
            && (forall m :: m in table[a] <==> m == t)
            && (forall m :: m in table[b] <==> m == u)
  {
  }

  /** A suggestion need not keep what the configured region already reaches: a client in region
      `a`, which reaches only `t`, is sent to an unrelated region `b`, which reaches only `u`. */
  lemma SuggestionLosesAccess(a: string, t: string, b: string, u: string)
    requires t != u && !RegionMatches(a, b) && !RegionMatches(b, a)
    ensures Reaches(Apart(a, t, b, u), a, t) && !Reaches(Apart(a, t, b, u), a, u)
    ensures b in Suggestions(Apart(a, t, b, u), [u]) && !Reaches(Apart(a, t, b, u), b, t)
  {
    MatchesItself(a);
    ApartTable(a, t, b, u);
    assert b in Providers(Apart(a, t, b, u), u);
  }

  /** Every type that `a` reaches, `b` reaches as well. */
  ghost predicate KeepsAccess(table: RegionTable, a: string, b: string) {
    forall t :: Reaches(table, a, t) ==> Reaches(table, b, t)
  }

  /** `b` is suggested to a client in region `a`, for which all of `missing` are missing. */
  ghost predicate SuggestedTo(table: RegionTable, a: string, missing: seq<string>, b: string) {
    b in Suggestions(table, missing) && forall t :: t in missing ==> !Reaches(table, a, t)
  }

  lemma SuggestedOffers(table: RegionTable, missing: seq<string>, b: string) returns (t: string)
    requires b in Suggestions(table, missing)
    ensures t in missing && Offers(table, b, t)
  {
    if |missing| == 1 {
      t := missing[0];
    } else {
      InGrid(table, missing, missing, b);
      t :| t in missing && RowHas(table, t, missing, b);
    }
  }

  /** A more specific region keeps all access; a less specific one is never suggested. */
  lemma RelatedKeepsAccess(table: RegionTable, a: string, missing: seq<string>, b: string)
    requires SuggestedTo(table, a, missing, b) && (RegionMatches(b, a) || RegionMatches(a, b))
    ensures KeepsAccess(table, a, b)
  {
    if RegionMatches(b, a) {
      forall t | Reaches(table, a, t)
        ensures Reaches(table, b, t)
      {
        var r :| r in table && t in table[r] && RegionMatches(a, r);
        MatchesTransitive(b, a, r);
      }
    } else {
      var t := SuggestedOffers(table, missing, b);
      assert Reaches(table, a, t);
    }
  }

  lemma UnrelatedLosesAccess(a: string, b: string) returns (table: RegionTable, missing: seq<string>)
    requires !RegionMatches(a, b) && !RegionMatches(b, a)
    ensures SuggestedTo(table, a, missing, b) && !KeepsAccess(table, a, b)
  {
    table, missing := Apart(a, "t", b, "u"), ["u"];
    SuggestionLosesAccess(a, "t", b, "u");
  }

  /** Whatever the regions offer and whatever is missing, moving from region `a` to a suggested
      region `b` keeps all access exactly when one of the two ends with the other. */
  lemma SuggestionKeepsAccessExactly(a: string, b: string)
    ensures (forall table, missing :: SuggestedTo(table, a, missing, b) ==> KeepsAccess(table, a, b)) <==>
            RegionMatches(b, a) || RegionMatches(a, b)
  {
    if RegionMatches(b, a) || RegionMatches(a, b) {
      forall table, missing | SuggestedTo(table, a, missing, b)
        ensures KeepsAccess(table, a, b)
      {
        RelatedKeepsAccess(table, a, missing, b);
      }
    } else {
      var table, missing := UnrelatedLosesAccess(a, b);
      assert SuggestedTo(table, a, missing, b) && !KeepsAccess(table, a, b);
    }
  }
}
