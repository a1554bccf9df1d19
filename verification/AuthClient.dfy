/** The client that authenticates before sending requests: how it resolves endpoint URLs for its
    region and what one authentication does to it (goose/client/client.go). */
module AuthClient {
  import opened Wrappers
  import opened Sequences
  import opened Strings
  import opened Regions
  import opened Catalogue

  datatype Resolution =
    | Resolved
    | InvalidRegion(suggestions: seq<string>)
    | MissingServices(missing: seq<string>, suggestions: seq<string>)

  function RegionsOf(m: map<string, seq<string>>, t: string): seq<string> {
    if t in m then m[t] else []
  }

  /** `m` lists, once each, the regions that offer a type. */
  ghost predicate Inverts(table: RegionTable, m: map<string, seq<string>>) {
    forall t :: Enumerates(RegionsOf(m, t), Providers(table, t))
  }

  /** The required types not known to be accessible. */
  function Without(required: seq<string>, accessible: seq<string>): seq<string> {
    if required == [] then []
    else
      var n := |required| - 1;
      Without(required[..n], accessible) + if required[n] in accessible then [] else [required[n]]
  }

  lemma {:induction false} WithoutIsMissing(table: RegionTable, user: string, required: seq<string>,
                                                accessible: seq<string>)
    requires forall t :: t in required ==> (t in accessible <==> Reaches(table, user, t))
    ensures Without(required, accessible) == Missing(table, user, required)
  {
    if required != [] {
      var n := |required| - 1;
      WithoutIsMissing(table, user, required[..n], accessible);
    }
  }

  /** Is some region in `values` longer than `region` and based on it? */
  predicate ContainsBaseRegion(values: seq<string>, region: string) {
    exists v :: v in values && RegionMatches(v, region) && region != v
  }

  /** Is `region` based on some region in `values`? */
  predicate ContainsSuperRegion(values: seq<string>, region: string) {
    exists v :: v in values && (RegionMatches(region, v) || region == v)
  }

  lemma ProvidersDecide(table: RegionTable, values: seq<string>, u: string, region: string)
    requires Enumerates(values, Providers(table, u))
    ensures ContainsBaseRegion(values, region) <==> HasLonger(table, region, u)
    ensures ContainsSuperRegion(values, region) <==> Reaches(table, region, u)
  {
    MatchesItself(region);
    if HasLonger(table, region, u) {
      var v :| v in table && u in table[v] && RegionMatches(v, region) && v != region;
      assert v in values;
    }
    if Reaches(table, region, u) {
      var v :| v in table && u in table[v] && RegionMatches(region, v);
      assert v in values;
    }
  }

  /** The test for one region of a pair. */
  predicate Eligible(regionsCompare: seq<string>, region: string) {
    !ContainsBaseRegion(regionsCompare, region) && ContainsSuperRegion(regionsCompare, region)
  }

  lemma EligibleIsSuggested(table: RegionTable, m: map<string, seq<string>>, t: string, u: string)
    requires Inverts(table, m)
    ensures forall r :: r in RegionsOf(m, t) && Eligible(RegionsOf(m, u), r) <==> r in PairSuggestions(table, t, u)
  {
    assert Enumerates(RegionsOf(m, t), Providers(table, t)) && Enumerates(RegionsOf(m, u), Providers(table, u));
    forall r
      ensures r in RegionsOf(m, t) && Eligible(RegionsOf(m, u), r) <==> r in PairSuggestions(table, t, u)
    {
      ProvidersDecide(table, RegionsOf(m, u), u, r);
      assert r in RegionsOf(m, t) <==> r in Providers(table, t);
    }
  }

  /** The eligible ones among the first `n` regions. */
  function EligibleAmong(regions: seq<string>, regionsCompare: seq<string>, n: nat): set<string>
    requires n <= |regions|
  {
    set r | r in regions[..n] && Eligible(regionsCompare, r)
  }

  lemma EligibleStep(regions: seq<string>, regionsCompare: seq<string>, n: nat)
    requires Distinct(regions) && n < |regions|
    ensures var r := regions[n];
            var before := EligibleAmong(regions, regionsCompare, n);
            && r !in before
            && EligibleAmong(regions, regionsCompare, n + 1) ==
               if Eligible(regionsCompare, r) then before + {r} else before
  {
    assert regions[n] !in regions[..n];
    assert regions[..n + 1] == regions[..n] + [regions[n]];
  }

  lemma AllEligible(table: RegionTable, m: map<string, seq<string>>, t: string, u: string)
    requires Inverts(table, m)
    ensures Distinct(RegionsOf(m, t))
    ensures EligibleAmong(RegionsOf(m, t), RegionsOf(m, u), |RegionsOf(m, t)|) == PairSuggestions(table, t, u)
  {
    var regions := RegionsOf(m, t);
    assert Enumerates(regions, Providers(table, t));
    assert regions[..|regions|] == regions;
    EligibleIsSuggested(table, m, t, u);
  }

  /** Appends, for one pair of missing types, the regions of the first to be suggested. */
  method AppendPossibleRegions(t: string, u: string, m: map<string, seq<string>>, regionsSoFar: seq<string>,
                               ghost table: RegionTable)
    returns (possible: seq<string>)
    requires Inverts(table, m)
    ensures multiset(possible) == multiset(regionsSoFar) + multiset(PairSuggestions(table, t, u))
  {
    possible := regionsSoFar;
    var regions := RegionsOf(m, t);
    var regionsCompare := RegionsOf(m, u);
    AllEligible(table, m, t, u);
    for i := 0 to |regions|
      invariant multiset(possible) == multiset(regionsSoFar) + multiset(EligibleAmong(regions, regionsCompare, i))
    {
      EligibleStep(regions, regionsCompare, i);
      if Eligible(regionsCompare, regions[i]) {
        possible := possible + [regions[i]];
      }
    }
  }

  /** What the client's lock protects, and what an authentication changes. */
  datatype Shared = Shared(token: string, urls: ServiceURLs, table: RegionTable)

  /** One whole authentication for a client in region `user`, given what the authenticator returned. */
  ghost predicate AuthStep(user: string, required: seq<string>, before: Shared, reply: Option<AuthDetails>,
                           after: Shared, ok: bool)
  {
    if before.token != "" then ok && after == before
    else if reply.None? then !ok && after == before
    else
      && after.table == reply.value.regionServiceURLs
      && (ok <==> before.urls != map[] || Missing(after.table, user, required) == [])
      && after.token == (if ok then reply.value.token else "")
      && if ok && before.urls == map[] then Resolves(after.table, user, required, after.urls)
         else after.urls == before.urls
  }

  /** Once there are URLs, or a token, every required type has a URL. */
  predicate Prepared(required: seq<string>, s: Shared) {
    s.urls != map[] || s.token != "" ==> forall t :: t in required ==> t in s.urls
  }

  /** An authentication prepares the client or leaves it as it was. */
  lemma AuthStepKeepsPrepared(user: string, required: seq<string>, before: Shared, reply: Option<AuthDetails>,
                              after: Shared, ok: bool)
    requires Prepared(required, before) && AuthStep(user, required, before, reply, after, ok)
    ensures Prepared(required, after) && (ok ==> forall t :: t in required ==> t in after.urls)
  {
  }

  lemma {:induction false} AuthStepSucceeds(user: string, required: seq<string>, before: Shared,
                                            details: AuthDetails, urls: ServiceURLs)
    requires before.token == ""
    requires if before.urls != map[] then urls == before.urls
             else Missing(details.regionServiceURLs, user, required) == [] &&
                  Resolves(details.regionServiceURLs, user, required, urls)
    ensures var after := Shared(details.token, urls, details.regionServiceURLs);
            AuthStep(user, required, before, Some(details), after, true)
  {
  }

  lemma {:induction false} AuthStepFails(user: string, required: seq<string>, before: Shared, details: AuthDetails)
    requires before.token == "" && before.urls == map[]
    requires Missing(details.regionServiceURLs, user, required) != []
    ensures AuthStep(user, required, before, Some(details), before.(table := details.regionServiceURLs), false)
  {
  }

  /** What a server answers to a request. */
  datatype Answer = Fine | Unauthorised | OtherError

  /** The outcome of sending a request: it could not be sent, or what the server answered. */
  datatype SendResult = AuthFailed(unauthorised: bool) | NoEndpoint | Replied(answer: Answer)
  {
    predicate Refused() {
      this == Replied(Unauthorised) || this == AuthFailed(true)
    }
  }

  /** What a client learns from outside: the time, the identity service's reply (or none, the
      client's credentials being refused or not), and the answer to a request sent to a URL with a
      token. */
  datatype Exchange =
    | Looked(now: int)
    | Asked(reply: Option<Access>, unauthorised: bool)
    | Sent(url: string, token: string, answer: Answer)

  class Network {
    ghost var log: seq<Exchange>

    constructor ()
      ensures log == []
    {
      log := [];
    }

    method Now() returns (now: int)
      modifies this
      ensures log == old(log) + [Looked(now)]
    {
      now := *;
      log := log + [Looked(now)];
    }

    method RequestToken() returns (reply: Option<Access>, unauthorised: bool)
      modifies this
      ensures log == old(log) + [Asked(reply, unauthorised)]
    {
      reply, unauthorised := *, *;
      log := log + [Asked(reply, unauthorised)];
    }

    method Send(url: string, token: string) returns (answer: Answer)
      modifies this
      ensures log == old(log) + [Sent(url, token, answer)]
    {
      answer := *;
      log := log + [Sent(url, token, answer)];
    }
  }

  /** The reply lets a client without a token in: it has one, and unless the client has URLs already
      its catalogue lists, for every required type, an endpoint in a region that matches. */
  ghost predicate Admits(region: string, required: seq<string>, urls: ServiceURLs, reply: Option<Access>) {
    && reply.Some? && reply.value.token != ""
    && (urls != map[] || forall t :: t in required ==> Listed(reply.value.catalog, region, t))
  }

  /** The URLs that the catalogue gives a client in this region. */
  ghost predicate UrlsFrom(catalog: seq<Service>, region: string, urls: ServiceURLs) {
    exists table :: Tabulates(catalog, table) && UrlsOf(table, region, urls)
  }

  /** What a client with a token does about a request: it sends it to the URL of its service type. */
  predicate Delivered(t: string, s: Shared, steps: seq<Exchange>, result: SendResult) {
    if t in s.urls then
      |steps| == 1 && steps[0].Sent? && steps[0] == Sent(s.urls[t], s.token, steps[0].answer) &&
      result == Replied(steps[0].answer)
    else steps == [] && result == NoEndpoint
  }

  /** One attempt at a request. With a token, even an expired one, the request is sent at once;
      without one the identity service is asked first, and the request is sent only if its reply
      lets the client in. */
  ghost predicate Attempt(region: string, required: seq<string>, t: string, before: Shared, steps: seq<Exchange>,
                          result: SendResult, after: Shared)
  {
    && |steps| >= 1 && steps[0].Looked?
    && if before.token != "" then after == before && Delivered(t, after, steps[1..], result)
       else
         && |steps| >= 2 && steps[1].Asked?
         && var reply := steps[1].reply;
            if Admits(region, required, before.urls, reply) then
              && after.token == reply.value.token
              && (if before.urls == map[] then UrlsFrom(reply.value.catalog, region, after.urls)
                  else after.urls == before.urls)
              && Delivered(t, after, steps[2..], result)
            else
              && after.token == "" && after.urls == before.urls
              && steps[2..] == [] && result == AuthFailed(reply.None? && steps[1].unauthorised)
  }

  class AuthenticatingClient {
    const region: string
    var requiredServiceTypes: seq<string>
    var regionServiceURLs: RegionTable
    var serviceURLs: ServiceURLs
    var tokenId: string
    var tenantId: string
    var userId: string
    var expires: int

    /** `serviceUrls` overrides the URLs found by authenticating; it may be empty. */
    constructor (region: string, required: seq<string>, serviceUrls: ServiceURLs)
      ensures this.region == region && requiredServiceTypes == required
      ensures SharedState() == Shared("", serviceUrls, map[])
    {
      this.region := region;
      requiredServiceTypes := required;
      regionServiceURLs, serviceURLs := map[], serviceUrls;
      tokenId, tenantId, userId, expires := "", "", "", 0;
    }

    ghost function SharedState(): Shared
      reads this
    {
      Shared(tokenId, serviceURLs, regionServiceURLs)
    }

    method ExtractServiceTypeRegions() returns (m: map<string, seq<string>>)
      ensures Inverts(regionServiceURLs, m)
    {
      m := map[];
      var todo := regionServiceURLs.Keys;
      while todo != {}
        invariant todo <= regionServiceURLs.Keys
        invariant forall t :: ListsProviders(regionServiceURLs, t, RegionsOf(m, t), todo)
        decreases todo
      {
        var region :| region in todo;
        ghost var before := m;
        assert forall t :: ListsProviders(regionServiceURLs, t, RegionsOf(m, t), todo) && region !in RegionsOf(m, t);
        m := AddRegion(m, region, regionServiceURLs[region].Keys);
        forall t
          ensures ListsProviders(regionServiceURLs, t, RegionsOf(m, t), todo - {region})
        {
          OneMoreProvider(regionServiceURLs, t, RegionsOf(before, t), todo, region);
        }
        todo := todo - {region};
      }
      forall t
        ensures Enumerates(RegionsOf(m, t), Providers(regionServiceURLs, t))
      {
        assert ListsProviders(regionServiceURLs, t, RegionsOf(m, t), {});
      }
    }

    /** The required types that are not accessible, and the regions to suggest, sorted. */
    method PossibleRegions(accessible: seq<string>) returns (missing: seq<string>, possible: seq<string>)
      ensures missing == Without(requiredServiceTypes, accessible)
      ensures Sorted(possible) && multiset(possible) == Suggestions(regionServiceURLs, missing)
    {
      missing, possible := [], [];
      var m := map[];
      for i := 0 to |requiredServiceTypes|
        invariant missing == Without(requiredServiceTypes[..i], accessible)
        invariant missing != [] ==> Inverts(regionServiceURLs, m)
      {
        assert requiredServiceTypes[..i + 1][..i] == requiredServiceTypes[..i];
        var t := requiredServiceTypes[i];
        if t !in accessible {
          missing := missing + [t];
          m := ExtractServiceTypeRegions();
        }
      }
      assert requiredServiceTypes[..|requiredServiceTypes|] == requiredServiceTypes;
      if |missing| == 1 {
        possible := RegionsOf(m, missing[0]);
        ListedOnce(possible, Providers(regionServiceURLs, missing[0]));
      } else {
        possible := PairwiseRegions(missing, m, regionServiceURLs);
      }
      SortSorts(possible);
      possible := Sort(possible);
    }

    /** Stores the endpoint URLs for the client's region, or reports which required types are
        missing. It succeeds exactly when every required type can be reached. */
    method CreateServiceURLs() returns (r: Resolution)
      modifies this`serviceURLs
      ensures var table, missing := regionServiceURLs, Missing(regionServiceURLs, region, requiredServiceTypes);
              match r
              case Resolved => missing == [] && Resolves(table, region, requiredServiceTypes, serviceURLs)
              case InvalidRegion(s) =>
                && missing != [] && serviceURLs == old(serviceURLs)
                && (forall known :: known in table ==> !RegionMatches(region, known))
                && Sorted(s) && multiset(s) == Suggestions(table, missing)
              case MissingServices(ms, s) =>
                && ms == missing != [] && serviceURLs == old(serviceURLs)
                && (exists known :: known in table && RegionMatches(region, known))
                && Sorted(s) && multiset(s) == Suggestions(table, missing)
    {
      var found, urls := MatchingURLs(regionServiceURLs, region);
      UrlsOfMeans(regionServiceURLs, region, urls);
      var missing, possible;
      if !found {
        missing, possible := PossibleRegions([]);
        WithoutIsMissing(regionServiceURLs, region, requiredServiceTypes, []);
      } else {
        var existing := RequiredAmong(urls, requiredServiceTypes);
        missing, possible := PossibleRegions(existing);
        WithoutIsMissing(regionServiceURLs, region, requiredServiceTypes, existing);
      }
      if |missing| > 0 {
        return if found then MissingServices(missing, possible) else InvalidRegion(possible);
      }
      forall t | t in requiredServiceTypes
        ensures t in urls
      {
        MissingAre(regionServiceURLs, region, requiredServiceTypes, t);
      }
      serviceURLs := urls;
      return Resolved;
    }

    /** Creates the endpoint URLs unless there are some. */
    method FindURLs() returns (known: bool)
      modifies this`serviceURLs
      ensures known <==> old(serviceURLs) != map[] || Missing(regionServiceURLs, region, requiredServiceTypes) == []
      ensures if known && old(serviceURLs) == map[]
              then Resolves(regionServiceURLs, region, requiredServiceTypes, serviceURLs)
              else serviceURLs == old(serviceURLs)
    {
      if |serviceURLs| > 0 {
        return true;
      }
      var r := CreateServiceURLs();
      return r.Resolved?;
    }

    /** One authentication, given what the authenticator returned. The token is set last. */
    method DoAuthenticate(reply: Option<AuthDetails>) returns (ok: bool)
      modifies this
      ensures requiredServiceTypes == old(requiredServiceTypes)
      ensures AuthStep(region, requiredServiceTypes, old(SharedState()), reply, SharedState(), ok)
      ensures old(Prepared(requiredServiceTypes, SharedState())) ==> Prepared(requiredServiceTypes, SharedState())
      ensures ok && old(tokenId) == "" ==>
                tenantId == reply.value.tenantId && userId == reply.value.userId && expires == reply.value.expiresAt
      ensures !ok || old(tokenId) != "" ==>
                tenantId == old(tenantId) && userId == old(userId) && expires == old(expires)
    {
      if tokenId != "" {
        return true;
      }
      if reply.None? {
        return false;
      }
      ghost var before := SharedState();
      regionServiceURLs := reply.value.regionServiceURLs;
      var known := FindURLs();
      if !known {
        AuthStepFails(region, requiredServiceTypes, before, reply.value);
        return false;
      }
      AuthStepSucceeds(region, requiredServiceTypes, before, reply.value, serviceURLs);
      tenantId := reply.value.tenantId;
      userId := reply.value.userId;
      tokenId := reply.value.token;
      expires := reply.value.expiresAt;
      return true;
    }

    /** Asks the identity service unless there is a token, and goes from its raw reply to a client
        ready to send requests. */
    method Authenticate(net: Network) returns (ok: bool, unauthorised: bool)
      modifies this, net
      ensures requiredServiceTypes == old(requiredServiceTypes)
      ensures old(Prepared(requiredServiceTypes, SharedState())) ==> Prepared(requiredServiceTypes, SharedState())
      ensures if old(tokenId) != "" then ok && net.log == old(net.log) && SharedState() == old(SharedState())
              else
                && |net.log| == |old(net.log)| + 1 && net.log[..|old(net.log)|] == old(net.log)
                && net.log[|old(net.log)|].Asked?
                && var asked := net.log[|old(net.log)|];
                   && (ok <==> Admits(region, requiredServiceTypes, old(serviceURLs), asked.reply))
                   && tokenId == (if ok then asked.reply.value.token else "")
                   && (if ok && old(serviceURLs) == map[] then UrlsFrom(asked.reply.value.catalog, region, serviceURLs)
                       else serviceURLs == old(serviceURLs))
                   && (unauthorised <==> asked.reply.None? && asked.unauthorised)
    {
      if tokenId != "" {
        return true, false;
      }
      var reply, refused := net.RequestToken();
      assert net.log[..|old(net.log)|] == old(net.log);
      var details := Auth(reply);
      ok := DoAuthenticate(details);
      unauthorised := reply.None? && refused;
      if details.Some? {
        AllListed(reply.value.catalog, details.value.regionServiceURLs, region, requiredServiceTypes);
      }
    }

    /** The base URL for a service type. A prepared client has one for each required type as soon
        as it has a token. */
    method ServiceURL(t: string) returns (url: Option<string>)
      ensures Prepared(requiredServiceTypes, SharedState()) && t in requiredServiceTypes ==>
                (url.Some? <==> tokenId != "")
      ensures url.Some? ==> tokenId != "" && t in serviceURLs && url.value == serviceURLs[t]
      ensures url.None? && tokenId != "" ==> t !in serviceURLs
    {
      if tokenId == "" || t !in serviceURLs {
        return None;
      }
      return Some(serviceURLs[t]);
    }

    method SetToken(tokenId: string)
      modifies this`tokenId
      ensures this.tokenId == tokenId
    {
      this.tokenId := tokenId;
    }

    /** Authenticates unless there is an unexpired token, and sends the request once. */
    method SendAuthRequest(net: Network, t: string) returns (result: SendResult, ghost steps: seq<Exchange>)
      modifies this, net
      ensures requiredServiceTypes == old(requiredServiceTypes)
      ensures old(Prepared(requiredServiceTypes, SharedState())) ==> Prepared(requiredServiceTypes, SharedState())
      ensures net.log == old(net.log) + steps
      ensures Attempt(region, requiredServiceTypes, t, old(SharedState()), steps, result, SharedState())
    {
      var now := net.Now();
      steps := [Looked(now)];
      if now > expires || tokenId == "" {
        var ok, unauthorised := Authenticate(net);
        steps := net.log[|old(net.log)|..];
        if !ok {
          return AuthFailed(unauthorised), steps;
        }
      }
      var url := ServiceURL(t);
      if url.None? {
        return NoEndpoint, steps;
      }
      var answer := net.Send(url.value, tokenId);
      result, steps := Replied(answer), steps + [Sent(url.value, tokenId, answer)];
    }

    /** Sends a request, and once more with a cleared token when it, or the client, was refused as
        unauthorised. Then the identity service is asked again. */
    method SendRequest(net: Network, t: string)
      returns (result: SendResult, ghost first: seq<Exchange>, ghost again: seq<Exchange>)
      modifies this, net
      ensures requiredServiceTypes == old(requiredServiceTypes)
      ensures old(Prepared(requiredServiceTypes, SharedState())) ==> Prepared(requiredServiceTypes, SharedState())
      ensures net.log == old(net.log) + first + again
      ensures exists middle, r ::
                && Attempt(region, requiredServiceTypes, t, old(SharedState()), first, r, middle)
                && if r.Refused()
                   then Attempt(region, requiredServiceTypes, t, middle.(token := ""), again, result, SharedState())
                   else again == [] && result == r && SharedState() == middle
      ensures old(Prepared(requiredServiceTypes, SharedState())) && t in requiredServiceTypes ==> !result.NoEndpoint?
    {
      ghost var before := SharedState();
      result, first := SendAuthRequest(net, t);
      again := [];
      ghost var middle, r := SharedState(), result;
      if result.Refused() {
        SetToken("");
        assert SharedState() == middle.(token := "");
        result, again := SendAuthRequest(net, t);
      }
      assert Attempt(region, requiredServiceTypes, t, before, first, r, middle);
    }
  }

  /** A request reaches the server, if at all, with a token and at the URL of its type; an attempt
      sends it once at most, and asks the identity service exactly when there is no token. */
  lemma AttemptSends(region: string, required: seq<string>, t: string, before: Shared, steps: seq<Exchange>,
                     result: SendResult, after: Shared)
    requires Attempt(region, required, t, before, steps, result, after)
    ensures forall i :: 0 <= i < |steps| && steps[i].Sent? ==>
              i == |steps| - 1 && result == Replied(steps[i].answer) && steps[i].token == after.token != "" &&
              t in after.urls && steps[i].url == after.urls[t]
    ensures (exists i :: 0 <= i < |steps| && steps[i].Asked?) <==> before.token == ""
    ensures result.Replied? <==> steps[|steps| - 1].Sent?
  {
    if before.token != "" {
      assert forall i :: 1 <= i < |steps| ==> steps[i] == steps[1..][i - 1];
    } else {
      assert forall i :: 2 <= i < |steps| ==> steps[i] == steps[2..][i - 2];
      assert steps[1].Asked?;
    }
  }

  lemma {:induction false} AllListed(services: seq<Service>, table: RegionTable, user: string, required: seq<string>)
    requires Tabulates(services, table)
    ensures Missing(table, user, required) == [] <==> forall t :: t in required ==> Listed(services, user, t)
  {
    var missing := Missing(table, user, required);
    forall t
      ensures t in missing <==> t in required && !Listed(services, user, t)
    {
      MissingAre(table, user, required, t);
      ReachesListed(services, table, user, t);
    }
    if missing != [] {
      assert missing[0] in missing;
    }
  }

  /** `regions` lists the providers of `t` that are not in `todo`. */
  ghost predicate ListsProviders(table: RegionTable, t: string, regions: seq<string>, todo: set<string>) {
    Distinct(regions) && forall r :: r in regions <==> r in Providers(table, t) && r !in todo
  }

  lemma OneMoreProvider(table: RegionTable, t: string, regions: seq<string>, todo: set<string>, region: string)
    requires ListsProviders(table, t, regions, todo) && region in todo && region in table
    ensures ListsProviders(table, t, regions + if t in table[region] then [region] else [], todo - {region})
  {
  }

  /** Adds one region to the lists of all the types it offers. */
  method AddRegion(before: map<string, seq<string>>, region: string, types: set<string>)
    returns (m: map<string, seq<string>>)
    requires forall t :: region !in RegionsOf(before, t)
    ensures forall t :: RegionsOf(m, t) == RegionsOf(before, t) + if t in types then [region] else []
  {
    m := before;
    var todo := types;
    while todo != {}
      invariant todo <= types
      invariant forall t :: RegionsOf(m, t) == RegionsOf(before, t) + if t in types && t !in todo then [region] else []
      decreases todo
    {
      var t :| t in todo;
      todo := todo - {t};
      var regions := RegionsOf(m, t);
      if region !in regions {
        m := m[t := regions + [region]];
      }
    }
  }

  lemma {:induction false} ListedOnce(xs: seq<string>, keys: set<string>)
    requires Enumerates(xs, keys)
    ensures multiset(xs) == multiset(keys)
  {
    if xs == [] {
      assert keys == {};
    } else {
      var n := |xs| - 1;
      var x := xs[n];
      assert xs == xs[..n] + [x];
      ListedOnce(xs[..n], keys - {x});
      assert multiset(keys) == multiset(keys - {x}) + multiset{x};
    }
  }

  lemma {:induction false} GridStep(table: RegionTable, rows: seq<string>, others: seq<string>, i: nat)
    requires i < |rows|
    ensures GridSuggestions(table, rows[..i + 1], others) ==
            GridSuggestions(table, rows[..i], others) + RowSuggestions(table, rows[i], others)
  {
    assert rows[..i + 1][..i] == rows[..i];
  }

  lemma {:induction false} RowStep(table: RegionTable, t: string, others: seq<string>, j: nat)
    requires j < |others|
    ensures RowSuggestions(table, t, others[..j + 1]) ==
            RowSuggestions(table, t, others[..j]) +
            if t == others[j] then multiset{} else multiset(PairSuggestions(table, t, others[j]))
  {
    assert others[..j + 1][..j] == others[..j];
  }

  /** The suggestions for every ordered pair of different missing types. */
  method PairwiseRegions(missing: seq<string>, m: map<string, seq<string>>, ghost table: RegionTable)
    returns (possible: seq<string>)
    requires missing != [] ==> Inverts(table, m)
    ensures multiset(possible) == GridSuggestions(table, missing, missing)
  {
    possible := [];
    for i := 0 to |missing|
      invariant multiset(possible) == GridSuggestions(table, missing[..i], missing)
    {
      possible := RowRegions(missing[i], missing, m, possible, table);
      GridStep(table, missing, missing, i);
    }
    assert missing[..|missing|] == missing;
  }

  method RowRegions(t: string, missing: seq<string>, m: map<string, seq<string>>, regionsSoFar: seq<string>,
                    ghost table: RegionTable)
    returns (possible: seq<string>)
    requires Inverts(table, m)
    ensures multiset(possible) == multiset(regionsSoFar) + RowSuggestions(table, t, missing)
  {
    possible := regionsSoFar;
    for j := 0 to |missing|
      invariant multiset(possible) == multiset(regionsSoFar) + RowSuggestions(table, t, missing[..j])
    {
      RowStep(table, t, missing, j);
      if t != missing[j] {
        possible := AppendPossibleRegions(t, missing[j], m, possible, table);
      }
    }
    assert missing[..|missing|] == missing;
  }

  /** The matching regions come up in this order, as far as they are not in `todo`. */
  ghost predicate CameUp(table: RegionTable, user: string, todo: set<string>, order: seq<string>) {
    Enumerates(order, Matching(table, user) - todo)
  }

  lemma {:induction false} MergeExtends(table: RegionTable, order: seq<string>, r: string)
    requires r in table && forall q :: q in order ==> q in table
    ensures Merge(table, order + [r], |order| + 1) == Merge(table, order, |order|) + table[r]
  {
    MergePrefix(table, order, r, |order|);
  }

  lemma {:induction false} MergePrefix(table: RegionTable, order: seq<string>, r: string, n: nat)
    requires n <= |order| && r in table && forall q :: q in order ==> q in table
    ensures Merge(table, order + [r], n) == Merge(table, order, n)
  {
    if n > 0 {
      MergePrefix(table, order, r, n - 1);
    }
  }

  /** Merges the URLs of all matching regions, in whatever order they come up. */
  method MatchingURLs(table: RegionTable, user: string) returns (found: bool, urls: ServiceURLs)
    ensures UrlsOf(table, user, urls)
    ensures found <==> exists known :: known in table && RegionMatches(user, known)
  {
    found, urls := false, map[];
    var todo := table.Keys;
    ghost var order: seq<string> := [];
    while todo != {}
      invariant todo <= table.Keys && CameUp(table, user, todo, order)
      invariant found <==> order != []
      invariant urls == Merge(table, order, |order|)
      decreases todo
    {
      var r :| r in todo;
      todo := todo - {r};
      if RegionMatches(user, r) {
        found := true;
        urls := urls + table[r];
        MergeExtends(table, order, r);
        order := order + [r];
      }
    }
    assert MayComeUp(table, user, order);
    if order != [] {
      assert order[0] in order;
      assert order[0] in Matching(table, user);
    }
    assert forall known :: known in table && RegionMatches(user, known) ==> known in order;
  }

  /** The types with a URL that are required. */
  method RequiredAmong(urls: ServiceURLs, required: seq<string>) returns (existing: seq<string>)
    ensures forall t :: t in existing <==> t in urls && t in required
  {
    existing := [];
    var todo := urls.Keys;
    while todo != {}
      invariant todo <= urls.Keys
      invariant forall t :: t in existing <==> t in urls && t !in todo && t in required
      decreases todo
    {
      var t :| t in todo;
      todo := todo - {t};
      if t in required {
        existing := existing + [t];
      }
    }
  }
}
