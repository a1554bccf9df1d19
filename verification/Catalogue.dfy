/** Username/password authentication: from the service catalogue in the reply to the table of
    endpoint URLs by region and service type (goose/identity/userpass.go). */
module Catalogue {
  import opened Wrappers
  import opened Regions

  datatype Endpoint = Endpoint(region: string, publicURL: string)
  datatype Service = Service(serviceType: string, endpoints: seq<Endpoint>)

  /** What a successful reply carries. */
  datatype Access = Access(token: string, tenantId: string, userId: string, expires: int, catalog: seq<Service>)

  datatype AuthDetails = AuthDetails(token: string, tenantId: string, userId: string, expiresAt: int,
                                     regionServiceURLs: RegionTable)

  /** The `j`th endpoint of the `i`th service is for this region and type. */
  predicate ListedAt(services: seq<Service>, i: int, j: int, region: string, t: string) {
    && 0 <= i < |services| && services[i].serviceType == t
    && 0 <= j < |services[i].endpoints| && services[i].endpoints[j].region == region
  }

  /** The endpoints before the `m`th of the `n`th service. */
  predicate Before(i: int, j: int, n: int, m: int) {
    i < n || (i == n && j < m)
  }

  predicate ListedBefore(services: seq<Service>, i: int, j: int, region: string, t: string, n: int, m: int) {
    ListedAt(services, i, j, region, t) && Before(i, j, n, m)
  }

  /** Of the endpoints before there, this is the last for the region and type. */
  ghost predicate LastBefore(services: seq<Service>, i: int, j: int, region: string, t: string, n: int, m: int) {
    && ListedBefore(services, i, j, region, t, n, m)
    && forall k, l :: ListedBefore(services, k, l, region, t, n, m) ==> !Before(i, j, k, l)
  }

  /** The table has the URL listed last before there for the region and type, if there is one. */
  ghost predicate HoldsLast(services: seq<Service>, table: RegionTable, region: string, t: string, n: int, m: int) {
    if Offers(table, region, t) then
      exists i, j :: LastBefore(services, i, j, region, t, n, m) &&
                     table[region][t] == services[i].endpoints[j].publicURL
    else forall i, j :: !ListedBefore(services, i, j, region, t, n, m)
  }

  /** The table holds what is listed before there, and no region without a service. */
  ghost predicate TabulatesTo(services: seq<Service>, table: RegionTable, n: int, m: int) {
    && (forall region, t :: HoldsLast(services, table, region, t, n, m))
    && (forall region :: region in table ==> table[region] != map[])
  }

  /** The table holds, for each region and type that some endpoint is for, the URL listed last, and
      nothing else. */
  ghost predicate Tabulates(services: seq<Service>, table: RegionTable) {
    TabulatesTo(services, table, |services|, 0)
  }

  /** Some endpoint of a service of type `t` is in a region that matches the user's. */
  ghost predicate Listed(services: seq<Service>, user: string, t: string) {
    exists i, j :: 0 <= i < |services| && services[i].serviceType == t && 0 <= j < |services[i].endpoints| &&
                   RegionMatches(user, services[i].endpoints[j].region)
  }

  /** Reaching a type through the table is having an endpoint for it in the catalogue. */
  lemma ReachesListed(services: seq<Service>, table: RegionTable, user: string, t: string)
    requires Tabulates(services, table)
    ensures Reaches(table, user, t) <==> Listed(services, user, t)
  {
    var n := |services|;
    if Reaches(table, user, t) {
      var r :| r in table && t in table[r] && RegionMatches(user, r);
      assert HoldsLast(services, table, r, t, n, 0);
      var i, j :| LastBefore(services, i, j, r, t, n, 0);
    }
    if Listed(services, user, t) {
      var i, j :| 0 <= i < |services| && services[i].serviceType == t && 0 <= j < |services[i].endpoints| &&
                  RegionMatches(user, services[i].endpoints[j].region);
      var r := services[i].endpoints[j].region;
      assert ListedBefore(services, i, j, r, t, n, 0);
      assert HoldsLast(services, table, r, t, n, 0);
    }
  }

  /** A catalogue makes one table only. */
  lemma TableIsDetermined(services: seq<Service>, a: RegionTable, b: RegionTable)
    requires Tabulates(services, a) && Tabulates(services, b)
    ensures a == b
  {
    forall region, t
      ensures Offers(a, region, t) <==> Offers(b, region, t)
      ensures Offers(a, region, t) ==> a[region][t] == b[region][t]
    {
      SameURL(services, a, b, region, t);
    }
    SameTable(a, b);
  }

  lemma SameURL(services: seq<Service>, a: RegionTable, b: RegionTable, region: string, t: string)
    requires Tabulates(services, a) && Tabulates(services, b)
    ensures Offers(a, region, t) <==> Offers(b, region, t)
    ensures Offers(a, region, t) ==> a[region][t] == b[region][t]
  {
    var n := |services|;
    assert HoldsLast(services, a, region, t, n, 0) && HoldsLast(services, b, region, t, n, 0);
  }

  lemma SameTable(a: RegionTable, b: RegionTable)
    requires forall region, t ::
               (Offers(a, region, t) <==> Offers(b, region, t)) &&
               (Offers(a, region, t) ==> a[region][t] == b[region][t])
    requires forall region :: region in a ==> a[region] != map[]
    requires forall region :: region in b ==> b[region] != map[]
    ensures a == b
  {
    RegionsIn(a, b);
    RegionsIn(b, a);
    forall region | region in a
      ensures a[region] == b[region]
    {
      assert forall t :: t in a[region] <==> Offers(a, region, t);
      assert forall t :: t in b[region] <==> Offers(b, region, t);
    }
  }

  lemma RegionsIn(a: RegionTable, b: RegionTable)
    requires forall region, t :: Offers(a, region, t) ==> Offers(b, region, t)
    requires forall region :: region in a ==> a[region] != map[]
    ensures forall region :: region in a ==> region in b
  {
    forall region | region in a
      ensures region in b
    {
      var t :| t in a[region];
      assert Offers(a, region, t);
    }
  }

  // ---------- Building the table ----------

  function Put(table: RegionTable, region: string, t: string, url: string): RegionTable {
    var urls := if region in table then table[region] else map[];
    table[region := urls[t := url]]
  }

  lemma PutOffers(table: RegionTable, region: string, t: string, url: string, r: string, u: string)
    ensures var table' := Put(table, region, t, url);
            if r == region && u == t then Offers(table', r, u) && table'[r][u] == url
            else Offers(table', r, u) == Offers(table, r, u) && (Offers(table, r, u) ==> table'[r][u] == table[r][u])
  {
  }

  /** The endpoints before the next one are those before this one, and this one. */
  lemma BeforeNext(services: seq<Service>, n: nat, m: nat, m': nat, region: string, t: string)
    requires n < |services| && m < |services[n].endpoints| && m' == m + 1
    ensures forall i, j :: ListedBefore(services, i, j, region, t, n, m') <==>
              ListedBefore(services, i, j, region, t, n, m) || (i == n && j == m && ListedAt(services, n, m, region, t))
  {
  }

  lemma PutHoldsLast(services: seq<Service>, table: RegionTable, n: nat, m: nat, region: string, t: string)
    requires n < |services| && m < |services[n].endpoints| && HoldsLast(services, table, region, t, n, m)
    ensures var e := services[n].endpoints[m];
            HoldsLast(services, Put(table, e.region, services[n].serviceType, e.publicURL), region, t, n, m + 1)
  {
    var e, u := services[n].endpoints[m], services[n].serviceType;
    PutOffers(table, e.region, u, e.publicURL, region, t);
    var m' := m + 1;
    BeforeNext(services, n, m, m', region, t);
    if region == e.region && t == u {
      assert LastBefore(services, n, m, region, t, n, m');
    } else if Offers(table, region, t) {
      var i, j :| LastBefore(services, i, j, region, t, n, m) &&
                  table[region][t] == services[i].endpoints[j].publicURL;
      assert LastBefore(services, i, j, region, t, n, m');
    }
  }

  /** One more endpoint of a service. */
  lemma PutEndpoint(services: seq<Service>, table: RegionTable, n: nat, m: nat)
    requires n < |services| && m < |services[n].endpoints| && TabulatesTo(services, table, n, m)
    ensures var e := services[n].endpoints[m];
            TabulatesTo(services, Put(table, e.region, services[n].serviceType, e.publicURL), n, m + 1)
  {
    var e, m' := services[n].endpoints[m], m + 1;
    var table' := Put(table, e.region, services[n].serviceType, e.publicURL);
    forall region, t
      ensures HoldsLast(services, table', region, t, n, m')
    {
      PutHoldsLast(services, table, n, m, region, t);
    }
    forall region | region in table'
      ensures table'[region] != map[]
    {
      if region == e.region {
        assert services[n].serviceType in table'[region];
      } else {
        assert table'[region] == table[region];
      }
    }
  }

  lemma NextService(services: seq<Service>, table: RegionTable, n: nat)
    requires n < |services| && TabulatesTo(services, table, n, |services[n].endpoints|)
    ensures TabulatesTo(services, table, n + 1, 0)
  {
    var n' := n + 1;
    forall region, t
      ensures HoldsLast(services, table, region, t, n', 0)
    {
      NextServiceLast(services, table, n, region, t);
    }
  }

  lemma NextServiceLast(services: seq<Service>, table: RegionTable, n: nat, region: string, t: string)
    requires n < |services| && HoldsLast(services, table, region, t, n, |services[n].endpoints|)
    ensures HoldsLast(services, table, region, t, n + 1, 0)
  {
    var m, n' := |services[n].endpoints|, n + 1;
    assert forall i, j :: ListedBefore(services, i, j, region, t, n', 0) <==>
                          ListedBefore(services, i, j, region, t, n, m);
    if Offers(table, region, t) {
      var i, j :| LastBefore(services, i, j, region, t, n, m) &&
                  table[region][t] == services[i].endpoints[j].publicURL;
      assert LastBefore(services, i, j, region, t, n + 1, 0);
    }
  }

  /** The catalogue loop of the authentication method. */
  method BuildTable(services: seq<Service>) returns (table: RegionTable)
    ensures Tabulates(services, table)
  {
    table := map[];
    for i := 0 to |services|
      invariant TabulatesTo(services, table, i, 0)
    {
      var service := services[i];
      for j := 0 to |service.endpoints|
        invariant TabulatesTo(services, table, i, j)
      {
        var e := service.endpoints[j];
        PutEndpoint(services, table, i, j);
        var endpointURLs := if e.region in table then table[e.region] else map[];
        table := table[e.region := endpointURLs[service.serviceType := e.publicURL]];
      }
      NextService(services, table, i);
    }
  }

  /** Fails when the request fails or the reply has no token. */
  method Auth(reply: Option<Access>) returns (details: Option<AuthDetails>)
    ensures details.None? <==> reply.None? || reply.value.token == ""
    ensures details.Some? ==>
              var a, d := reply.value, details.value;
              && d == AuthDetails(a.token, a.tenantId, a.userId, a.expires, d.regionServiceURLs)
              && Tabulates(a.catalog, d.regionServiceURLs)
  {
    if reply.None? || reply.value.token == "" {
      return None;
    }
    var a := reply.value;
    var table := BuildTable(a.catalog);
    return Some(AuthDetails(a.token, a.tenantId, a.userId, a.expires, table));
  }
}
