/** What each request to the Nova service double means, spelled out for whole tables: when it is
    accepted or refused, what it changes, and that nothing else changes. Stated without the
    functions that say how requests are served, for the states that runs of requests reach. */
module NovaMeaning {
  import opened Sequences
  import opened Wrappers
  import opened Decimal
  import opened NovaStore
  import opened NovaInvariants
  import opened NovaHttp
  import opened NovaRuns
  import opened NovaReplies

  predicate Named(st: Store, g: int, name: string) {
    g in st.groups && st.groups[g].name == name
  }

  predicate AddressedBy(st: Store, k: int, address: string) {
    k in st.ips && st.ips[k].ip == address
  }

  /** The server's list of groups, and that of its IPs; a server without a list has an empty one. */
  function GroupsOf(st: Store, sid: string): seq<int> {
    if sid in st.serverGroups then st.serverGroups[sid] else []
  }

  function IPsOf(st: Store, sid: string): seq<int> {
    if sid in st.serverIPs then st.serverIPs[sid] else []
  }

  /** The map without one key. */
  function Less<K, V>(m: map<K, V>, key: K): map<K, V> {
    map k | k in m && k != key :: m[k]
  }

  /** One occurrence of `x` has been taken out of the list. */
  predicate TakenOut(before: seq<int>, after: seq<int>, x: int) {
    exists i :: 0 <= i < |before| && before[i] == x && after == before[..i] + before[i + 1..]
  }

  /** A new service double has one group, which belongs to its tenant, and no ids given out. */
  lemma NewMeans(tenantId: string)
    ensures var n := New(tenantId);
            && n.st.tenantId == tenantId
            && n.st.groups == map[999 := Group(999, "default", "default group", tenantId, [])]
            && n.st.servers == map[] && n.st.rules == map[] && n.st.ips == map[]
            && n.st.serverGroups == map[] && n.st.serverIPs == map[]
            && n.nextServerId == n.nextGroupId == n.nextRuleId == n.nextIPId == 0
  {
  }

  // ---------- Servers ----------

  ghost predicate MeansDeleteServer(n: NovaState, sid: string, n': NovaState, reply: Reply) {
    if sid in n.st.servers then reply.Accepted? && n' == n.(st := n.st.(servers := Less(n.st.servers, sid)))
    else reply.NotFound? && n' == n
  }

  /** The positions of names other than that of the default group. */
  function OtherThanDefault(names: seq<string>): set<int> {
    set i | 0 <= i < |names| && names[i] != "default"
  }

  /** These are the groups asked for by name, in order. */
  ghost predicate AskedFor(st: Store, names: seq<string>, gids: seq<int>) {
    exists wanted :: Filters(names, wanted, OtherThanDefault(names)) && |gids| == |wanted| &&
                     forall i :: 0 <= i < |gids| ==> Named(st, gids[i], wanted[i])
  }

  /** The state with a new server in these groups. */
  function WithServer(n: NovaState, name: string, gids: seq<int>): NovaState {
    var next := n.nextServerId + 1;
    var id := Itoa(next);
    n.(nextServerId := next,
       st := n.st.(servers := n.st.servers[id := Server(id, name)],
                   serverGroups := if gids == [] then n.st.serverGroups else n.st.serverGroups[id := gids]))
  }

  /** The server is in all these groups. When one is named twice the request fails, but the server
      stays, in the groups before the first repetition. */
  ghost predicate Started(n: NovaState, name: string, gids: seq<int>, n': NovaState, reply: Reply) {
    if Distinct(gids) then reply.Accepted? && n' == WithServer(n, name, gids)
    else reply.Internal? && exists k :: RepeatsFirst(gids, k) && n' == WithServer(n, name, gids[..k])
  }

  predicate RepeatsFirst(gids: seq<int>, k: int) {
    0 < k < |gids| && Distinct(gids[..k]) && gids[k] in gids[..k]
  }

  predicate AnyUnknown(st: Store, names: seq<string>) {
    exists i :: 0 <= i < |names| && names[i] != "default" &&
                forall g :: g in st.groups ==> st.groups[g].name != names[i]
  }

  ghost predicate MeansRunServer(n: NovaState, name: string, image: string, flavor: string, names: seq<string>,
                                 n': NovaState, reply: Reply)
  {
    if name == "" || image == "" || flavor == "" then reply.BadRequest? && n' == n
    else if AnyUnknown(n.st, names) then reply.BadRequest? && n' == n.(nextServerId := n.nextServerId + 1)
    else
      exists gids :: AskedFor(n.st, names, gids) && Started(n, name, gids, n', reply)
  }

  // ---------- Groups ----------

  ghost predicate MeansJoin(n: NovaState, sid: string, name: string, n': NovaState, reply: Reply) {
    var list := GroupsOf(n.st, sid);
    if sid in n.st.servers && exists g :: Named(n.st, g, name) && g !in list then
      reply.Accepted? &&
      exists g :: Named(n.st, g, name) && n' == n.(st := n.st.(serverGroups := n.st.serverGroups[sid := list + [g]]))
    else reply.NotFound? && n' == n
  }

  ghost predicate MeansLeave(n: NovaState, sid: string, name: string, n': NovaState, reply: Reply) {
    var list := GroupsOf(n.st, sid);
    if sid in n.st.servers && exists g :: Named(n.st, g, name) && g in list then
      reply.Accepted? &&
      exists g, list' :: Named(n.st, g, name) && TakenOut(list, list', g) &&
                         n' == n.(st := n.st.(serverGroups := n.st.serverGroups[sid := list']))
    else reply.NotFound? && n' == n
  }

  ghost predicate MeansCreateGroup(n: NovaState, name: string, description: string, n': NovaState, reply: Reply) {
    var id := n.nextGroupId + 1;
    if exists g :: Named(n.st, g, name) then reply.BadRequest? && n' == n
    else if id in n.st.groups then reply.Internal? && n' == n.(nextGroupId := id)
    else
      var group := Group(id, name, description, n.st.tenantId, []);
      reply.Accepted? && n' == n.(nextGroupId := id, st := n.st.(groups := n.st.groups[id := group]))
  }

  ghost predicate MeansDeleteGroup(n: NovaState, gid: int, n': NovaState, reply: Reply) {
    if gid in n.st.groups then reply.Accepted? && n' == n.(st := n.st.(groups := Less(n.st.groups, gid)))
    else reply.NotFound? && n' == n
  }

  // ---------- Rules ----------

  /** The rule that is stored: empty text and zero ports are left open, and the source names the group
      whose id was given. */
  predicate IsAsked(st: Store, rule: Rule, id: int, info: RuleInfo) {
    && rule.id == id && rule.parent == info.parent
    && rule.proto == (if info.proto == "" then None else Some(info.proto))
    && rule.fromPort == (if info.fromPort == 0 then None else Some(info.fromPort))
    && rule.toPort == (if info.toPort == 0 then None else Some(info.toPort))
    && rule.cidr == (if info.cidr == "" then None else Some(info.cidr))
    && match info.groupId
       case None => rule.source == GroupRef("", "")
       case Some(g) => g in st.groups && rule.source == GroupRef(st.groups[g].tenantId, st.groups[g].name)
  }

  predicate Duplicates(r: Rule, info: RuleInfo) {
    r.proto == Some(info.proto) && r.fromPort == Some(info.fromPort) && r.toPort == Some(info.toPort)
  }

  ghost predicate MeansCreateRule(n: NovaState, info: RuleInfo, n': NovaState, reply: Reply) {
    var id := n.nextRuleId + 1;
    if info.parent !in n.st.groups then reply.Internal? && n' == n
    else
      var group := n.st.groups[info.parent];
      if exists i :: 0 <= i < |group.rules| && Duplicates(group.rules[i], info) then reply.BadRequest? && n' == n
      else if info.groupId.Some? && info.groupId.value !in n.st.groups then
        reply.Internal? && n' == n.(nextRuleId := id)
      else
        reply.Accepted? &&
        exists rule :: IsAsked(n.st, rule, id, info) &&
          n' == n.(nextRuleId := id,
                   st := n.st.(groups := n.st.groups[info.parent := group.(rules := group.rules + [rule])],
                               rules := n.st.rules[id := rule]))
  }

  /** The group without the rule, if it had it. */
  predicate LosesRule(before: Group, after: Group, id: int) {
    if exists i :: 0 <= i < |before.rules| && before.rules[i].id == id then
      exists i :: 0 <= i < |before.rules| && before.rules[i].id == id &&
                  after == before.(rules := before.rules[..i] + before.rules[i + 1..])
    else after == before
  }

  ghost predicate MeansDeleteRule(n: NovaState, id: int, n': NovaState, reply: Reply) {
    if id in n.st.rules then
      && reply.Accepted?
      && n' == n.(st := n.st.(groups := n'.st.groups, rules := Less(n.st.rules, id)))
      && n'.st.groups.Keys == n.st.groups.Keys
      && forall g :: g in n.st.groups ==>
           if g == n.st.rules[id].parent then LosesRule(n.st.groups[g], n'.st.groups[g], id)
           else n'.st.groups[g] == n.st.groups[g]
    else reply.NotFound? && n' == n
  }

  // ---------- Floating IPs ----------

  ghost predicate MeansAttach(n: NovaState, sid: string, address: string, n': NovaState, reply: Reply) {
    var list := IPsOf(n.st, sid);
    if sid in n.st.servers && exists k :: AddressedBy(n.st, k, address) && k !in list then
      reply.Accepted? &&
      exists k :: AddressedBy(n.st, k, address) &&
        n' == n.(st := n.st.(
          ips := n.st.ips[k := n.st.ips[k].(fixedIP := Some("4.3.2.1"), instanceId := Some(sid))],
          serverIPs := n.st.serverIPs[sid := list + [k]]))
    else reply.NotFound? && n' == n
  }

  ghost predicate MeansDetach(n: NovaState, sid: string, address: string, n': NovaState, reply: Reply) {
    var list := IPsOf(n.st, sid);
    if sid in n.st.servers && exists k :: AddressedBy(n.st, k, address) && k in list then
      reply.Accepted? &&
      exists k, list' :: AddressedBy(n.st, k, address) && TakenOut(list, list', k) &&
        n' == n.(st := n.st.(
          ips := n.st.ips[k := n.st.ips[k].(fixedIP := None, instanceId := None)],
          serverIPs := n.st.serverIPs[sid := list']))
    else reply.NotFound? && n' == n
  }

  ghost predicate MeansCreateIP(n: NovaState, n': NovaState, reply: Reply) {
    var id := n.nextIPId + 1;
    var ip := FloatingIP(id, "10.0.0." + Itoa(id), None, None, "nova");
    reply.Accepted? && id !in n.st.ips && n' == n.(nextIPId := id, st := n.st.(ips := n.st.ips[id := ip]))
  }

  ghost predicate MeansDeleteIP(n: NovaState, id: int, n': NovaState, reply: Reply) {
    if id in n.st.ips then reply.Accepted? && n' == n.(st := n.st.(ips := Less(n.st.ips, id)))
    else reply.NotFound? && n' == n
  }

  /** What the request means. */
  ghost predicate Means(n: NovaState, req: Request, n': NovaState, reply: Reply) {
    match req
    case RunServer(name, image, flavor, names) => MeansRunServer(n, name, image, flavor, names, n', reply)
    case DeleteServer(sid) => MeansDeleteServer(n, sid, n', reply)
    case JoinGroup(sid, name) => MeansJoin(n, sid, name, n', reply)
    case LeaveGroup(sid, name) => MeansLeave(n, sid, name, n', reply)
    case AttachIP(sid, address) => MeansAttach(n, sid, address, n', reply)
    case DetachIP(sid, address) => MeansDetach(n, sid, address, n', reply)
    case CreateGroup(name, description) => MeansCreateGroup(n, name, description, n', reply)
    case DeleteGroup(gid) => MeansDeleteGroup(n, gid, n', reply)
    case CreateRule(info) => MeansCreateRule(n, info, n', reply)
    case DeleteRule(id) => MeansDeleteRule(n, id, n', reply)
    case CreateIP => MeansCreateIP(n, n', reply)
    case DeleteIP(id) => MeansDeleteIP(n, id, n', reply)
  }

  // ---------- Requests are served as they mean ----------

  lemma GroupNamedOnce(n: NovaState, name: string, found: Option<Group>)
    requires HttpInv(n) && FoundGroup(n.st, name, found)
    ensures found.Some? ==> Named(n.st, found.value.id, name)
    ensures forall g :: Named(n.st, g, name) ==> found.Some? && g == found.value.id
  {
    if found.Some? {
      FoundGroupIsKeyed(n.st, name, found);
    }
  }

  lemma JoinMeans(n: NovaState, sid: string, name: string, found: Option<Group>)
    requires HttpInv(n) && FoundGroup(n.st, name, found)
    ensures var (n', reply) := HandleJoinGroup(n, sid, found); MeansJoin(n, sid, name, n', reply)
  {
    GroupNamedOnce(n, name, found);
    JoinSucceeds(n, sid, name, found);
  }

  lemma LeaveMeans(n: NovaState, sid: string, name: string, found: Option<Group>)
    requires HttpInv(n) && FoundGroup(n.st, name, found)
    ensures var (n', reply) := HandleLeaveGroup(n, sid, found); MeansLeave(n, sid, name, n', reply)
  {
    GroupNamedOnce(n, name, found);
    JoinSucceeds(n, sid, name, found);
    if found.Some? {
      var list, g := GroupsOf(n.st, sid), found.value.id;
      var i := IndexOf(list, g);
      if i != -1 {
        assert TakenOut(list, RemoveAt(list, i), g);
      }
    }
  }

  lemma IPAddressedOnce(n: NovaState, address: string, found: Option<FloatingIP>)
    requires HttpInv(n) && FoundIP(n.st, address, found)
    ensures found.Some? ==> AddressedBy(n.st, found.value.id, address)
    ensures forall k :: AddressedBy(n.st, k, address) ==> found.Some? && k == found.value.id
  {
    if found.Some? {
      FoundIPIsKeyed(n.st, address, found);
      forall k | AddressedBy(n.st, k, address)
        ensures k == found.value.id
      {
        AddressesDistinct(n, k, found.value.id);
      }
    }
  }

  /** A listed IP has the address exactly if it is the one found for it: those that are gone have
      none, and no address is empty. */
  lemma ListsAddress(n: NovaState, sid: string, address: string, found: Option<FloatingIP>)
    requires HttpInv(n) && FoundIP(n.st, address, found)
    ensures HasServerIP(n.st, sid, address) <==>
            sid in n.st.servers && found.Some? && found.value.id in IPsOf(n.st, sid)
  {
    IPAddressedOnce(n, address, found);
    if HasServerIP(n.st, sid, address) {
      var id :| id in ListOf(n.st.serverIPs, sid) && AddressOf(n.st, id) == address;
      var k :| k in n.st.ips && n.st.ips[k].ip == address;
      assert AddressedBy(n.st, k, address);
      assert address == Address(k);
      assert AddressedBy(n.st, id, address);
    }
    if sid in n.st.servers && found.Some? && found.value.id in IPsOf(n.st, sid) {
      assert AddressOf(n.st, found.value.id) == address;
    }
  }

  lemma AttachMeans(n: NovaState, sid: string, address: string, found: Option<FloatingIP>)
    requires HttpInv(n) && FoundIP(n.st, address, found)
    ensures var (n', reply) := HandleAttachIP(n, sid, address, found); MeansAttach(n, sid, address, n', reply)
  {
    IPAddressedOnce(n, address, found);
    ListsAddress(n, sid, address, found);
    AttachSucceeds(n, sid, address, found);
  }

  lemma DetachMeans(n: NovaState, sid: string, address: string, found: Option<FloatingIP>)
    requires HttpInv(n) && FoundIP(n.st, address, found)
    ensures var (n', reply) := HandleDetachIP(n, sid, address, found); MeansDetach(n, sid, address, n', reply)
  {
    IPAddressedOnce(n, address, found);
    ListsAddress(n, sid, address, found);
    DetachSucceeds(n, sid, address, found);
    if found.Some? {
      var list, k := IPsOf(n.st, sid), found.value.id;
      var i := IndexOf(list, k);
      if i != -1 {
        assert TakenOut(list, RemoveAt(list, i), k);
      }
    }
  }

  lemma CreateGroupMeans(n: NovaState, name: string, description: string, found: Option<Group>)
    requires HttpInv(n) && FoundGroup(n.st, name, found)
    ensures var (n', reply) := HandleCreateGroup(n, name, description, found);
            MeansCreateGroup(n, name, description, n', reply)
  {
    GroupNamedOnce(n, name, found);
  }

  lemma CreateRuleMeans(n: NovaState, info: RuleInfo)
    requires HttpInv(n)
    ensures var (n', reply) := HandleCreateRule(n, info); MeansCreateRule(n, info, n', reply)
  {
    CreateRuleFailsExactly(n, info);
    if info.parent in n.st.groups {
      var rs := n.st.groups[info.parent].rules;
      assert forall i :: 0 <= i < |rs| ==> (SameRule(rs[i], info) <==> Duplicates(rs[i], info));
      if !RuleExists(rs, info) && (info.groupId.Some? ==> info.groupId.value in n.st.groups) {
        assert IsAsked(n.st, NewRule(n.st, n.nextRuleId + 1, info), n.nextRuleId + 1, info);
        assert n.st.groups[info.parent].id == info.parent;
      }
    }
  }

  lemma LessIsRemoval<K, V>(m: map<K, V>, key: K)
    ensures m - {key} == Less(m, key)
  {
  }

  lemma RuleTaken(group: Group, id: int)
    ensures var i := RuleIndex(group.rules, id);
            LosesRule(group, if i == -1 then group else group.(rules := RemoveAt(group.rules, i)), id)
  {
  }

  lemma GroupsLose(st: Store, id: int, g: int)
    requires RulesAgree(st) && id in st.rules && g in st.groups
    ensures var groups := GroupsWithout(st, id);
            && groups.Keys == st.groups.Keys
            && if g == st.rules[id].parent then LosesRule(st.groups[g], groups[g], id) else groups[g] == st.groups[g]
  {
    RuleTaken(st.groups[g], id);
  }

  lemma DeleteRuleMeans(n: NovaState, id: int)
    requires HttpInv(n)
    ensures var (n', reply) := HandleDeleteRule(n, id); MeansDeleteRule(n, id, n', reply)
  {
    if id in n.st.rules {
      LessIsRemoval(n.st.rules, id);
      forall g | g in n.st.groups
        ensures var groups := GroupsWithout(n.st, id);
                && groups.Keys == n.st.groups.Keys
                && if g == n.st.rules[id].parent then LosesRule(n.st.groups[g], groups[g], id)
                   else groups[g] == n.st.groups[g]
      {
        GroupsLose(n.st, id, g);
      }
      assert n.st.groups == map[] ==> GroupsWithout(n.st, id) == map[];
    }
  }

  // ---------- Starting a server ----------

  lemma {:induction false} WantedFilters(names: seq<string>)
    ensures Filters(names, Wanted(names), OtherThanDefault(names))
  {
    if names == [] {
      FiltersNone(names);
      assert OtherThanDefault(names) == {};
    } else {
      var k := |names| - 1;
      var before, name := names[..k], names[k];
      assert names == before + [name];
      WantedFilters(before);
      if name == "default" {
        FiltersSkip(before, Wanted(before), OtherThanDefault(before), name);
        assert OtherThanDefault(names) == OtherThanDefault(before);
      } else {
        FiltersMore(before, Wanted(before), OtherThanDefault(before), name);
        assert OtherThanDefault(names) == OtherThanDefault(before) + {k};
      }
    }
  }

  lemma {:induction false} InWanted(names: seq<string>, name: string)
    ensures name in Wanted(names) <==> name in names && name != "default"
  {
    if names != [] {
      var k := |names| - 1;
      InWanted(names[..k], name);
      assert names == names[..k] + [names[k]];
    }
  }

  lemma {:induction false} AnyUnknownExactly(st: Store, names: seq<string>)
    ensures AnyUnknown(st, names) <==> !AllKnown(st, Wanted(names))
  {
    var wanted := Wanted(names);
    if AnyUnknown(st, names) {
      var i :| 0 <= i < |names| && names[i] != "default" &&
               forall g :: g in st.groups ==> st.groups[g].name != names[i];
      InWanted(names, names[i]);
      var j :| 0 <= j < |wanted| && wanted[j] == names[i];
      assert !HasName(st, wanted[j]);
    }
    if !AllKnown(st, wanted) {
      var j :| 0 <= j < |wanted| && !HasName(st, wanted[j]);
      InWanted(names, wanted[j]);
      var i :| 0 <= i < |names| && names[i] == wanted[j];
      assert forall g :: g in st.groups ==> st.groups[g].name != names[i];
    }
  }

  function Joined(st: Store, sid: string, gids: seq<int>): Store {
    if gids == [] then st else st.(serverGroups := st.serverGroups[sid := GroupsOf(st, sid) + gids])
  }

  /** The groups are joined in turn, up to the first that the server is in already. */
  lemma {:induction false} JoinAllMeans(st: Store, sid: string, gids: seq<int>) returns (k: nat)
    requires sid in st.servers && forall i :: 0 <= i < |gids| ==> gids[i] in st.groups
    requires Distinct(GroupsOf(st, sid))
    ensures k <= |gids| && JoinAll(st, sid, gids).store == Joined(st, sid, gids[..k])
    ensures Distinct(GroupsOf(st, sid) + gids[..k])
    ensures JoinAll(st, sid, gids).error == if k == |gids| then None else Some(AlreadyMember)
    ensures k < |gids| ==> gids[k] in GroupsOf(st, sid) + gids[..k]
    decreases |gids|
  {
    k := 0;
    var list := GroupsOf(st, sid);
    assert list + gids[..0] == list;
    if gids != [] && gids[0] !in list {
      var st' := AddServerGroup(st, sid, gids[0]).store;
      JoinOne(st, sid, gids[0]);
      k := JoinAllMeans(st', sid, gids[1..]);
      TakeOneMore(list, gids, k);
      JoinedMore(st, st', sid, gids[0], gids[1..][..k]);
      k := k + 1;
    }
  }

  lemma JoinOne(st: Store, sid: string, g: int)
    requires sid in st.servers && g in st.groups && g !in GroupsOf(st, sid) && Distinct(GroupsOf(st, sid))
    ensures var out, list := AddServerGroup(st, sid, g), GroupsOf(st, sid) + [g];
            out == Done(st.(serverGroups := st.serverGroups[sid := list])) && GroupsOf(out.store, sid) == list &&
            Distinct(list)
  {
  }

  lemma TakeOneMore(list: seq<int>, gids: seq<int>, k: nat)
    requires k < |gids|
    ensures gids[..k + 1] == [gids[0]] + gids[1..][..k]
    ensures list + gids[..k + 1] == list + [gids[0]] + gids[1..][..k]
    ensures k + 1 < |gids| ==> gids[k + 1] == gids[1..][k]
  {
  }

  lemma JoinedMore(st: Store, st': Store, sid: string, g: int, gids: seq<int>)
    requires st' == st.(serverGroups := st.serverGroups[sid := GroupsOf(st, sid) + [g]])
    ensures Joined(st', sid, gids) == Joined(st, sid, [g] + gids)
  {
    var list := GroupsOf(st, sid);
    assert list + ([g] + gids) == list + [g] + gids;
    if gids == [] {
      assert [g] + gids == [g];
    } else {
      assert GroupsOf(st', sid) == list + [g];
      assert st'.serverGroups[sid := list + [g] + gids] == st.serverGroups[sid := list + [g] + gids];
    }
  }

  lemma StartIs(n: NovaState, name: string, gids: seq<int>) returns (k: nat)
    requires HttpInv(n) && forall i :: 0 <= i < |gids| ==> gids[i] in n.st.groups
    ensures k <= |gids| && Distinct(gids[..k]) && (k < |gids| ==> gids[k] in gids[..k])
    ensures var (n', reply) := StartServer(n.(nextServerId := n.nextServerId + 1), name, gids);
            n' == WithServer(n, name, gids[..k]) && reply == if k == |gids| then Accepted else Internal(AlreadyMember)
  {
    var id := Itoa(n.nextServerId + 1);
    FreshServerId(n);
    var st := AddServer(n.st, Server(id, name)).store;
    assert GroupsOf(st, id) == [];
    k := JoinAllMeans(st, id, gids);
    assert [] + gids[..k] == gids[..k];
    assert Joined(st, id, gids[..k]) == WithServer(n, name, gids[..k]).st;
  }

  lemma {:induction false} StartMeans(n: NovaState, name: string, names: seq<string>, gids: seq<int>)
    requires HttpInv(n) && Picked(n.st, Wanted(names), gids)
    ensures var (n', reply) := StartServer(n.(nextServerId := n.nextServerId + 1), name, gids);
            AskedFor(n.st, names, gids) && Started(n, name, gids, n', reply)
  {
    PickedRepeats(n, Wanted(names), gids);
    WantedFilters(names);
    var k := StartIs(n, name, gids);
    if k == |gids| {
      assert gids[..k] == gids;
    } else {
      assert RepeatsFirst(gids, k);
      var j :| 0 <= j < k && gids[..k][j] == gids[k];
      assert gids[j] == gids[k];
    }
  }

  /** Every request is served as it means. */
  lemma ServedAsMeant(n: NovaState, req: Request, n': NovaState, reply: Reply)
    requires HttpInv(n) && Serves(n, req, n', reply)
    ensures Means(n, req, n', reply)
  {
    match req {
      case RunServer(name, image, flavor, names) =>
        if Complete(name, image, flavor) {
          AnyUnknownExactly(n.st, names);
          if AllKnown(n.st, Wanted(names)) {
            var gids :| Picked(n.st, Wanted(names), gids) &&
                        (n', reply) == StartServer(n.(nextServerId := n.nextServerId + 1), name, gids);
            StartMeans(n, name, names, gids);
          }
        }
      case JoinGroup(sid, name) =>
        var found :| FoundGroup(n.st, name, found) && (n', reply) == HandleJoinGroup(n, sid, found);
        JoinMeans(n, sid, name, found);
      case LeaveGroup(sid, name) =>
        var found :| FoundGroup(n.st, name, found) && (n', reply) == HandleLeaveGroup(n, sid, found);
        LeaveMeans(n, sid, name, found);
      case CreateGroup(name, desc) =>
        var found :| FoundGroup(n.st, name, found) && (n', reply) == HandleCreateGroup(n, name, desc, found);
        CreateGroupMeans(n, name, desc, found);
      case AttachIP(sid, addr) =>
        var found :| FoundIP(n.st, addr, found) && (n', reply) == HandleAttachIP(n, sid, addr, found);
        AttachMeans(n, sid, addr, found);
      case DetachIP(sid, addr) =>
        var found :| FoundIP(n.st, addr, found) && (n', reply) == HandleDetachIP(n, sid, addr, found);
        DetachMeans(n, sid, addr, found);
      case CreateRule(info) => CreateRuleMeans(n, info);
      case DeleteRule(id) => DeleteRuleMeans(n, id);
      case DeleteServer(sid) => LessIsRemoval(n.st.servers, sid);
      case DeleteGroup(gid) => LessIsRemoval(n.st.groups, gid);
      case DeleteIP(id) => LessIsRemoval(n.st.ips, id);
      case CreateIP =>
    }
  }
}
