/** The one id that is given out twice. A new service double has a default group under an id of its
    own, ahead of the counter; once that group is deleted, the counter comes to its id again, and
    what the tables still hold on to - servers' memberships, rules in the index - denotes the new
    group. */
module NovaReturns {
  import opened Wrappers
  import opened Decimal
  import opened NovaStore
  import opened NovaHttp
  import opened NovaRefs
  import opened NovaRuns
  import opened NovaReplies

  /** The request makes a new group under the id that the default group had. */
  ghost predicate Revives(n: NovaState, req: Request, g: int) {
    && req.CreateGroup? && FoundGroup(n.st, req.newName, None)
    && g == n.nextGroupId + 1 == DEFAULT_GROUP_ID && g !in n.st.groups
  }

  /** The request has the server join the group. */
  predicate Joins(n: NovaState, req: Request, sid: string, g: int) {
    && req.JoinGroup? && req.sid == sid
    && g in n.st.groups && n.st.groups[g].name == req.groupName
  }

  // ---------- One request ----------

  lemma {:induction false} JoinAllOthers(st: Store, sid: string, gids: seq<int>, other: string)
    requires other != sid
    ensures ListOf(JoinAll(st, sid, gids).store.serverGroups, other) == ListOf(st.serverGroups, other)
    decreases |gids|
  {
    if gids != [] {
      JoinAllOthers(AddServerGroup(st, sid, gids[0]).store, sid, gids[1..], other);
    }
  }

  /** Starting a server leaves the groups, and the lists of all servers there were. */
  lemma StartLeavesOthers(n: NovaState, name: string, gids: seq<int>, sid: string)
    requires HttpInv(n) && sid in n.st.servers
    ensures var n' := StartServer(n.(nextServerId := n.nextServerId + 1), name, gids).0;
            ListOf(n'.st.serverGroups, sid) == ListOf(n.st.serverGroups, sid)
  {
    var id := Itoa(n.nextServerId + 1);
    FreshServerId(n);
    JoinAllOthers(AddServer(n.st, Server(id, name)).store, id, gids, sid);
  }

  /** What a request does to the list of groups of a server there is. */
  ghost predicate ListStep(n: NovaState, req: Request, n': NovaState, sid: string) {
    forall g :: g in ListOf(n'.st.serverGroups, sid) ==> g in ListOf(n.st.serverGroups, sid) || Joins(n, req, sid, g)
  }

  lemma JoinListStep(n: NovaState, sid: string, name: string, found: Option<Group>, other: string)
    requires HttpInv(n) && FoundGroup(n.st, name, found)
    ensures ListStep(n, JoinGroup(sid, name), HandleJoinGroup(n, sid, found).0, other)
  {
    if found.Some? {
      FoundGroupIsKeyed(n.st, name, found);
    }
  }

  lemma LeaveListStep(n: NovaState, sid: string, name: string, found: Option<Group>, other: string)
    requires HttpInv(n)
    ensures ListStep(n, LeaveGroup(sid, name), HandleLeaveGroup(n, sid, found).0, other)
  {
    if found.Some? {
      var list := ListOf(n.st.serverGroups, sid);
      var i := IndexOf(list, found.value.id);
      if i != -1 {
        assert forall g :: g in RemoveAt(list, i) ==> g in list;
      }
    }
  }

  lemma RuleListStep(n: NovaState, info: RuleInfo, sid: string)
    ensures ListStep(n, CreateRule(info), HandleCreateRule(n, info).0, sid)
  {
    AddRuleAlone(n.st, n.nextRuleId + 1, info);
  }

  /** Lists of servers only grow by joining. */
  lemma ListsGrowByJoining(n: NovaState, req: Request, n': NovaState, reply: Reply, sid: string)
    requires HttpInv(n) && Serves(n, req, n', reply) && sid in n.st.servers
    ensures ListStep(n, req, n', sid)
  {
    match req {
      case RunServer(name, image, flavor, names) =>
        if Complete(name, image, flavor) && AllKnown(n.st, Wanted(names)) {
          var gids :| Picked(n.st, Wanted(names), gids) &&
                      (n', reply) == StartServer(n.(nextServerId := n.nextServerId + 1), name, gids);
          StartLeavesOthers(n, name, gids, sid);
        }
      case JoinGroup(s, name) =>
        var found :| FoundGroup(n.st, name, found) && (n', reply) == HandleJoinGroup(n, s, found);
        JoinListStep(n, s, name, found, sid);
      case LeaveGroup(s, name) =>
        var found :| FoundGroup(n.st, name, found) && (n', reply) == HandleLeaveGroup(n, s, found);
        LeaveListStep(n, s, name, found, sid);
      case CreateRule(info) => RuleListStep(n, info, sid);
      case _ =>
    }
  }

  /** Groups only come by creation, under the next id. */
  ghost predicate GroupsStep(n: NovaState, req: Request, n': NovaState) {
    forall g :: g in n'.st.groups ==>
      g in n.st.groups || (req.CreateGroup? && FoundGroup(n.st, req.newName, None) && g == n.nextGroupId + 1)
  }

  lemma GroupsGrowByCreation(n: NovaState, req: Request, n': NovaState, reply: Reply)
    requires HttpInv(n) && Serves(n, req, n', reply)
    ensures GroupsStep(n, req, n')
  {
    match req {
      case RunServer(name, image, flavor, names) =>
        if Complete(name, image, flavor) && AllKnown(n.st, Wanted(names)) {
          var n1 := n.(nextServerId := n.nextServerId + 1);
          var gids :| Picked(n.st, Wanted(names), gids) && (n', reply) == StartServer(n1, name, gids);
          var id := Itoa(n1.nextServerId);
          JoinAllAddsNothing(AddServer(n1.st, Server(id, name)).store, id, gids);
        }
      case CreateGroup(name, desc) =>
        var found :| FoundGroup(n.st, name, found) && (n', reply) == HandleCreateGroup(n, name, desc, found);
      case CreateRule(info) => CreateRuleGroups(n, info);
      case DeleteRule(id) => DeleteRuleGroups(n, id);
      case _ =>
    }
  }

  lemma CreateRuleGroups(n: NovaState, info: RuleInfo)
    requires HttpInv(n)
    ensures forall g :: g in HandleCreateRule(n, info).0.st.groups ==> g in n.st.groups
  {
    GroupsStay(n.st, n.nextRuleId + 1, info);
    assert forall g :: g in AddRule(n.st, n.nextRuleId + 1, info).store.groups.Keys ==> g in n.st.groups.Keys;
  }

  lemma DeleteRuleGroups(n: NovaState, id: int)
    requires HttpInv(n)
    ensures forall g :: g in HandleDeleteRule(n, id).0.st.groups ==> g in n.st.groups
  {
    GroupsStay(n.st, id, RuleInfo("", 0, 0, "", None, 0));
    assert forall g :: g in RemoveRule(n.st, id).store.groups.Keys ==> g in n.st.groups.Keys;
  }

  lemma RevivingWorks(n: NovaState, req: Request, n': NovaState, reply: Reply, g: int)
    requires Serves(n, req, n', reply) && Revives(n, req, g)
    ensures g in n'.st.groups && n'.st == n.st.(groups := n'.st.groups)
  {
    var found :| FoundGroup(n.st, req.newName, found) &&
                 (n', reply) == HandleCreateGroup(n, req.newName, req.description, found);
    FoundNone(n.st, req.newName, found);
  }

  lemma FoundNone(st: Store, name: string, found: Option<Group>)
    requires FoundGroup(st, name, None) && FoundGroup(st, name, found)
    ensures found.None?
  {
  }

  lemma JoiningWorks(n: NovaState, req: Request, n': NovaState, reply: Reply, sid: string, g: int)
    requires HttpInv(n) && Serves(n, req, n', reply) && Joins(n, req, sid, g) && sid in n.st.servers
    ensures HasServerGroup(n'.st, sid, g)
  {
    var found :| FoundGroup(n.st, req.groupName, found) && (n', reply) == HandleJoinGroup(n, sid, found);
    assert found.Some?;
    FoundGroupIsKeyed(n.st, req.groupName, found);
    assert found.value.id == g;
    var list := ListOf(n.st.serverGroups, sid);
    if !HasServerGroup(n.st, sid, g) {
      assert ListOf(n'.st.serverGroups, sid) == list + [g];
      assert (list + [g])[|list|] == g;
    }
  }

  /** A server there is comes to be in a group in just two ways: it joins, or a new group gets the id
      of the deleted default group while the server's list still holds it. */
  lemma MembershipExactly(n: NovaState, req: Request, n': NovaState, reply: Reply, sid: string, g: int)
    requires HttpInv(n) && Serves(n, req, n', reply)
    requires sid in n.st.servers && !HasServerGroup(n.st, sid, g)
    ensures HasServerGroup(n'.st, sid, g) <==>
            Joins(n, req, sid, g) || (Revives(n, req, g) && g in ListOf(n.st.serverGroups, sid))
  {
    if HasServerGroup(n'.st, sid, g) {
      ListsGrowByJoining(n, req, n', reply, sid);
      GroupsGrowByCreation(n, req, n', reply);
      if !Joins(n, req, sid, g) {
        assert g !in n.st.groups;
        HeldIsGivenOut(n, sid, g);
      }
    }
    if Joins(n, req, sid, g) {
      JoiningWorks(n, req, n', reply, sid, g);
    } else if Revives(n, req, g) && g in ListOf(n.st.serverGroups, sid) {
      RevivingWorks(n, req, n', reply, g);
    }
  }

  lemma HeldIsGivenOut(n: NovaState, sid: string, g: int)
    requires HttpInv(n) && g in ListOf(n.st.serverGroups, sid)
    ensures GivenOut(g, n.nextGroupId)
  {
    var i :| 0 <= i < |n.st.serverGroups[sid]| && n.st.serverGroups[sid][i] == g;
  }

  // ---------- Runs ----------

  lemma {:induction false} RunsFirst(n: NovaState, req: Request, n': NovaState, reply: Reply,
                                     reqs: seq<Request>, last: NovaState)
    requires Serves(n, req, n', reply) && Runs(n', reqs, last)
    ensures Runs(n, [req] + reqs, last)
  {
    var all := [req] + reqs;
    assert all[1..] == reqs;
    assert Serves(n, all[0], n', reply) && Runs(n', all[1..], last);
  }

  lemma {:induction false} NameBound(groups: map<int, Group>) returns (n: nat)
    ensures forall g :: g in groups ==> |groups[g].name| <= n
    decreases |groups|
  {
    if groups == map[] {
      n := 0;
    } else {
      var item :| item in groups.Items;
      var g, rest := item.0, groups - {item.0};
      assert |rest.Keys| < |groups.Keys| by {
        assert rest.Keys == groups.Keys - {g};
      }
      var m := NameBound(rest);
      n := if |groups[g].name| <= m then m else |groups[g].name|;
      forall h | h in groups
        ensures |groups[h].name| <= n
      {
        if h != g {
          assert h in rest && rest[h] == groups[h];
        }
      }
    }
  }

  lemma FreshName(st: Store) returns (name: string)
    ensures FoundGroup(st, name, None)
  {
    var n := NameBound(st.groups);
    name := seq(n + 1, i => 'x');
  }

  lemma CreateOne(n: NovaState) returns (req: Request, n': NovaState, group: Group)
    requires HttpInv(n) && n.nextGroupId + 1 !in n.st.groups
    ensures req.CreateGroup? && Serves(n, req, n', Accepted) && HttpInv(n')
    ensures n'.nextGroupId == n.nextGroupId + 1
    ensures n'.st == n.st.(groups := n.st.groups[n.nextGroupId + 1 := group])
  {
    var name := FreshName(n.st);
    req := CreateGroup(name, "");
    n' := HandleCreateGroup(n, name, "", None).0;
    group := Group(n.nextGroupId + 1, name, "", n.st.tenantId, []);
    assert n'.st == n.st.(groups := n.st.groups[n.nextGroupId + 1 := group]);
    assert Serves(n, req, n', Accepted);
    ServingKeepsInv(n, req, n', Accepted);
  }

  predicate OnlyCreates(reqs: seq<Request>) {
    forall i :: 0 <= i < |reqs| ==> reqs[i].CreateGroup?
  }

  /** Creating groups until the counter comes to the id of the deleted default group. */
  lemma {:induction false} Revive(n: NovaState) returns (reqs: seq<Request>, last: NovaState)
    requires HttpInv(n) && n.nextGroupId < DEFAULT_GROUP_ID && DEFAULT_GROUP_ID !in n.st.groups
    ensures Runs(n, reqs, last) && OnlyCreates(reqs)
    ensures DEFAULT_GROUP_ID in last.st.groups && last.st == n.st.(groups := last.st.groups)
    decreases DEFAULT_GROUP_ID - n.nextGroupId
  {
    assert n.nextGroupId + 1 !in n.st.groups;
    var req, n', group := CreateOne(n);
    if n'.nextGroupId == DEFAULT_GROUP_ID {
      reqs, last := [], n';
    } else {
      reqs, last := Revive(n');
    }
    RunsFirst(n, req, n', Accepted, reqs, last);
    reqs := [req] + reqs;
  }

  /** A group id that has been given out and is gone comes back in some run exactly when it is the
      default group's and the counter has not passed it. */
  lemma {:induction false} GroupReturnsExactly(n: NovaState, g: int)
    requires HttpInv(n) && GivenOut(g, n.nextGroupId) && g !in n.st.groups
    ensures (exists reqs, last :: Runs(n, reqs, last) && g in last.st.groups) <==>
            g == DEFAULT_GROUP_ID && n.nextGroupId < DEFAULT_GROUP_ID
  {
    if reqs, last :| Runs(n, reqs, last) && g in last.st.groups {
      GoneForGood(n, reqs, last);
    }
    if g == DEFAULT_GROUP_ID && n.nextGroupId < DEFAULT_GROUP_ID {
      var reqs, last := Revive(n);
      assert Runs(n, reqs, last) && g in last.st.groups;
    }
  }

  /** The server is not asked to join anything. */
  predicate NoJoin(reqs: seq<Request>, sid: string) {
    forall i :: 0 <= i < |reqs| ==> !(reqs[i].JoinGroup? && reqs[i].sid == sid)
  }

  lemma {:induction false} DeletedServerStays(n: NovaState, reqs: seq<Request>, last: NovaState, sid: string)
    requires HttpInv(n) && Runs(n, reqs, last) && Used(sid, n.nextServerId) && sid !in n.st.servers
    ensures sid !in last.st.servers
  {
    GoneForGood(n, reqs, last);
  }

  /** Memberships gained in a run without joining. */
  lemma {:induction false} GainedInRun(n: NovaState, reqs: seq<Request>, last: NovaState, sid: string, g: int)
    requires HttpInv(n) && Runs(n, reqs, last) && NoJoin(reqs, sid)
    requires sid in n.st.servers && !HasServerGroup(n.st, sid, g) && HasServerGroup(last.st, sid, g)
    ensures g == DEFAULT_GROUP_ID && g in ListOf(n.st.serverGroups, sid) && n.nextGroupId < DEFAULT_GROUP_ID
    decreases |reqs|
  {
    var n', reply :| Serves(n, reqs[0], n', reply) && Runs(n', reqs[1..], last);
    ServingKeepsInv(n, reqs[0], n', reply);
    ServingReturnsNothing(n, reqs[0], n', reply);
    assert !Joins(n, reqs[0], sid, g);
    MembershipExactly(n, reqs[0], n', reply, sid, g);
    if !HasServerGroup(n'.st, sid, g) {
      if sid !in n'.st.servers {
        UsedLater(sid, n.nextServerId, n'.nextServerId);
        DeletedServerStays(n', reqs[1..], last, sid);
      }
      ListsGrowByJoining(n, reqs[0], n', reply, sid);
      GainedInRun(n', reqs[1..], last, sid, g);
    }
  }

  ghost predicate GainsUnasked(n: NovaState, sid: string, g: int) {
    exists reqs, last :: Runs(n, reqs, last) && NoJoin(reqs, sid) && HasServerGroup(last.st, sid, g)
  }

  /** A server that is not in a group comes to be in it in some run without joining exactly when its
      list still holds the id of the deleted default group and the counter has not passed it. */
  lemma MembershipReturnsExactly(n: NovaState, sid: string, g: int)
    requires HttpInv(n) && sid in n.st.servers && !HasServerGroup(n.st, sid, g)
    ensures GainsUnasked(n, sid, g) <==>
            g == DEFAULT_GROUP_ID && g in ListOf(n.st.serverGroups, sid) && n.nextGroupId < DEFAULT_GROUP_ID
  {
    if GainsUnasked(n, sid, g) {
      var reqs, last :| Runs(n, reqs, last) && NoJoin(reqs, sid) && HasServerGroup(last.st, sid, g);
      GainedInRun(n, reqs, last, sid, g);
    }
    if g == DEFAULT_GROUP_ID && g in ListOf(n.st.serverGroups, sid) && n.nextGroupId < DEFAULT_GROUP_ID {
      var reqs, last := Revive(n);
      assert NoJoin(reqs, sid) && HasServerGroup(last.st, sid, g);
    }
  }

  /** The first server, just started, in the default group, which is then deleted. */
  lemma LeftBehind(tenantId: string) returns (n: NovaState, reqs: seq<Request>)
    ensures var sid := Itoa(1);
            && Runs(New(tenantId), reqs, n) && n.nextGroupId == 0
            && sid in n.st.servers && DEFAULT_GROUP_ID in ListOf(n.st.serverGroups, sid)
            && DEFAULT_GROUP_ID !in n.st.groups
  {
    var sid := Itoa(1);
    var n0 := New(tenantId);
    var n1 := StartServer(n0.(nextServerId := 1), "server", []).0;
    var group := Group(DEFAULT_GROUP_ID, DEFAULT_GROUP, "default group", tenantId, []);
    assert Wanted([]) == [] && Picked(n0.st, Wanted([]), []);
    assert Serves(n0, RunServer("server", "image", "flavor", []), n1, Accepted);
    assert DEFAULT_GROUP_ID in n1.st.groups && n1.st.groups[DEFAULT_GROUP_ID] == group;
    assert FoundGroup(n1.st, DEFAULT_GROUP, Some(group));
    var n2 := HandleJoinGroup(n1, sid, Some(group)).0;
    assert Serves(n1, JoinGroup(sid, DEFAULT_GROUP), n2, Accepted);
    n := HandleDeleteGroup(n2, DEFAULT_GROUP_ID).0;
    assert Serves(n2, DeleteGroup(DEFAULT_GROUP_ID), n, Accepted);
    assert Runs(n, [], n);
    RunsFirst(n2, DeleteGroup(DEFAULT_GROUP_ID), n, Accepted, [], n);
    reqs := [DeleteGroup(DEFAULT_GROUP_ID)] + [];
    RunsFirst(n1, JoinGroup(sid, DEFAULT_GROUP), n2, Accepted, reqs, n);
    reqs := [JoinGroup(sid, DEFAULT_GROUP)] + reqs;
    RunsFirst(n0, RunServer("server", "image", "flavor", []), n1, Accepted, reqs, n);
    reqs := [RunServer("server", "image", "flavor", [])] + reqs;
  }

  /** It does happen: a new service double comes to a state in which a server is in no group of id
      999, and from there to one in which it is, without having been asked to join. */
  lemma MembershipReturns(tenantId: string)
    ensures exists reqs, n ::
              Runs(New(tenantId), reqs, n) && !HasServerGroup(n.st, Itoa(1), DEFAULT_GROUP_ID) &&
              GainsUnasked(n, Itoa(1), DEFAULT_GROUP_ID)
  {
    var n, reqs := LeftBehind(tenantId);
    NewInv(tenantId);
    EveryRunKeepsInv(New(tenantId), reqs, n);
    MembershipReturnsExactly(n, Itoa(1), DEFAULT_GROUP_ID);
  }

  // ---------- Rules ----------

  predicate KeepsRule(n: NovaState, n': NovaState, r: int) {
    r in n.st.rules && r in n'.st.rules ==> n'.st.rules[r] == n.st.rules[r]
  }

  lemma IPsKeepRule(n: NovaState, sid: string, address: string, found: Option<FloatingIP>, r: int)
    ensures KeepsRule(n, HandleAttachIP(n, sid, address, found).0, r)
    ensures KeepsRule(n, HandleDetachIP(n, sid, address, found).0, r)
  {
  }

  lemma GroupsKeepRule(n: NovaState, sid: string, name: string, description: string, found: Option<Group>, r: int)
    ensures KeepsRule(n, HandleJoinGroup(n, sid, found).0, r)
    ensures KeepsRule(n, HandleLeaveGroup(n, sid, found).0, r)
    ensures KeepsRule(n, HandleCreateGroup(n, name, description, found).0, r)
  {
  }

  lemma RulesKeepRule(n: NovaState, info: RuleInfo, id: int, r: int)
    ensures KeepsRule(n, HandleCreateRule(n, info).0, r)
    ensures KeepsRule(n, HandleDeleteRule(n, id).0, r)
  {
  }

  lemma StartingKeepsRule(n: NovaState, name: string, gids: seq<int>, r: int)
    ensures KeepsRule(n, StartServer(n.(nextServerId := n.nextServerId + 1), name, gids).0, r)
  {
    var id := Itoa(n.nextServerId + 1);
    JoinAllAddsNothing(AddServer(n.st, Server(id, name)).store, id, gids);
  }

  lemma RuleStays(n: NovaState, req: Request, n': NovaState, reply: Reply, r: int)
    requires Serves(n, req, n', reply)
    ensures KeepsRule(n, n', r)
  {
    match req {
      case RunServer(name, image, flavor, names) =>
        if Complete(name, image, flavor) && AllKnown(n.st, Wanted(names)) {
          var gids :| Picked(n.st, Wanted(names), gids) &&
                      (n', reply) == StartServer(n.(nextServerId := n.nextServerId + 1), name, gids);
          StartingKeepsRule(n, name, gids, r);
        }
      case JoinGroup(sid, name) =>
        var found :| FoundGroup(n.st, name, found) && (n', reply) == HandleJoinGroup(n, sid, found);
        GroupsKeepRule(n, sid, "", "", found, r);
      case LeaveGroup(sid, name) =>
        var found :| FoundGroup(n.st, name, found) && (n', reply) == HandleLeaveGroup(n, sid, found);
        GroupsKeepRule(n, sid, "", "", found, r);
      case CreateGroup(name, desc) =>
        var found :| FoundGroup(n.st, name, found) && (n', reply) == HandleCreateGroup(n, name, desc, found);
        GroupsKeepRule(n, "", name, desc, found, r);
      case AttachIP(sid, addr) =>
        var found :| FoundIP(n.st, addr, found) && (n', reply) == HandleAttachIP(n, sid, addr, found);
        IPsKeepRule(n, sid, addr, found, r);
      case DetachIP(sid, addr) =>
        var found :| FoundIP(n.st, addr, found) && (n', reply) == HandleDetachIP(n, sid, addr, found);
        IPsKeepRule(n, sid, addr, found, r);
      case CreateRule(info) => RulesKeepRule(n, info, 0, r);
      case DeleteRule(id) => RulesKeepRule(n, RuleInfo("", 0, 0, "", None, 0), id, r);
      case _ =>
    }
  }

  lemma {:induction false} RuleStaysInRun(n: NovaState, reqs: seq<Request>, last: NovaState, r: int)
    requires HttpInv(n) && Runs(n, reqs, last) && r in n.st.rules && r in last.st.rules
    ensures last.st.rules[r] == n.st.rules[r]
    decreases |reqs|
  {
    if reqs != [] {
      var n', reply :| Serves(n, reqs[0], n', reply) && Runs(n', reqs[1..], last);
      ServingKeepsInv(n, reqs[0], n', reply);
      ServingReturnsNothing(n, reqs[0], n', reply);
      GoneForGood(n', reqs[1..], last);
      RuleStays(n, reqs[0], n', reply, r);
      RuleStaysInRun(n', reqs[1..], last, r);
    }
  }

  ghost predicate Reappears(n: NovaState, g: int, r: int) {
    exists reqs, last :: Runs(n, reqs, last) && HasRule(last.st, g, r)
  }

  /** An indexed rule that a group does not show comes to be shown by it in some run exactly when the
      group is the deleted default group, the rule is its, and the counter has not passed its id. */
  lemma RuleReturnsExactly(n: NovaState, g: int, r: int)
    requires HttpInv(n) && r in n.st.rules && !HasRule(n.st, g, r)
    ensures Reappears(n, g, r) <==>
            g == DEFAULT_GROUP_ID && n.st.rules[r].parent == g && n.nextGroupId < DEFAULT_GROUP_ID
  {
    if Reappears(n, g, r) {
      var reqs, last :| Runs(n, reqs, last) && HasRule(last.st, g, r);
      RuleStaysInRun(n, reqs, last, r);
      GoneForGood(n, reqs, last);
    }
    if g == DEFAULT_GROUP_ID && n.st.rules[r].parent == g && n.nextGroupId < DEFAULT_GROUP_ID {
      var reqs, last := Revive(n);
      assert Runs(n, reqs, last) && HasRule(last.st, g, r);
    }
  }
}
