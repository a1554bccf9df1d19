/** What the tables of the Nova service double agree on in every run, and what they do not. */
module NovaInvariants {
  import opened Sequences
  import opened Wrappers
  import opened NovaStore

  /** The rules embedded in group `gid` are in the index with the same value, name that group as
      their parent, and occur there once. */
  predicate EmbeddedAgree(rules: map<int, Rule>, gid: int, rs: seq<Rule>) {
    && (forall i :: 0 <= i < |rs| ==> rs[i].parent == gid && rs[i].id in rules && rules[rs[i].id] == rs[i])
    && (forall i, j :: 0 <= i < j < |rs| ==> rs[i].id != rs[j].id)
  }

  predicate RulesAgree(st: Store) {
    && (forall g :: g in st.groups ==> st.groups[g].id == g && EmbeddedAgree(st.rules, g, st.groups[g].rules))
    && (forall r :: r in st.rules ==> st.rules[r].id == r)
  }

  /** A floating IP attached to a server is in that server's list. */
  predicate AttachedListed(st: Store, ip: FloatingIP) {
    ip.instanceId.Some? ==> ip.id in ListOf(st.serverIPs, ip.instanceId.value)
  }

  predicate ListsAgree(st: Store) {
    && (forall id :: id in st.ips ==> st.ips[id].id == id && AttachedListed(st, st.ips[id]))
    && (forall s :: s in st.serverIPs ==> Distinct(st.serverIPs[s]))
    && (forall s :: s in st.serverGroups ==> Distinct(st.serverGroups[s]))
  }

  // ---------- Runs of operations ----------

  datatype Operation =
    | AddingServer(server: Server)
    | RemovingServer(sid: string)
    | AddingGroup(group: Group)
    | RemovingGroup(gid: int)
    | AddingRule(ruleId: int, info: RuleInfo)
    | RemovingRule(ruleId: int)
    | AddingServerGroup(sid: string, gid: int)
    | RemovingServerGroup(sid: string, gid: int)
    | AddingIP(ip: FloatingIP)
    | RemovingIP(ipId: int)
    | AddingServerIP(sid: string, ipId: int)
    | RemovingServerIP(sid: string, ipId: int)

  function Apply(st: Store, op: Operation): Outcome {
    match op
    case AddingServer(server) => AddServer(st, server)
    case RemovingServer(sid) => RemoveServer(st, sid)
    case AddingGroup(group) => AddGroup(st, group)
    case RemovingGroup(gid) => RemoveGroup(st, gid)
    case AddingRule(ruleId, info) => AddRule(st, ruleId, info)
    case RemovingRule(ruleId) => RemoveRule(st, ruleId)
    case AddingServerGroup(sid, gid) => AddServerGroup(st, sid, gid)
    case RemovingServerGroup(sid, gid) => RemoveServerGroup(st, sid, gid)
    case AddingIP(ip) => AddIP(st, ip)
    case RemovingIP(ipId) => RemoveIP(st, ipId)
    case AddingServerIP(sid, ipId) => AddServerIP(st, sid, ipId)
    case RemovingServerIP(sid, ipId) => RemoveServerIP(st, sid, ipId)
  }

  /** Groups come in without rules of their own and IPs unattached. */
  predicate Plain(op: Operation) {
    match op
    case AddingGroup(group) => group.rules == []
    case AddingIP(ip) => ip.instanceId.None?
    case _ => true
  }

  /** The tables after a run; operations that fail still leave what they changed. */
  function Run(st: Store, ops: seq<Operation>): Store
    decreases |ops|
  {
    if ops == [] then st else Run(Apply(st, ops[0]).store, ops[1..])
  }

  function Empty(tenantId: string): Store {
    Store(tenantId, map[], map[], map[], map[], map[], map[])
  }

  // ---------- Rules ----------

  lemma AddRuleAgrees(st: Store, id: int, info: RuleInfo)
    requires RulesAgree(st)
    ensures RulesAgree(AddRule(st, id, info).store)
  {
    var out := AddRule(st, id, info);
    if out.error.None? {
      var st' := out.store;
      forall g | g in st'.groups
        ensures st'.groups[g].id == g && EmbeddedAgree(st'.rules, g, st'.groups[g].rules)
      {
        assert EmbeddedAgree(st.rules, g, st.groups[g].rules);
        if g == info.parent {
          assert st'.groups[g].rules == st.groups[g].rules + [NewRule(st, id, info)];
        }
      }
    }
  }

  /** The embedded rules without the one removed. */
  lemma RemovedRuleEmbedding(rules: map<int, Rule>, gid: int, rs: seq<Rule>, id: int, i: nat)
    requires EmbeddedAgree(rules, gid, rs) && i < |rs| && rs[i].id == id
    ensures EmbeddedAgree(rules - {id}, gid, RemoveAt(rs, i))
    ensures RuleIndex(RemoveAt(rs, i), id) == -1
  {
    var rest := RemoveAt(rs, i);
    forall k | 0 <= k < |rest|
      ensures rest[k] == rs[if k < i then k else k + 1] && rest[k].id != id
    {
    }
  }

  /** Groups other than the rule's parent do not embed it, and neither does the parent when the
      search finds nothing. */
  lemma NotEmbedded(st: Store, g: int, id: int)
    requires RulesAgree(st) && g in st.groups
    requires id in st.rules ==> st.rules[id].parent != g || RuleIndex(st.groups[g].rules, id) == -1
    ensures forall i :: 0 <= i < |st.groups[g].rules| ==> st.groups[g].rules[i].id != id
    ensures EmbeddedAgree(st.rules - {id}, g, st.groups[g].rules)
  {
    assert EmbeddedAgree(st.rules, g, st.groups[g].rules);
  }

  /** A group from which the rule has been taken, if it was there, and nothing else has changed. */
  predicate Cleared(before: Group, after: Group, id: int) {
    var i := RuleIndex(before.rules, id);
    && after == before.(rules := if i == -1 then before.rules else RemoveAt(before.rules, i))
    && RuleIndex(after.rules, id) == -1
  }

  lemma GroupCleared(st: Store, id: int, g: int)
    requires RulesAgree(st) && id in st.rules && g in st.groups
    ensures var groups := RemoveRule(st, id).store.groups;
            g in groups && Cleared(st.groups[g], groups[g], id) && EmbeddedAgree(st.rules - {id}, g, groups[g].rules)
  {
    var i := RuleIndex(st.groups[g].rules, id);
    if g == st.rules[id].parent && i != -1 {
      RemovedRuleEmbedding(st.rules, g, st.groups[g].rules, id, i);
    } else {
      NotEmbedded(st, g, id);
    }
  }

  /** Removing a rule leaves no copy of it anywhere - even when its group was deleted and created
      again - and changes nothing else. */
  lemma RemoveRuleLeavesNoCopy(st: Store, id: int)
    requires RulesAgree(st) && id in st.rules
    ensures var out := RemoveRule(st, id);
            && out.error.None? && RulesAgree(out.store) && out.store.rules == st.rules - {id}
            && out.store == st.(groups := out.store.groups, rules := st.rules - {id})
            && (forall g :: g in out.store.groups <==> g in st.groups)
            && (forall g :: g in st.groups ==> Cleared(st.groups[g], out.store.groups[g], id))
  {
    forall g | g in st.groups
      ensures var groups := RemoveRule(st, id).store.groups;
              g in groups && Cleared(st.groups[g], groups[g], id) && EmbeddedAgree(st.rules - {id}, g, groups[g].rules)
    {
      GroupCleared(st, id, g);
    }
  }

  lemma RuleAppendedLast(rs: seq<Rule>, rule: Rule)
    requires forall k :: 0 <= k < |rs| ==> rs[k].id != rule.id
    ensures RuleIndex(rs + [rule], rule.id) == |rs| && RemoveAt(rs + [rule], |rs|) == rs
  {
    var rs' := rs + [rule];
    assert rs'[|rs|] == rule;
    assert forall k :: 0 <= k < |rs| ==> rs'[k] == rs[k];
  }

  lemma PutBack<K, V>(m: map<K, V>, k: K, v: V)
    ensures k in m ==> m[k := v][k := m[k]] == m
    ensures k !in m ==> m[k := v] - {k} == m
  {
  }

  lemma PutAgain<K, V>(m: map<K, V>, k: K, v: V, w: V)
    ensures m[k := v][k := w] == m[k := w]
  {
  }

  /** A rule just added can be removed again, and that restores the tables exactly. */
  lemma RemoveUndoesAddRule(st: Store, id: int, info: RuleInfo)
    requires RulesAgree(st) && AddRule(st, id, info).error.None?
    ensures RemoveRule(AddRule(st, id, info).store, id) == Done(st)
  {
    var st' := AddRule(st, id, info).store;
    var g, rule := info.parent, NewRule(st, id, info);
    RuleAppendedLast(st.groups[g].rules, rule);
    PutBack(st.rules, id, rule);
    PutBack(st.groups, g, st'.groups[g]);
  }

  lemma AddGroupAgrees(st: Store, group: Group)
    requires RulesAgree(st) && group.id !in st.groups
    ensures RulesAgree(AddGroup(st, group).store) <==> EmbeddedAgree(st.rules, group.id, group.rules)
  {
    var st' := AddGroup(st, group).store;
    assert st'.groups[group.id].rules == group.rules;
    assert forall g :: g in st.groups ==> st'.groups[g] == st.groups[g];
  }

  lemma StepKeepsRules(st: Store, op: Operation)
    requires RulesAgree(st) && Plain(op)
    ensures RulesAgree(Apply(st, op).store)
  {
    match op {
      case AddingRule(id, info) => AddRuleAgrees(st, id, info);
      case RemovingRule(id) =>
        if id in st.rules {
          RemoveRuleLeavesNoCopy(st, id);
        }
      case AddingGroup(group) =>
        if group.id !in st.groups {
          AddGroupAgrees(st, group);
        }
      case _ =>
    }
  }

  /** In every run of plain operations from tables that agree, embedded rules and the index agree. */
  lemma {:induction false} RunKeepsRules(st: Store, ops: seq<Operation>)
    requires RulesAgree(st) && forall op :: op in ops ==> Plain(op)
    ensures RulesAgree(Run(st, ops))
    decreases |ops|
  {
    if ops != [] {
      StepKeepsRules(st, ops[0]);
      RunKeepsRules(Apply(st, ops[0]).store, ops[1..]);
    }
  }

  // ---------- Where index and groups differ ----------

  /** Each indexed rule whose parent exists is embedded in it. */
  ghost predicate NoneStale(st: Store) {
    forall r :: r in st.rules && st.rules[r].parent in st.groups ==>
      RuleIndex(st.groups[st.rules[r].parent].rules, r) != -1
  }

  /** Then `hasSecurityGroupRule` answers for a group just what the group embeds. */
  lemma HasRuleExactly(st: Store, g: int, r: int)
    requires RulesAgree(st) && g in st.groups && g != -1
    ensures RuleIndex(st.groups[g].rules, r) != -1 ==> HasRule(st, g, r)
    ensures NoneStale(st) ==> (HasRule(st, g, r) <==> RuleIndex(st.groups[g].rules, r) != -1)
  {
    assert EmbeddedAgree(st.rules, g, st.groups[g].rules);
  }

  /** Deleting a group leaves its rules in the index. A new, empty group keeps the two views in
      step exactly when no indexed rule names its id. */
  lemma StaleExactly(st: Store, group: Group)
    requires RulesAgree(st) && NoneStale(st) && group.id !in st.groups && group.rules == []
    ensures NoneStale(AddGroup(st, group).store) <==> forall r :: r in st.rules ==> st.rules[r].parent != group.id
    ensures forall g :: NoneStale(RemoveGroup(st, g).store)
  {
    var st' := AddGroup(st, group).store;
    if r :| r in st.rules && st.rules[r].parent == group.id {
      assert RuleIndex(st'.groups[group.id].rules, r) == -1;
    }
  }

  // ---------- Lists ----------

  lemma RemoveAtKeepsDistinct(xs: seq<int>, i: nat)
    requires Distinct(xs) && i < |xs|
    ensures Distinct(RemoveAt(xs, i))
    ensures forall x :: x in RemoveAt(xs, i) <==> x in xs && x != xs[i]
  {
    var rest := RemoveAt(xs, i);
    forall k | 0 <= k < |rest|
      ensures rest[k] == xs[if k < i then k else k + 1]
    {
    }
    forall x | x in xs && x != xs[i]
      ensures x in rest
    {
      var k :| 0 <= k < |xs| && xs[k] == x;
      assert rest[if k < i then k else k - 1] == x;
    }
  }

  lemma AddServerIPAgrees(st: Store, server: string, id: int)
    requires ListsAgree(st)
    ensures ListsAgree(AddServerIP(st, server, id).store)
  {
    var st' := AddServerIP(st, server, id).store;
    forall k | k in st'.ips
      ensures st'.ips[k].id == k && AttachedListed(st', st'.ips[k])
    {
      assert AttachedListed(st, st.ips[k]);
    }
  }

  lemma RemoveServerIPAgrees(st: Store, server: string, id: int)
    requires ListsAgree(st)
    ensures ListsAgree(RemoveServerIP(st, server, id).store)
  {
    var list := ListOf(st.serverIPs, server);
    var i := IndexOf(list, id);
    if i != -1 {
      RemoveAtKeepsDistinct(list, i);
    }
    var st' := RemoveServerIP(st, server, id).store;
    forall k | k in st'.ips
      ensures st'.ips[k].id == k && AttachedListed(st', st'.ips[k])
    {
      assert AttachedListed(st, st.ips[k]);
    }
  }

  lemma ServerGroupsAgree(st: Store, server: string, group: int)
    requires ListsAgree(st)
    ensures ListsAgree(AddServerGroup(st, server, group).store)
    ensures ListsAgree(RemoveServerGroup(st, server, group).store)
  {
    var list := ListOf(st.serverGroups, server);
    var i := IndexOf(list, group);
    if i != -1 {
      RemoveAtKeepsDistinct(list, i);
    }
    var a, r := AddServerGroup(st, server, group).store, RemoveServerGroup(st, server, group).store;
    forall k | k in st.ips
      ensures AttachedListed(a, a.ips[k]) && AttachedListed(r, r.ips[k])
    {
      assert AttachedListed(st, st.ips[k]);
    }
  }

  lemma AddIPAgrees(st: Store, ip: FloatingIP)
    requires ListsAgree(st) && ip.instanceId.None?
    ensures ListsAgree(AddIP(st, ip).store)
  {
    var st' := AddIP(st, ip).store;
    forall k | k in st'.ips
      ensures st'.ips[k].id == k && AttachedListed(st', st'.ips[k])
    {
      if k in st.ips {
        assert AttachedListed(st, st.ips[k]);
      }
    }
  }

  /** Fewer IPs and the same lists agree as before. */
  lemma FewerIPsAgree(st: Store, st': Store)
    requires ListsAgree(st) && st'.serverIPs == st.serverIPs && st'.serverGroups == st.serverGroups
    requires forall k :: k in st'.ips ==> k in st.ips && st'.ips[k] == st.ips[k]
    ensures ListsAgree(st')
  {
    forall k | k in st'.ips
      ensures AttachedListed(st', st'.ips[k])
    {
      assert AttachedListed(st, st.ips[k]);
    }
  }

  lemma OtherTablesStay(st: Store, op: Operation)
    requires
      || op.AddingServer? || op.RemovingServer? || op.AddingGroup? || op.RemovingGroup?
      || op.AddingRule? || op.RemovingRule?
    ensures var st' := Apply(st, op).store;
            st'.ips == st.ips && st'.serverIPs == st.serverIPs && st'.serverGroups == st.serverGroups
  {
  }

  lemma StepKeepsLists(st: Store, op: Operation)
    requires ListsAgree(st) && Plain(op)
    ensures ListsAgree(Apply(st, op).store)
  {
    match op {
      case AddingServerIP(sid, id) => AddServerIPAgrees(st, sid, id);
      case RemovingServerIP(sid, id) => RemoveServerIPAgrees(st, sid, id);
      case AddingServerGroup(sid, gid) => ServerGroupsAgree(st, sid, gid);
      case RemovingServerGroup(sid, gid) => ServerGroupsAgree(st, sid, gid);
      case AddingIP(ip) => AddIPAgrees(st, ip);
      case RemovingIP(id) => FewerIPsAgree(st, RemoveIP(st, id).store);
      case _ =>
        OtherTablesStay(st, op);
        FewerIPsAgree(st, Apply(st, op).store);
    }
  }

  /** In every run, calls that fail half way included, an attached IP is in its server's list,
      and no server's list of IPs or groups names anything twice. */
  lemma {:induction false} RunKeepsLists(st: Store, ops: seq<Operation>)
    requires ListsAgree(st) && forall op :: op in ops ==> Plain(op)
    ensures ListsAgree(Run(st, ops))
    decreases |ops|
  {
    if ops != [] {
      StepKeepsLists(st, ops[0]);
      RunKeepsLists(Apply(st, ops[0]).store, ops[1..]);
    }
  }

  /** The tables agree in both respects. */
  predicate Agree(st: Store) {
    RulesAgree(st) && ListsAgree(st)
  }

  lemma KeepsAgreement(st: Store, op: Operation)
    requires Plain(op)
    ensures Agree(st) ==> Agree(Apply(st, op).store)
  {
    if Agree(st) {
      StepKeepsRules(st, op);
      StepKeepsLists(st, op);
    }
  }

  /** All tables agree after every run that starts with none. */
  lemma {:induction false} EveryRunAgrees(tenantId: string, ops: seq<Operation>)
    requires forall op :: op in ops ==> Plain(op)
    ensures Agree(Run(Empty(tenantId), ops))
  {
    RunKeepsRules(Empty(tenantId), ops);
    RunKeepsLists(Empty(tenantId), ops);
  }

  // ---------- Calls that fail half way ----------

  /** A refused attachment changes nothing exactly when the server or IP is unknown or the IP
      was marked as attached to that very server already. */
  lemma RefusedAttachChanges(st: Store, server: string, id: int)
    requires AddServerIP(st, server, id).error.Some?
    ensures AddServerIP(st, server, id).store == st <==>
            server !in st.servers || id !in st.ips ||
            (st.ips[id].fixedIP == Some(FIXED_IP) && st.ips[id].instanceId == Some(server))
  {
    if server in st.servers && id in st.ips {
      var ip := st.ips[id];
      var ip' := AddServerIP(st, server, id).store.ips[id];
      if ip == ip' {
        assert st.ips[id := ip'] == st.ips;
      }
    }
  }

  /** A refused detachment changes nothing exactly when the server or IP is unknown or the IP was
      not marked as attached: asking the wrong server detaches an IP and reports an error. */
  lemma RefusedDetachChanges(st: Store, server: string, id: int)
    requires RemoveServerIP(st, server, id).error.Some?
    ensures RemoveServerIP(st, server, id).store == st <==>
            server !in st.servers || id !in st.ips ||
            (st.ips[id].fixedIP.None? && st.ips[id].instanceId.None?)
  {
    if server in st.servers && id in st.ips {
      var ip := st.ips[id];
      var ip' := RemoveServerIP(st, server, id).store.ips[id];
      if ip == ip' {
        assert st.ips[id := ip'] == st.ips;
      }
    }
  }

  lemma AppendedLast(xs: seq<int>, x: int)
    requires x !in xs
    ensures IndexOf(xs + [x], x) == |xs| && RemoveAt(xs + [x], |xs|) == xs
  {
    var ys := xs + [x];
    assert ys[|xs|] == x;
    assert forall k :: 0 <= k < |xs| ==> ys[k] == xs[k];
    var j := IndexOf(ys, x);
    assert j != -1;
  }

  /** Detaching an unmarked IP right after attaching it restores the tables, except that a server
      with no list before now has an empty one. */
  lemma DetachUndoesAttach(st: Store, server: string, id: int)
    requires ListsAgree(st) && AddServerIP(st, server, id).error.None?
    requires st.ips[id].fixedIP.None? && st.ips[id].instanceId.None?
    ensures RemoveServerIP(AddServerIP(st, server, id).store, server, id) ==
            Done(st.(serverIPs := st.serverIPs[server := ListOf(st.serverIPs, server)]))
  {
    var st' := AddServerIP(st, server, id).store;
    var list := ListOf(st.serverIPs, server);
    AppendedLast(list, id);
    assert ListOf(st'.serverIPs, server) == list + [id];
    PutBack(st.ips, id, st'.ips[id]);
    PutAgain(st.serverIPs, server, list + [id], list);
  }
}
