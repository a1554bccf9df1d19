/** The operations of the Nova service double, table by table: what becomes of each entry, whatever
    the tables hold, and when an operation is refused. */
module NovaTables {
  import opened Sequences
  import opened Wrappers
  import opened NovaStore
  import opened NovaInvariants

  /** The refusals, in the order in which they are looked for. */
  function Refusal(st: Store, op: Operation): Option<Failure> {
    match op
    case AddingServer(server) => if server.id in st.servers then Some(AlreadyExists) else None
    case RemovingServer(sid) => if sid in st.servers then None else Some(NoSuchServer)
    case AddingGroup(group) => if group.id in st.groups then Some(AlreadyExists) else None
    case RemovingGroup(gid) => if gid in st.groups then None else Some(NoSuchGroup)
    case AddingRule(id, info) =>
      if id in st.rules then Some(AlreadyExists)
      else if info.parent !in st.groups then Some(NoSuchGroup)
      else if exists i :: 0 <= i < |st.groups[info.parent].rules| && st.groups[info.parent].rules[i].id == id then
        Some(RuleInGroup)
      else if info.groupId.Some? && info.groupId.value !in st.groups then Some(UnknownSource)
      else None
    case RemovingRule(id) => if id in st.rules then None else Some(NoSuchRule)
    case AddingServerGroup(sid, gid) =>
      if sid !in st.servers then Some(NoSuchServer)
      else if gid !in st.groups then Some(NoSuchGroup)
      else if sid in st.serverGroups && gid in st.serverGroups[sid] then Some(AlreadyMember)
      else None
    case RemovingServerGroup(sid, gid) =>
      if sid !in st.servers then Some(NoSuchServer)
      else if gid !in st.groups then Some(NoSuchGroup)
      else if sid in st.serverGroups && gid in st.serverGroups[sid] then None
      else Some(NotMember)
    case AddingIP(ip) => if ip.id in st.ips then Some(AlreadyExists) else None
    case RemovingIP(id) => if id in st.ips then None else Some(NoSuchIP)
    case AddingServerIP(sid, id) =>
      if sid !in st.servers then Some(NoSuchServer)
      else if id !in st.ips then Some(NoSuchIP)
      else if sid in st.serverIPs && id in st.serverIPs[sid] then Some(AlreadyMember)
      else None
    case RemovingServerIP(sid, id) =>
      if sid !in st.servers then Some(NoSuchServer)
      else if id !in st.ips then Some(NoSuchIP)
      else if sid in st.serverIPs && id in st.serverIPs[sid] then None
      else Some(NotMember)
  }

  /** An operation is refused for just these reasons. */
  lemma RefusedExactly(st: Store, op: Operation)
    ensures Apply(st, op).error == Refusal(st, op)
  {
    if op.AddingRule? && op.info.parent in st.groups {
      var rs := st.groups[op.info.parent].rules;
      var i := RuleIndex(rs, op.ruleId);
      assert i != -1 ==> rs[i].id == op.ruleId;
    }
  }

  function Entry<K, V>(m: map<K, V>, k: K): Option<V> {
    if k in m then Some(m[k]) else None
  }

  /** Servers come and go one by one. */
  lemma ServersEntry(st: Store, op: Operation, s: string)
    ensures var st' := Apply(st, op).store;
            st'.tenantId == st.tenantId &&
            Entry(st'.servers, s) ==
              match op
              case AddingServer(server) =>
                if s == server.id && s !in st.servers then Some(server) else Entry(st.servers, s)
              case RemovingServer(sid) => if s == sid then None else Entry(st.servers, s)
              case _ => Entry(st.servers, s)
  {
  }

  /** So do floating IPs. Attaching and detaching change just the one IP's mark, also when refused
      because of the server's list. */
  lemma IPsEntry(st: Store, op: Operation, k: int)
    ensures Entry(Apply(st, op).store.ips, k) ==
              match op
              case AddingIP(ip) => if k == ip.id && k !in st.ips then Some(ip) else Entry(st.ips, k)
              case RemovingIP(id) => if k == id then None else Entry(st.ips, k)
              case AddingServerIP(sid, id) =>
                if k == id && k in st.ips && sid in st.servers then
                  Some(st.ips[k].(fixedIP := Some("4.3.2.1"), instanceId := Some(sid)))
                else Entry(st.ips, k)
              case RemovingServerIP(sid, id) =>
                if k == id && k in st.ips && sid in st.servers then
                  Some(st.ips[k].(fixedIP := None, instanceId := None))
                else Entry(st.ips, k)
              case _ => Entry(st.ips, k)
  {
  }

  /** And rules in the index. */
  lemma RulesEntry(st: Store, op: Operation, r: int)
    ensures var rule := Entry(Apply(st, op).store.rules, r);
            match op
            case AddingRule(id, info) =>
              if r == id && Refusal(st, op).None? then
                rule.Some? && rule.value.id == id && rule.value.parent == info.parent
              else rule == Entry(st.rules, r)
            case RemovingRule(id) => rule == if r == id then None else Entry(st.rules, r)
            case _ => rule == Entry(st.rules, r)
  {
    RefusedExactly(st, op);
  }

  /** Groups come and go one by one, and take the tenant of the service. A rule is embedded in its
      parent behind the others, and taken out of it; all else about a group stays. */
  lemma GroupsEntry(st: Store, op: Operation, g: int)
    requires RulesAgree(st)
    ensures var group := Entry(Apply(st, op).store.groups, g);
            match op
            case AddingGroup(added) =>
              group == if g == added.id && g !in st.groups then Some(added.(tenantId := st.tenantId))
                       else Entry(st.groups, g)
            case RemovingGroup(gid) => group == if g == gid then None else Entry(st.groups, g)
            case AddingRule(id, info) =>
              if g == info.parent && Refusal(st, op).None? then
                group == Some(st.groups[g].(rules := st.groups[g].rules + [Apply(st, op).store.rules[id]]))
              else group == Entry(st.groups, g)
            case RemovingRule(id) =>
              if g in st.groups then group.Some? && Unembedded(st.groups[g], group.value, id) else group.None?
            case _ => group == Entry(st.groups, g)
  {
    RefusedExactly(st, op);
    if op.RemovingRule? && g in st.groups {
      RuleUnembedded(st, op.ruleId, g);
    }
  }

  /** The positions of rules with another id. */
  function OtherRules(rs: seq<Rule>, id: int): set<int> {
    set i | 0 <= i < |rs| && rs[i].id != id
  }

  /** The group has lost the rule and kept all others in their order. */
  ghost predicate Unembedded(before: Group, after: Group, id: int) {
    after == before.(rules := after.rules) && Filters(before.rules, after.rules, OtherRules(before.rules, id))
  }

  /** The positions below `n` other than `k`. */
  function PositionsBut(n: nat, k: int): (at: seq<int>)
    ensures Increasing(at) && |at| == if 0 <= k < n then n - 1 else n
    ensures forall i :: 0 <= i < |at| ==> at[i] == if k < 0 || i < k then i else i + 1
    ensures forall i :: i in at <==> 0 <= i < n && i != k
  {
    if n == 0 then [] else PositionsBut(n - 1, k) + if n - 1 == k then [] else [n - 1]
  }

  lemma UnembeddedAt(group: Group, id: int, k: int)
    requires k < |group.rules|
    requires forall i :: 0 <= i < |group.rules| ==> (group.rules[i].id == id <==> i == k)
    ensures Unembedded(group, if k < 0 then group else group.(rules := RemoveAt(group.rules, k)), id)
  {
    var rs := group.rules;
    var rest := if k < 0 then rs else RemoveAt(rs, k);
    var at := PositionsBut(|rs|, k);
    assert PicksAt(rs, rest, at) && Lists(at, OtherRules(rs, id));
  }

  lemma RuleUnembedded(st: Store, id: int, g: int)
    requires RulesAgree(st) && g in st.groups
    ensures var st' := RemoveRule(st, id).store;
            g in st'.groups && Unembedded(st.groups[g], st'.groups[g], id)
  {
    var rs := st.groups[g].rules;
    assert EmbeddedAgree(st.rules, g, rs);
    var i := RuleIndex(rs, id);
    if id in st.rules && g == st.rules[id].parent {
      UnembeddedAt(st.groups[g], id, i);
    } else {
      NotEmbedded(st, g, id);
      UnembeddedAt(st.groups[g], id, -1);
    }
  }

  /** The lists of one server change, and only by joining and leaving: what joins comes last, and what
      leaves is the first occurrence. */
  lemma GroupListsEntry(st: Store, op: Operation, s: string)
    ensures var list := Entry(Apply(st, op).store.serverGroups, s);
            match op
            case AddingServerGroup(sid, gid) =>
              if s == sid && Refusal(st, op).None? then list == Some(ListOf(st.serverGroups, s) + [gid])
              else list == Entry(st.serverGroups, s)
            case RemovingServerGroup(sid, gid) =>
              if s == sid && Refusal(st, op).None? then
                list.Some? && FirstLeft(ListOf(st.serverGroups, s), list.value, gid)
              else list == Entry(st.serverGroups, s)
            case _ => list == Entry(st.serverGroups, s)
  {
    if op.RemovingServerGroup? {
      var list := ListOf(st.serverGroups, op.sid);
      if IndexOf(list, op.gid) != -1 {
        LeftFirst(list, op.gid, IndexOf(list, op.gid));
      }
    }
  }

  lemma IPListsEntry(st: Store, op: Operation, s: string)
    ensures var list := Entry(Apply(st, op).store.serverIPs, s);
            match op
            case AddingServerIP(sid, id) =>
              if s == sid && Refusal(st, op).None? then list == Some(ListOf(st.serverIPs, s) + [id])
              else list == Entry(st.serverIPs, s)
            case RemovingServerIP(sid, id) =>
              if s == sid && Refusal(st, op).None? then
                list.Some? && FirstLeft(ListOf(st.serverIPs, s), list.value, id)
              else list == Entry(st.serverIPs, s)
            case _ => list == Entry(st.serverIPs, s)
  {
    if op.RemovingServerIP? {
      var list := ListOf(st.serverIPs, op.sid);
      if IndexOf(list, op.ipId) != -1 {
        LeftFirst(list, op.ipId, IndexOf(list, op.ipId));
      }
    }
  }

  /** The first occurrence of `x` has been taken out. */
  predicate FirstLeft(before: seq<int>, after: seq<int>, x: int) {
    exists i :: 0 <= i < |before| && before[i] == x && x !in before[..i] && after == before[..i] + before[i + 1..]
  }

  lemma LeftFirst(list: seq<int>, x: int, i: nat)
    requires i < |list| && i == IndexOf(list, x)
    ensures FirstLeft(list, RemoveAt(list, i), x)
  {
    assert x !in list[..i];
  }
}
