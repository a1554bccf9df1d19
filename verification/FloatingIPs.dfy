/** Floating-IP allocation for servers (provision/serverprovision.go, `FIPWithNova`): allocate,
    reclaim unused IPs and retry, attach, and roll back. */
module FloatingIPs {
  import opened Sequences
  import opened Wrappers
  import opened Cloud

  type IPs = map<int, CloudIP>

  /** Addresses that a remediation under way wants to keep. */
  class RemediationList {
    var tracked: set<string>

    constructor ()
      ensures tracked == {}
    {
      tracked := {};
    }

    method Track(address: string)
      modifies this
      ensures tracked == old(tracked) + {address}
    {
      tracked := tracked + {address};
    }

    method Delete(address: string)
      modifies this
      ensures tracked == old(tracked) - {address}
    {
      tracked := tracked - {address};
    }

    method Find(address: string) returns (found: bool)
      ensures found <==> address in tracked
    {
      found := address in tracked;
    }
  }

  /** An IP that must not be reclaimed: attached to a server, or tracked for remediation. */
  predicate Protected(ip: CloudIP, tracked: set<string>) {
    ip.instance.Some? || ip.address in tracked
  }

  /** Every protected IP of `before` is still there, unchanged. */
  ghost predicate KeepsProtected(before: IPs, after: IPs, tracked: set<string>) {
    forall k :: k in before && Protected(before[k], tracked) ==> k in after && after[k] == before[k]
  }

  /** At most `address` is gone. */
  predicate Untracks(before: set<string>, after: set<string>, address: string) {
    after == before || after == before - {address}
  }

  /** The same, but an IP at address `spare` may be gone or changed. */
  ghost predicate KeepsOthers(before: IPs, after: IPs, tracked: set<string>, spare: Option<string>) {
    forall k :: k in before && Protected(before[k], tracked) && spare != Some(before[k].address) ==>
      k in after && after[k] == before[k]
  }

  /** Nothing is new except possibly `added`, and what is left of the old is unchanged. */
  ghost predicate AddsAtMost(before: IPs, after: IPs, added: Option<int>) {
    forall k :: k in after ==> if k in before then after[k] == before[k] else added == Some(k)
  }

  /** An IP attached to the server. */
  predicate Holds(ips: IPs, k: int, server: string) {
    k in ips && ips[k].instance == Some(server)
  }

  /** An IP allocated in vain is gone, unless its deletion was not confirmed. */
  ghost predicate GivenBack(ips: IPs, log: seq<IPCall>, added: Option<int>) {
    added.Some? && added.value in ips ==> IPDeletion(added.value, false) in log
  }

  /** A listing that shows this address. */
  predicate Shows(c: IPCall, address: string) {
    c.Listed? && exists i :: 0 <= i < |c.list| && c.list[i].1.address == address
  }

  /** The ids of the first `n` listed IPs that are neither attached nor tracked. */
  function UnusedIds(list: seq<(int, CloudIP)>, n: nat, tracked: set<string>): seq<int>
    requires n <= |list|
  {
    if n == 0 then []
    else UnusedIds(list, n - 1, tracked) + if Protected(list[n - 1].1, tracked) then [] else [list[n - 1].0]
  }

  /** The deletions asked for, one for each id, `dones` telling which were confirmed. */
  function Deletions(ids: seq<int>, dones: seq<bool>): seq<IPCall>
    requires |ids| == |dones|
  {
    seq(|ids|, i requires 0 <= i < |ids| => IPDeletion(ids[i], dones[i]))
  }

  lemma OneMoreDeletion(ids: seq<int>, dones: seq<bool>, id: int, done: bool)
    requires |ids| == |dones|
    ensures Deletions(ids + [id], dones + [done]) == Deletions(ids, dones) + [IPDeletion(id, done)]
  {
  }

  /** A listing, and then the deletion of just those listed IPs that are neither attached nor tracked. */
  ghost predicate Reclaiming(calls: seq<IPCall>, tracked: set<string>) {
    exists list, dones |
        |dones| == |UnusedIds(list, |list|, tracked)| ::
      calls == [Listed(list)] + Deletions(UnusedIds(list, |list|, tracked), dones)
  }

  function IdsOf(list: seq<(int, CloudIP)>, n: nat): seq<int>
    requires n <= |list|
  {
    seq(n, i requires 0 <= i < n => list[i].0)
  }

  function UnusedAt(list: seq<(int, CloudIP)>, n: nat, tracked: set<string>): set<int>
    requires n <= |list|
  {
    set i | 0 <= i < n && list[i].1.instance.None? && list[i].1.address !in tracked
  }

  lemma {:induction false} UnusedFilter(list: seq<(int, CloudIP)>, n: nat, tracked: set<string>)
    requires n <= |list|
    ensures Filters(IdsOf(list, n), UnusedIds(list, n, tracked), UnusedAt(list, n, tracked))
  {
    if n == 0 {
      FiltersNone(IdsOf(list, n));
      assert UnusedAt(list, n, tracked) == {};
    } else {
      var ip := list[n - 1].1;
      UnusedFilter(list, n - 1, tracked);
      assert IdsOf(list, n) == IdsOf(list, n - 1) + [list[n - 1].0];
      if ip.instance.None? && ip.address !in tracked {
        FiltersMore(IdsOf(list, n - 1), UnusedIds(list, n - 1, tracked), UnusedAt(list, n - 1, tracked), list[n - 1].0);
        assert UnusedAt(list, n, tracked) == UnusedAt(list, n - 1, tracked) + {n - 1};
      } else {
        FiltersSkip(IdsOf(list, n - 1), UnusedIds(list, n - 1, tracked), UnusedAt(list, n - 1, tracked), list[n - 1].0);
        assert UnusedAt(list, n, tracked) == UnusedAt(list, n - 1, tracked);
      }
    }
  }

  /** The ids of the deletions after the listing. */
  predicate AsksFor(calls: seq<IPCall>, ids: seq<int>) {
    |calls| == |ids| + 1 && forall i :: 0 <= i < |ids| ==> calls[i + 1].IPDeletion? && calls[i + 1].id == ids[i]
  }

  /** Reclaiming asks for a deletion for each listed IP that is attached to no server and whose address
      is not tracked, in the order of the list, and for no other. */
  lemma ReclaimingAsks(calls: seq<IPCall>, tracked: set<string>)
    requires Reclaiming(calls, tracked)
    ensures calls != [] && calls[0].Listed?
    ensures exists ids :: AsksFor(calls, ids) &&
              var list := calls[0].list;
              Filters(IdsOf(list, |list|), ids,
                      set i | 0 <= i < |list| && list[i].1.instance.None? && list[i].1.address !in tracked)
  {
    var list, dones :|
      |dones| == |UnusedIds(list, |list|, tracked)| &&
      calls == [Listed(list)] + Deletions(UnusedIds(list, |list|, tracked), dones);
    UnusedFilter(list, |list|, tracked);
    assert AsksFor(calls, UnusedIds(list, |list|, tracked));
  }

  /** The calls of failed rounds: an allocation that failed, and the reclaiming after it. */
  function Failures(rounds: seq<seq<IPCall>>, n: nat): seq<IPCall>
    requires n <= |rounds|
  {
    if n == 0 then [] else Failures(rounds, n - 1) + ([AllocationFailed] + rounds[n - 1])
  }

  lemma {:induction false} FailuresExtend(rounds: seq<seq<IPCall>>, round: seq<IPCall>, n: nat)
    requires n <= |rounds|
    ensures Failures(rounds + [round], n) == Failures(rounds, n)
  {
    if n > 0 {
      FailuresExtend(rounds, round, n - 1);
    }
  }

  /** The calls that equip the server with an IP just allocated: its address is set, the IP is
      attached, and deleted again when that is refused. */
  predicate Equips(calls: seq<IPCall>, id: int, address: string, server: string, ip: Option<string>) {
    && |calls| >= 2 && calls[0] == AddressSet(server, address)
    && calls[1].Attachment? && calls[1] == Attachment(server, address, calls[1].done)
    && if calls[1].done then calls[2..] == [] && ip == Some(address)
       else ip.None? && |calls| == 3 && calls[2].IPDeletion? && calls[2].id == id
  }

  /** An allocation, and what follows it. */
  predicate Placed(calls: seq<IPCall>, id: int, server: string, ip: Option<string>) {
    && |calls| >= 1 && calls[0].Allocated? && calls[0].id == id
    && Equips(calls[1..], id, calls[0].address, server, ip)
  }

  /** The failed rounds of an attachment, and the calls after them. */
  ghost predicate Rounds(calls: seq<IPCall>, rounds: seq<seq<IPCall>>, last: seq<IPCall>, tracked: set<string>,
                         server: string, ip: Option<string>, added: Option<int>)
  {
    && calls == Failures(rounds, |rounds|) + last && AllReclaiming(rounds, tracked)
    && match added
       case Some(id) => |rounds| <= 1 && Placed(last, id, server, ip)
       case None => |rounds| == 2 && last == [] && ip.None?
  }

  /** The calls of one attachment: two rounds at most, each failed allocation followed by reclaiming,
      and a successful one by equipping the server. */
  ghost predicate AttachCalls(calls: seq<IPCall>, tracked: set<string>, server: string, ip: Option<string>,
                              added: Option<int>)
  {
    exists rounds, last :: Rounds(calls, rounds, last, tracked, server, ip, added)
  }

  /** The outcome of one attachment: on success the one new IP is returned, attached to the
      server; on failure a new IP remains only if the roll-back deletion was not confirmed. */
  ghost predicate AttachOutcome(before: IPs, after: IPs, tracked: set<string>, server: string, ip: Option<string>,
                                added: Option<int>, calls: seq<IPCall>)
  {
    && KeepsProtected(before, after, tracked)
    && AddsAtMost(before, after, added)
    && (added.Some? ==> added.value !in before)
    && (ip.Some? ==> added.Some? && added.value in after)
    && (ip.Some? ==> after[added.value] == CloudIP(ip.value, Some(server)))
    && (ip.None? ==> GivenBack(after, calls, added))
  }

  /** Protected IPs have stayed, others may be gone, and nothing is new. */
  ghost predicate Reclaimed(before: IPs, after: IPs, tracked: set<string>) {
    KeepsProtected(before, after, tracked) && AddsAtMost(before, after, None)
  }

  lemma ReclaimedMore(before: IPs, middle: IPs, after: IPs, tracked: set<string>)
    requires Reclaimed(before, middle, tracked) && Reclaimed(middle, after, tracked)
    ensures Reclaimed(before, after, tracked)
  {
  }

  lemma ReclaimedOne(before: IPs, middle: IPs, tracked: set<string>, id: int)
    requires Reclaimed(before, middle, tracked) && id in before && !Protected(before[id], tracked)
    ensures Reclaimed(before, middle - {id}, tracked)
  {
  }

  /** One IP allocated, attached to the server or rolled back, and nothing else changed. */
  ghost predicate Rolled(before: IPs, after: IPs, server: string, ip: Option<string>, id: int, calls: seq<IPCall>) {
    && id !in before
    && (forall k :: k in before ==> k in after && after[k] == before[k])
    && (forall k :: k in after ==> k in before || k == id)
    && (ip.Some? ==> id in after && after[id] == CloudIP(ip.value, Some(server)))
    && (ip.None? ==> GivenBack(after, calls, Some(id)))
  }

  /** What an allocation followed by an attachment or a roll-back amounts to. */
  lemma RoundOutcome(before: IPs, middle: IPs, after: IPs, tracked: set<string>, server: string, ip: Option<string>,
                     id: int, earlier: seq<IPCall>, calls: seq<IPCall>)
    requires Reclaimed(before, middle, tracked) && id !in before && Rolled(middle, after, server, ip, id, calls)
    ensures AttachOutcome(before, after, tracked, server, ip, Some(id), earlier + calls)
  {
    if ip.None? && id in after {
      assert IPDeletion(id, false) in calls;
    }
  }

  lemma NothingOutcome(before: IPs, after: IPs, tracked: set<string>, server: string, calls: seq<IPCall>)
    requires Reclaimed(before, after, tracked)
    ensures AttachOutcome(before, after, tracked, server, None, None, calls)
  {
  }

  /** Every failed round ended with reclaiming. */
  ghost predicate AllReclaiming(rounds: seq<seq<IPCall>>, tracked: set<string>) {
    forall i :: 0 <= i < |rounds| ==> Reclaiming(rounds[i], tracked)
  }

  lemma ReclaimingMore(rounds: seq<seq<IPCall>>, round: seq<IPCall>, tracked: set<string>)
    requires AllReclaiming(rounds, tracked) && Reclaiming(round, tracked)
    ensures AllReclaiming(rounds + [round], tracked)
  {
    forall i | 0 <= i <= |rounds|
      ensures Reclaiming((rounds + [round])[i], tracked)
    {
      if i < |rounds| {
        assert (rounds + [round])[i] == rounds[i];
      }
    }
  }

  /** The calls of `n` failed rounds, each of which ended with reclaiming. */
  ghost predicate Failed(calls: seq<IPCall>, rounds: seq<seq<IPCall>>, n: nat, tracked: set<string>) {
    && |rounds| == n && AllReclaiming(rounds, tracked) && calls == Failures(rounds, n)
    && if n == 0 then calls == [] else calls != [] && calls[0] == AllocationFailed
  }

  lemma {:induction false} FailedMore(calls: seq<IPCall>, rounds: seq<seq<IPCall>>, round: seq<IPCall>,
                                          tracked: set<string>)
    requires Failed(calls, rounds, |rounds|, tracked) && Reclaiming(round, tracked)
    ensures Failed(calls + ([AllocationFailed] + round), rounds + [round], |rounds| + 1, tracked)
  {
    ReclaimingMore(rounds, round, tracked);
    FailuresExtend(rounds, round, |rounds|);
  }

  // ---------- What an attachment asks for ----------

  predicate NoneAttached(calls: seq<IPCall>) {
    forall i :: 0 <= i < |calls| ==> !calls[i].Attachment? && !calls[i].Allocated?
  }

  lemma {:induction false} FailuresAttachNone(rounds: seq<seq<IPCall>>, n: nat, tracked: set<string>)
    requires n <= |rounds| && AllReclaiming(rounds, tracked)
    ensures NoneAttached(Failures(rounds, n))
  {
    if n > 0 {
      FailuresAttachNone(rounds, n - 1, tracked);
      assert Reclaiming(rounds[n - 1], tracked);
    }
  }

  /** Allocated, its address set, attached and, if that was refused, deleted. */
  predicate PlacedAt(calls: seq<IPCall>, at: nat, id: int, server: string, ip: Option<string>) {
    && at + 2 < |calls| && calls[at].Allocated? && calls[at].id == id
    && var address := calls[at].address;
       && calls[at + 1] == AddressSet(server, address)
       && calls[at + 2].Attachment? && calls[at + 2] == Attachment(server, address, calls[at + 2].done)
       && if calls[at + 2].done then ip == Some(address) && |calls| == at + 3
          else ip.None? && |calls| == at + 4 && calls[at + 3].IPDeletion? && calls[at + 3].id == id
  }

  lemma PlacedShape(calls: seq<IPCall>, id: int, server: string, ip: Option<string>)
    requires Placed(calls, id, server, ip)
    ensures PlacedAt(calls, 0, id, server, ip)
  {
    var tail := calls[1..];
    assert calls[1] == tail[0] && calls[2] == tail[1];
    assert |tail| > 2 ==> calls[3] == tail[2];
    assert tail[2..] == [] ==> |tail| == 2;
  }

  lemma PlacedLater(first: seq<IPCall>, calls: seq<IPCall>, id: int, server: string, ip: Option<string>)
    requires PlacedAt(calls, 0, id, server, ip)
    ensures PlacedAt(first + calls, |first|, id, server, ip)
  {
    var all := first + calls;
    assert forall i :: 0 <= i < |calls| ==> all[|first| + i] == calls[i];
    assert all[|first| + 2] == calls[2];
  }

  /** The IP is allocated once at most, and is attached once, at its own address, to the server;
      the attachment succeeds exactly if this call was answered so, and else the IP is deleted. */
  lemma AttachAsks(calls: seq<IPCall>, tracked: set<string>, server: string, ip: Option<string>, added: Option<int>)
    returns (at: nat)
    requires AttachCalls(calls, tracked, server, ip, added)
    ensures at <= |calls| && NoneAttached(calls[..at])
    ensures if added.Some? then PlacedAt(calls, at, added.value, server, ip) else at == |calls| && ip.None?
  {
    var rounds, last :| Rounds(calls, rounds, last, tracked, server, ip, added);
    FailuresAttachNone(rounds, |rounds|, tracked);
    var before := Failures(rounds, |rounds|);
    at := |before|;
    assert calls[..at] == before;
    if added.Some? {
      PlacedShape(last, added.value, server, ip);
      PlacedLater(before, last, added.value, server, ip);
    }
  }

  lemma {:induction false} AttachCallsFirst(calls: seq<IPCall>, placed: seq<IPCall>, rounds: seq<seq<IPCall>>,
                                                tracked: set<string>, server: string, ip: Option<string>, id: int)
    requires |rounds| <= 1 && Failed(calls, rounds, |rounds|, tracked) && Placed(placed, id, server, ip)
    ensures AttachCalls(calls + placed, tracked, server, ip, Some(id))
  {
    assert Rounds(calls + placed, rounds, placed, tracked, server, ip, Some(id));
  }

  lemma {:induction false} AttachCallsNone(calls: seq<IPCall>, rounds: seq<seq<IPCall>>, tracked: set<string>,
                                               server: string)
    requires |rounds| == 2 && Failed(calls, rounds, 2, tracked)
    ensures AttachCalls(calls, tracked, server, None, None)
  {
    assert Rounds(calls, rounds, [], tracked, server, None, None);
  }

  /** What an old IP may have become, and which new one there may be, once a server was given an
      address. `spare` is the address given back to it, if there is one. */
  ghost predicate Accounts(before: IPs, after: IPs, added: Option<int>, spare: Option<string>, server: string) {
    forall k :: k in after ==>
      if k in before then
        || after[k] == before[k]
        || (spare == Some(before[k].address) && after[k] == CloudIP(before[k].address, Some(server)))
      else added == Some(k)
  }

  /** The listing shows the address, and it could be attached. */
  predicate GivesBack(calls: seq<IPCall>, address: string) {
    |calls| >= 3 && Shows(calls[0], address) && calls[2].Attachment? && calls[2].done
  }

  /** The calls of giving an address back: when a listing shows it, it is attached to the server. When
      it is not shown, or that fails, it is no longer tracked and a new one is attached. A failure to
      attach a new one is reported only if the address was not shown. */
  ghost predicate RetainCalls(calls: seq<IPCall>, tracked: set<string>, server: string, address: string, ip: string,
                              err: bool, added: Option<int>)
  {
    && |calls| >= 1 && calls[0].Listed?
    && if !Shows(calls[0], address) then
         (err ==> ip == "") &&
         AttachCalls(calls[1..], tracked - {address}, server, if err then None else Some(ip), added)
       else
         && !err && |calls| >= 3 && calls[1] == AddressSet(server, address)
         && calls[2].Attachment? && calls[2] == Attachment(server, address, calls[2].done)
         && if calls[2].done then calls[3..] == [] && ip == "" && added.None?
            else
              || AttachCalls(calls[3..], tracked - {address}, server, Some(ip), added)
              || (ip == "" && AttachCalls(calls[3..], tracked - {address}, server, None, added))
  }

  /** Nothing has changed except that an IP at this address may be attached to the server now. */
  predicate MayBeAttached(before: IPs, after: IPs, server: string, address: string) {
    && after.Keys == before.Keys
    && forall k :: k in after ==>
         after[k] == before[k] || (before[k].address == address && after[k] == CloudIP(address, Some(server)))
  }

  lemma AttachedAccounts(before: IPs, after: IPs, tracked: set<string>, server: string, address: string)
    requires MayBeAttached(before, after, server, address)
    ensures KeepsOthers(before, after, tracked, Some(address))
    ensures Accounts(before, after, None, Some(address), server)
  {
    assert forall k :: k in before ==> k in after.Keys;
    assert forall k :: k in after ==> k in before.Keys;
  }

  lemma InsteadAccounts(before: IPs, middle: IPs, after: IPs, tracked: set<string>, server: string, address: string,
                        added: Option<int>)
    requires MayBeAttached(before, middle, server, address)
    requires KeepsOthers(middle, after, tracked, Some(address)) && AddsAtMost(middle, after, added)
    ensures KeepsOthers(before, after, tracked, Some(address))
    ensures Accounts(before, after, added, Some(address), server)
  {
    AttachedAccounts(before, middle, tracked, server, address);
    assert forall k :: k in before ==> k in middle.Keys;
  }

  lemma TwoMore<T>(log: seq<T>, calls: seq<T>, x: T, y: T)
    ensures log + calls + [x] + [y] == log + (calls + [x, y])
  {
  }

  lemma GivenUp(ips: IPs, first: seq<IPCall>, more: seq<IPCall>, added: Option<int>, held: Option<int>)
    requires held.None? ==> GivenBack(ips, more, added)
    ensures held.None? ==> GivenBack(ips, first + more, added)
  {
  }

  lemma RetainedNew(calls: seq<IPCall>, more: seq<IPCall>, tracked: set<string>, server: string, address: string,
                    ip: string, err: bool, added: Option<int>)
    requires |calls| == 1 && calls[0].Listed? && !Shows(calls[0], address) && (err ==> ip == "")
    requires AttachCalls(more, tracked - {address}, server, if err then None else Some(ip), added)
    ensures RetainCalls(calls + more, tracked, server, address, ip, err, added) && !GivesBack(calls + more, address)
    ensures (calls + more)[0] == calls[0]
  {
    assert (calls + more)[1..] == more;
  }

  lemma RetainedInstead(calls: seq<IPCall>, more: seq<IPCall>, tracked: set<string>, server: string, address: string,
                        ip: string, failed: bool, added: Option<int>)
    requires |calls| == 1 && calls[0].Listed? && Shows(calls[0], address) && (failed ==> ip == "")
    requires AttachCalls(more, tracked - {address}, server, if failed then None else Some(ip), added)
    ensures var all := calls + [AddressSet(server, address), Attachment(server, address, false)] + more;
            && RetainCalls(all, tracked, server, address, ip, false, added) && !GivesBack(all, address)
            && all[0] == calls[0]
  {
    var first := calls + [AddressSet(server, address), Attachment(server, address, false)];
    assert (first + more)[3..] == more;
  }

  lemma RetainedOld(calls: seq<IPCall>, tracked: set<string>, server: string, address: string)
    requires |calls| == 1 && calls[0].Listed? && Shows(calls[0], address)
    ensures var all := calls + [AddressSet(server, address), Attachment(server, address, true)];
            && RetainCalls(all, tracked, server, address, "", false, None) && GivesBack(all, address)
            && all[0] == calls[0]
  {
  }

  /** The calls of giving an address up: its deletion is asked for when a listing shows it, and another
      IP besides. */
  predicate DettachCalls(calls: seq<IPCall>, address: string, ok: bool) {
    && |calls| >= 1 && calls[0].Listed?
    && var list := calls[0].list;
       if |list| > 1 && Shows(calls[0], address) then
         |calls| == 2 &&
         exists i :: 0 <= i < |list| && list[i].1.address == address && calls[1] == IPDeletion(list[i].0, ok)
       else calls[1..] == [] && !ok
  }

  class FIPWithNova {
    const nova: Compute
    const remediation: RemediationList

    constructor (nova: Compute, remediation: RemediationList)
      ensures this.nova == nova && this.remediation == remediation
    {
      this.nova, this.remediation := nova, remediation;
    }

    /** Deletes the listed IPs that are neither attached nor tracked; failures are ignored. */
    method ReleaseUnused() returns (ghost calls: seq<IPCall>)
      requires nova.Valid()
      modifies nova`ips, nova`ipLog
      ensures nova.Valid() && Reclaimed(old(nova.ips), nova.ips, remediation.tracked)
      ensures nova.ipLog == old(nova.ipLog) + calls && Reclaiming(calls, remediation.tracked)
    {
      ghost var before := nova.ips;
      var ok, list := nova.ListFloatingIPs();
      if !ok {
        list := [];
      }
      ghost var dones: seq<bool> := [];
      calls := [Listed(list)];
      for i := 0 to |list|
        invariant nova.Valid() && Reclaimed(before, nova.ips, remediation.tracked)
        invariant nova.ipLog == old(nova.ipLog) + calls
        invariant |dones| == |UnusedIds(list, i, remediation.tracked)|
        invariant calls == [Listed(list)] + Deletions(UnusedIds(list, i, remediation.tracked), dones)
      {
        var (id, ip) := list[i];
        var tracked := remediation.Find(ip.address);
        if !tracked && ip.instance.None? {
          ReclaimedOne(before, nova.ips, remediation.tracked, id);
          var done := nova.DeleteFloatingIP(id);
          OneMoreDeletion(UnusedIds(list, i, remediation.tracked), dones, id, done);
          calls := calls + [IPDeletion(id, done)];
          dones := dones + [done];
        }
      }
    }

    /** Attaches a just allocated IP, or deletes it again. */
    method AttachOrDelete(server: string, id: int, address: string, ghost before: IPs)
      returns (ip: Option<string>, ghost calls: seq<IPCall>)
      requires nova.Valid() && id !in before && nova.ips == before[id := CloudIP(address, None)]
      modifies nova`ips, nova`ipLog
      ensures nova.Valid() && Rolled(before, nova.ips, server, ip, id, calls)
      ensures nova.ipLog == old(nova.ipLog) + calls && Equips(calls, id, address, server, ip)
    {
      forall k | k in before
        ensures k in nova.ips && nova.ips[k] == before[k] && before[k].address != address
      {
        assert nova.ips[id].address == address;
      }
      var _ := nova.SetIPV4Address(server, address);
      var ok := nova.AddServerFloatingIP(server, address);
      calls := [AddressSet(server, address), Attachment(server, address, ok)];
      if !ok {
        var done := nova.DeleteFloatingIP(id);
        calls := calls + [IPDeletion(id, done)];
        assert calls[2] == IPDeletion(id, done);
        return None, calls;
      }
      return Some(address), calls;
    }

    /** One round of an attachment: an allocation, and what follows its success or failure. */
    method AttachRound(server: string)
      returns (success: bool, ip: Option<string>, ghost id: int, ghost calls: seq<IPCall>)
      requires nova.Valid()
      modifies nova`ips, nova`nextIP, nova`ipLog
      ensures nova.Valid() && old(nova.nextIP) <= nova.nextIP
      ensures success ==>
                && old(nova.nextIP) <= id && Rolled(old(nova.ips), nova.ips, server, ip, id, calls)
                && nova.ipLog == old(nova.ipLog) + calls && Placed(calls, id, server, ip)
      ensures !success ==>
                && nova.nextIP == old(nova.nextIP) && Reclaimed(old(nova.ips), nova.ips, remediation.tracked)
                && nova.ipLog == old(nova.ipLog) + ([AllocationFailed] + calls)
                && Reclaiming(calls, remediation.tracked)
    {
      id := 0;
      var answer := nova.AllocateFloatingIP();
      if answer.None? {
        calls := ReleaseUnused();
        return false, None, id, calls;
      }
      var (n, address) := answer.value;
      id := n;
      ip, calls := AttachOrDelete(server, n, address, old(nova.ips));
      calls := [Allocated(n, address)] + calls;
      success := true;
    }

    /** Attaches a new floating IP to the server; `None` reports an error. After a failed allocation
        unused IPs are reclaimed, and the allocation is tried once more. */
    method Attach(server: string) returns (ip: Option<string>, ghost added: Option<int>, ghost calls: seq<IPCall>)
      requires nova.Valid()
      modifies nova`ips, nova`nextIP, nova`ipLog
      ensures nova.Valid()
      ensures old(nova.nextIP) <= nova.nextIP && (added.Some? ==> old(nova.nextIP) <= added.value)
      ensures AttachOutcome(old(nova.ips), nova.ips, remediation.tracked, server, ip, added, calls)
      ensures nova.ipLog == old(nova.ipLog) + calls && AttachCalls(calls, remediation.tracked, server, ip, added)
      ensures calls != []
      ensures calls[0].Allocated? ==> forall k :: k in old(nova.ips) ==> k in nova.ips
    {
      ghost var log, rounds: seq<seq<IPCall>> := nova.ipLog, [];
      calls := [];
      for i := 0 to 2
        invariant nova.Valid() && Reclaimed(old(nova.ips), nova.ips, remediation.tracked)
        invariant nova.nextIP == old(nova.nextIP) && nova.ipLog == log + calls
        invariant Failed(calls, rounds, i, remediation.tracked)
        invariant i == 0 ==> nova.ips == old(nova.ips)
      {
        ghost var before := nova.ips;
        ghost var id, round;
        var success;
        success, ip, id, round := AttachRound(server);
        if success {
          added := Some(id);
          RoundOutcome(old(nova.ips), before, nova.ips, remediation.tracked, server, ip, id, calls, round);
          AttachCallsFirst(calls, round, rounds, remediation.tracked, server, ip, id);
          Regrouped(log, calls, round);
          calls := calls + round;
          return;
        }
        ReclaimedMore(old(nova.ips), before, nova.ips, remediation.tracked);
        Regrouped(log, calls, [AllocationFailed] + round);
        FailedMore(calls, rounds, round, remediation.tracked);
        calls, rounds := calls + ([AllocationFailed] + round), rounds + [round];
      }
      ip, added := None, None;
      AttachCallsNone(calls, rounds, remediation.tracked, server);
      NothingOutcome(old(nova.ips), nova.ips, remediation.tracked, server, calls);
    }

    /** Deletes the IP with this address, but only when more than one IP is listed. */
    method Dettach(address: string) returns (ok: bool, ghost calls: seq<IPCall>)
      requires nova.Valid()
      modifies nova`ips, nova`ipLog
      ensures nova.Valid()
      ensures nova.ipLog == old(nova.ipLog) + calls && DettachCalls(calls, address, ok)
      ensures forall k :: k in old(nova.ips) && old(nova.ips)[k].address != address ==>
                k in nova.ips && nova.ips[k] == old(nova.ips)[k]
      ensures AddsAtMost(old(nova.ips), nova.ips, None)
      ensures ok ==> |nova.ips| < |old(nova.ips)|
      ensures |old(nova.ips)| <= 1 ==> !ok && nova.ips == old(nova.ips)
    {
      var listed, list := nova.ListFloatingIPs();
      calls := [Listed(if listed then list else [])];
      if listed && |list| > 1 {
        for i := 0 to |list|
          invariant nova.ips == old(nova.ips) && nova.ipLog == old(nova.ipLog) + calls
          invariant forall k :: 0 <= k < i ==> list[k].1.address != address
        {
          if list[i].1.address == address {
            ok := nova.DeleteFloatingIP(list[i].0);
            calls := calls + [IPDeletion(list[i].0, ok)];
            assert calls[1..] == [IPDeletion(list[i].0, ok)];
            if ok {
              RemovalShrinks(old(nova.ips), list[i].0);
            }
            return;
          }
        }
      }
      ok := false;
    }

    /** Gives a remediated server its previous address back, or a new one when that is not possible.
        `held` is the IP that the server was given, if any. When it was given none, an error is
        reported exactly if the listing made first did not show the previous address. */
    method Retain(server: string, address: string)
      returns (ip: string, err: bool, ghost held: Option<int>, ghost added: Option<int>, ghost calls: seq<IPCall>)
      requires nova.Valid()
      modifies nova`ips, nova`nextIP, nova`ipLog, remediation
      ensures nova.Valid() && old(nova.nextIP) <= nova.nextIP
      ensures KeepsOthers(old(nova.ips), nova.ips, old(remediation.tracked), Some(address))
      ensures Accounts(old(nova.ips), nova.ips, added, Some(address), server)
      ensures added.Some? ==> old(nova.nextIP) <= added.value
      ensures nova.ipLog == old(nova.ipLog) + calls
      ensures RetainCalls(calls, old(remediation.tracked), server, address, ip, err, added)
      ensures remediation.tracked ==
              if GivesBack(calls, address) then old(remediation.tracked) else old(remediation.tracked) - {address}
      ensures err <==> held.None? && !Shows(calls[0], address)
      ensures held.Some? ==>
                Holds(nova.ips, held.value, server) &&
                if added.Some? then nova.ips[held.value].address == ip
                else ip == "" && nova.ips[held.value].address == address
      ensures held.None? ==> ip == "" && GivenBack(nova.ips, calls, added)
    {
      ip, err, held, added := "", false, None, None;
      ghost var at, more;
      ghost var tracked, before, log := remediation.tracked, nova.ips, nova.ipLog;
      var available;
      available, at, calls := FindListed(address);
      if available {
        var _ := nova.SetIPV4Address(server, address);
        var ok := nova.AddServerFloatingIP(server, address);
        ghost var middle := nova.ips;
        assert MayBeAttached(before, middle, server, address);
        ghost var listing := calls;
        calls := listing + [AddressSet(server, address), Attachment(server, address, ok)];
        TwoMore(log, listing, AddressSet(server, address), Attachment(server, address, ok));
        if ok {
          held := Some(at);
          AttachedAccounts(before, middle, tracked, server, address);
          RetainedOld(listing, tracked, server, address);
        } else {
          var failed;
          ip, failed, held, added, more := AttachInstead(server, address);
          InsteadAccounts(before, middle, nova.ips, tracked, server, address, added);
          RetainedInstead(listing, more, tracked, server, address, ip, failed, added);
          GivenUp(nova.ips, calls, more, added, held);
          Regrouped(log, calls, more);
          calls := calls + more;
        }
      } else {
        ip, err, held, added, more := AttachInstead(server, address);
        InsteadAccounts(before, before, nova.ips, tracked, server, address, added);
        RetainedNew(calls, more, tracked, server, address, ip, err, added);
        GivenUp(nova.ips, calls, more, added, held);
        Regrouped(log, calls, more);
        calls := calls + more;
      }
    }

    /** Looks for the address in a listing. */
    method FindListed(address: string) returns (available: bool, ghost at: int, ghost calls: seq<IPCall>)
      modifies nova`ipLog
      ensures nova.ipLog == old(nova.ipLog) + calls
      ensures |calls| == 1 && calls[0].Listed? && (available <==> Shows(calls[0], address))
      ensures available ==> at in nova.ips && nova.ips[at].address == address
    {
      available, at := false, -1;
      var found, list := nova.ListFloatingIPs();
      calls := [Listed(if found then list else [])];
      if found {
        for i := 0 to |list|
          invariant forall k :: 0 <= k < i ==> list[k].1.address != address
        {
          if list[i].1.address == address {
            return true, list[i].0, calls;
          }
        }
      }
    }

    /** No longer tracks the old address, and attaches a new one. */
    method AttachInstead(server: string, address: string)
      returns (ip: string, failed: bool, ghost held: Option<int>, ghost added: Option<int>, ghost calls: seq<IPCall>)
      requires nova.Valid()
      modifies nova`ips, nova`nextIP, nova`ipLog, remediation
      ensures nova.Valid() && old(nova.nextIP) <= nova.nextIP
      ensures KeepsOthers(old(nova.ips), nova.ips, old(remediation.tracked), Some(address))
      ensures AddsAtMost(old(nova.ips), nova.ips, added)
      ensures added.Some? ==> old(nova.nextIP) <= added.value
      ensures remediation.tracked == old(remediation.tracked) - {address}
      ensures nova.ipLog == old(nova.ipLog) + calls
      ensures AttachCalls(calls, remediation.tracked, server, if failed then None else Some(ip), added)
      ensures failed <==> held.None?
      ensures held.Some? ==> held == added && Holds(nova.ips, held.value, server) && nova.ips[held.value].address == ip
      ensures held.None? ==> ip == "" && GivenBack(nova.ips, calls, added)
    {
      remediation.Delete(address);
      var got;
      got, added, calls := Attach(server);
      ip := if got.Some? then got.value else "";
      held := if got.Some? then added else None;
      failed := got.None?;
    }
  }

  lemma RemovalShrinks(ips: IPs, id: int)
    requires id in ips
    ensures |ips - {id}| < |ips|
  {
    assert (ips - {id}).Keys == ips.Keys - {id};
    assert |ips.Keys - {id}| < |ips.Keys|;
  }
}
