/** Attachments that interleave make the same calls as uninterrupted ones: whatever the others do in
    between, the calls made for one server are those of `FIPWithNova.Attach`. */
module FloatingCalls {
  import opened Sequences
  import opened Wrappers
  import opened Cloud
  import opened FloatingIPs
  import R = FloatingRaces

  /** The calls that a step makes. Taking up a listed IP that is attached or tracked makes none. */
  function CallsOf(s: R.State, a: R.Action): seq<IPCall>
    requires R.Enabled(s, a)
  {
    var p := s.workers[a.w];
    match a
    case Allocates(_, address) => [Allocated(s.next, address)]
    case Refused(_) => [AllocationFailed]
    case Lists(_, list) => [Listed(list)]
    case Reclaims(_, done) => if Protected(p.todo[0].1, s.tracked) then [] else [IPDeletion(p.todo[0].0, done)]
    case Retries(_) => []
    case Attaches(w, ok, _) => [AddressSet(w, p.address), Attachment(w, p.address, ok)]
    case Undoes(_, done) => [IPDeletion(p.id, done)]
  }

  /** The calls made for one server in a run. */
  ghost function CallsFor(s: R.State, actions: seq<R.Action>, last: R.State, w: string): seq<IPCall>
    requires R.Runs(s, actions, last)
    decreases |actions|
  {
    if actions == [] then []
    else
      (if actions[0].w == w then CallsOf(s, actions[0]) else []) +
      CallsFor(R.Apply(s, actions[0]), actions[1..], last, w)
  }

  /** The reclaiming of a round, as far as the first `n` listed IPs. */
  ghost predicate Reclaims(calls: seq<IPCall>, list: seq<(int, CloudIP)>, n: nat, tracked: set<string>)
    requires n <= |list|
  {
    exists dones |
        |dones| == |UnusedIds(list, n, tracked)| ::
      calls == [Listed(list)] + Deletions(UnusedIds(list, n, tracked), dones)
  }

  ghost predicate ReclaimsTo(round: seq<IPCall>, todo: seq<(int, CloudIP)>, tracked: set<string>) {
    exists list, n: nat | n <= |list| :: todo == list[n..] && Reclaims(round, list, n, tracked)
  }

  ghost predicate Explains(calls: seq<IPCall>, rounds: seq<seq<IPCall>>, failed: seq<IPCall>, rest: seq<IPCall>,
                           p: R.Phase, tracked: set<string>, w: string)
  {
    && calls == failed + rest && Failed(failed, rounds, |rounds|, tracked)
    && match p
       case Trying(tries) => |rounds| == tries && tries <= 1 && rest == []
       case Listing(tries) => |rounds| == tries && tries <= 1 && rest == [AllocationFailed]
       case Reclaiming(tries, todo) =>
         && |rounds| == tries && tries <= 1 && |rest| >= 1 && rest[0] == AllocationFailed
         && ReclaimsTo(rest[1..], todo, tracked)
       case Got(id, address) => |rounds| <= 1 && rest == [Allocated(id, address)]
       case Undoing(id) =>
         && |rounds| <= 1 && |rest| == 3 && rest[0].Allocated? && rest[0].id == id
         && rest[1] == AddressSet(w, rest[0].address) && rest[2] == Attachment(w, rest[0].address, false)
       case Returned(got) => true
  }

  /** The calls made so far fit where the attachment stands. */
  ghost predicate Fits(calls: seq<IPCall>, p: R.Phase, tracked: set<string>, w: string) {
    if p.Returned? then
      exists ip, added :: AttachCalls(calls, tracked, w, ip, added) && p.ip == if ip.Some? then added else None
    else exists rounds, failed, rest :: Explains(calls, rounds, failed, rest, p, tracked, w)
  }

  lemma ReclaimOne(round: seq<IPCall>, list: seq<(int, CloudIP)>, n: nat, tracked: set<string>, done: bool)
    requires n < |list| && Reclaims(round, list, n, tracked)
    ensures Reclaims(round + if Protected(list[n].1, tracked) then [] else [IPDeletion(list[n].0, done)],
                     list, n + 1, tracked)
  {
    var dones: seq<bool> :|
      |dones| == |UnusedIds(list, n, tracked)| &&
      round == [Listed(list)] + Deletions(UnusedIds(list, n, tracked), dones);
    if Protected(list[n].1, tracked) {
      assert UnusedIds(list, n + 1, tracked) == UnusedIds(list, n, tracked);
      assert round + [] == round;
    } else {
      OneMoreDeletion(UnusedIds(list, n, tracked), dones, list[n].0, done);
      var dones' := dones + [done];
      assert round + [IPDeletion(list[n].0, done)] ==
             [Listed(list)] + Deletions(UnusedIds(list, n + 1, tracked), dones');
    }
  }

  lemma ReclaimsStep(round: seq<IPCall>, todo: seq<(int, CloudIP)>, tracked: set<string>, done: bool)
    requires todo != [] && ReclaimsTo(round, todo, tracked)
    ensures ReclaimsTo(round + if Protected(todo[0].1, tracked) then [] else [IPDeletion(todo[0].0, done)],
                       todo[1..], tracked)
  {
    var list, n: nat :| n <= |list| && todo == list[n..] && Reclaims(round, list, n, tracked);
    assert todo[0] == list[n] && todo[1..] == list[n + 1..];
    ReclaimOne(round, list, n, tracked, done);
  }

  lemma ReclaimsStart(list: seq<(int, CloudIP)>, tracked: set<string>)
    ensures ReclaimsTo([Listed(list)], list, tracked)
  {
    var dones: seq<bool> := [];
    assert [Listed(list)] == [Listed(list)] + Deletions(UnusedIds(list, 0, tracked), dones);
    assert Reclaims([Listed(list)], list, 0, tracked) && list == list[0..];
  }

  lemma ReclaimsEnd(round: seq<IPCall>, tracked: set<string>)
    requires ReclaimsTo(round, [], tracked)
    ensures Reclaiming(round, tracked)
  {
    var list, n: nat :| n <= |list| && [] == list[n..] && Reclaims(round, list, n, tracked);
    assert n == |list|;
  }

  // ---------- Each step ----------

  lemma StepAllocating(s: R.State, a: R.Action, calls: seq<IPCall>)
    requires R.Enabled(s, a) && (a.Allocates? || a.Refused?) && Fits(calls, s.workers[a.w], s.tracked, a.w)
    ensures Fits(calls + CallsOf(s, a), R.Apply(s, a).workers[a.w], s.tracked, a.w)
  {
    var p, p' := s.workers[a.w], R.Apply(s, a).workers[a.w];
    var rounds, failed, rest :| Explains(calls, rounds, failed, rest, p, s.tracked, a.w);
    assert failed + rest == failed;
    assert Explains(calls + CallsOf(s, a), rounds, failed, CallsOf(s, a), p', s.tracked, a.w);
  }

  lemma StepListing(s: R.State, a: R.Action, calls: seq<IPCall>)
    requires R.Enabled(s, a) && a.Lists? && Fits(calls, s.workers[a.w], s.tracked, a.w)
    ensures Fits(calls + CallsOf(s, a), R.Apply(s, a).workers[a.w], s.tracked, a.w)
  {
    var p, p' := s.workers[a.w], R.Apply(s, a).workers[a.w];
    var rounds, failed, rest :| Explains(calls, rounds, failed, rest, p, s.tracked, a.w);
    ReclaimsStart(a.list, s.tracked);
    var rest' := [AllocationFailed, Listed(a.list)];
    assert rest'[1..] == [Listed(a.list)];
    assert Explains(calls + CallsOf(s, a), rounds, failed, rest', p', s.tracked, a.w);
  }

  lemma ReclaimingMore(calls: seq<IPCall>, rounds: seq<seq<IPCall>>, failed: seq<IPCall>, rest: seq<IPCall>,
                       tries: nat, todo: seq<(int, CloudIP)>, more: seq<IPCall>, done: bool, tracked: set<string>,
                       w: string)
    requires Explains(calls, rounds, failed, rest, R.Phase.Reclaiming(tries, todo), tracked, w) && todo != []
    requires more == if Protected(todo[0].1, tracked) then [] else [IPDeletion(todo[0].0, done)]
    ensures Explains(calls + more, rounds, failed, rest + more, R.Phase.Reclaiming(tries, todo[1..]), tracked, w)
  {
    ReclaimsStep(rest[1..], todo, tracked, done);
    assert (rest + more)[1..] == rest[1..] + more;
    Regrouped(failed, rest, more);
  }

  lemma StepReclaiming(s: R.State, a: R.Action, calls: seq<IPCall>)
    requires R.Enabled(s, a) && a.Reclaims? && Fits(calls, s.workers[a.w], s.tracked, a.w)
    ensures Fits(calls + CallsOf(s, a), R.Apply(s, a).workers[a.w], s.tracked, a.w)
  {
    var p := s.workers[a.w];
    var rounds, failed, rest :| Explains(calls, rounds, failed, rest, p, s.tracked, a.w);
    ReclaimingMore(calls, rounds, failed, rest, p.tries, p.todo, CallsOf(s, a), a.done, s.tracked, a.w);
  }

  lemma RoundOver(calls: seq<IPCall>, rounds: seq<seq<IPCall>>, failed: seq<IPCall>, rest: seq<IPCall>, tries: nat,
                  tracked: set<string>, w: string)
    requires Explains(calls, rounds, failed, rest, R.Phase.Reclaiming(tries, []), tracked, w)
    ensures Failed(calls, rounds + [rest[1..]], tries + 1, tracked)
  {
    ReclaimsEnd(rest[1..], tracked);
    FailedMore(failed, rounds, rest[1..], tracked);
    assert [AllocationFailed] + rest[1..] == rest;
  }

  lemma StepRetrying(s: R.State, a: R.Action, calls: seq<IPCall>)
    requires R.Enabled(s, a) && a.Retries? && Fits(calls, s.workers[a.w], s.tracked, a.w)
    ensures Fits(calls, R.Apply(s, a).workers[a.w], s.tracked, a.w)
  {
    var p, p' := s.workers[a.w], R.Apply(s, a).workers[a.w];
    var rounds, failed, rest :| Explains(calls, rounds, failed, rest, p, s.tracked, a.w);
    RoundOver(calls, rounds, failed, rest, p.tries, s.tracked, a.w);
    var rounds' := rounds + [rest[1..]];
    if p.tries < 1 {
      assert calls + [] == calls;
      assert Explains(calls, rounds', calls, [], p', s.tracked, a.w);
    } else {
      AttachCallsNone(calls, rounds', s.tracked, a.w);
    }
  }

  lemma StepAttaching(s: R.State, a: R.Action, calls: seq<IPCall>)
    requires R.Enabled(s, a) && a.Attaches? && Fits(calls, s.workers[a.w], s.tracked, a.w)
    ensures Fits(calls + CallsOf(s, a), R.Apply(s, a).workers[a.w], s.tracked, a.w)
  {
    var p, p' := s.workers[a.w], R.Apply(s, a).workers[a.w];
    var rounds, failed, rest :| Explains(calls, rounds, failed, rest, p, s.tracked, a.w);
    Regrouped(failed, rest, CallsOf(s, a));
    var placed := rest + CallsOf(s, a);
    assert placed == [Allocated(p.id, p.address), AddressSet(a.w, p.address), Attachment(a.w, p.address, a.ok)];
    if a.ok {
      assert placed[1..] == CallsOf(s, a);
      AttachCallsFirst(failed, placed, rounds, s.tracked, a.w, Some(p.address), p.id);
    } else {
      assert Explains(calls + CallsOf(s, a), rounds, failed, placed, p', s.tracked, a.w);
    }
  }

  lemma StepUndoing(s: R.State, a: R.Action, calls: seq<IPCall>)
    requires R.Enabled(s, a) && a.Undoes? && Fits(calls, s.workers[a.w], s.tracked, a.w)
    ensures Fits(calls + CallsOf(s, a), R.Apply(s, a).workers[a.w], s.tracked, a.w)
  {
    var p := s.workers[a.w];
    var rounds, failed, rest :| Explains(calls, rounds, failed, rest, p, s.tracked, a.w);
    Regrouped(failed, rest, CallsOf(s, a));
    var placed := rest + CallsOf(s, a);
    assert placed[1..] == [rest[1], rest[2], IPDeletion(p.id, a.done)];
    assert Placed(placed, p.id, a.w, None);
    AttachCallsFirst(failed, placed, rounds, s.tracked, a.w, None, p.id);
  }

  lemma StepFits(s: R.State, a: R.Action, calls: seq<IPCall>)
    requires R.Enabled(s, a) && Fits(calls, s.workers[a.w], s.tracked, a.w)
    ensures Fits(calls + CallsOf(s, a), R.Apply(s, a).workers[a.w], s.tracked, a.w)
  {
    match a {
      case Allocates(_, _) => StepAllocating(s, a, calls);
      case Refused(_) => StepAllocating(s, a, calls);
      case Lists(_, _) => StepListing(s, a, calls);
      case Reclaims(_, _) => StepReclaiming(s, a, calls);
      case Retries(_) =>
        StepRetrying(s, a, calls);
        assert calls + [] == calls;
      case Attaches(_, _, _) => StepAttaching(s, a, calls);
      case Undoes(_, _) => StepUndoing(s, a, calls);
    }
  }

  lemma OthersStay(s: R.State, a: R.Action, w: string)
    requires R.Enabled(s, a) && w in s.workers
    ensures var s' := R.Apply(s, a);
            s'.tracked == s.tracked && w in s'.workers && (w != a.w ==> s'.workers[w] == s.workers[w])
  {
  }

  lemma {:induction false} RunFits(s: R.State, actions: seq<R.Action>, last: R.State, w: string, calls: seq<IPCall>)
    requires R.Runs(s, actions, last) && w in s.workers && Fits(calls, s.workers[w], s.tracked, w)
    ensures w in last.workers && Fits(calls + CallsFor(s, actions, last, w), last.workers[w], s.tracked, w)
    decreases |actions|
  {
    if actions == [] {
      assert calls + [] == calls;
    } else {
      var a := actions[0];
      var s' := R.Apply(s, a);
      OthersStay(s, a, w);
      var rest := CallsFor(s', actions[1..], last, w);
      if a.w == w {
        StepFits(s, a, calls);
        RunFits(s', actions[1..], last, w, calls + CallsOf(s, a));
        Regrouped(calls, CallsOf(s, a), rest);
      } else {
        RunFits(s', actions[1..], last, w, calls);
        assert [] + rest == rest;
      }
    }
  }

  /** In every interleaving, the calls made for a server whose attachment has returned are those of
      one uninterrupted attachment with the same outcome. */
  lemma {:induction false} InterleavedCallsAreAttach(start: R.State, actions: seq<R.Action>, last: R.State, w: string)
    requires R.Starts(start) && R.Runs(start, actions, last) && w in start.workers
    requires w in last.workers && last.workers[w].Returned?
    ensures exists ip, added ::
              && AttachCalls(CallsFor(start, actions, last, w), start.tracked, w, ip, added)
              && last.workers[w].ip == if ip.Some? then added else None
  {
    var rounds: seq<seq<IPCall>> := [];
    assert Failed([], rounds, 0, start.tracked);
    assert Explains([], rounds, [], [], start.workers[w], start.tracked, w);
    RunFits(start, actions, last, w, []);
    assert [] + CallsFor(start, actions, last, w) == CallsFor(start, actions, last, w);
  }
}
