/** The scheduler's five attempts at creating a server, with their clean-up
    (scheduler/scheduler.go, `createServer`). */
module Scheduler {
  import opened Sequences
  import opened Wrappers
  import opened Cloud
  import opened FloatingIPs
  import opened Provisioning

  /** What is stored of a request. */
  datatype Record = Record(id: string, serverId: string, ipAddress: string, status: Status)

  class Connection {
    var writes: seq<Record>

    constructor ()
      ensures writes == []
    {
      writes := [];
    }

    method Update(ar: AssetRequest)
      modifies this
      ensures writes == old(writes) + [Record(ar.id, ar.serverId, ar.ipAddress, ar.status)]
    {
      writes := writes + [Record(ar.id, ar.serverId, ar.ipAddress, ar.status)];
    }
  }

  /** What attempts know of their request: the address to give back, if any, and the data for the
      storm tracker. */
  datatype Job = Job(spare: Option<string>, stormData: string)

  /** One provisioning attempt: the server's id ("" when none was made), the address reported, the
      error, the floating IP the server was given with its address, and the IP allocated for it; the
      addresses tracked when it began, the calls made for it, and those of its clean-up. */
  datatype Attempt = Attempt(id: string, fip: string, err: Option<ErrorCode>, held: Option<(int, string)>,
                             added: Option<int>, tracked: set<string>, work: Trace, cleanup: Trace)
  {
    /** A server was made. */
    predicate Made() {
      err.Some? ==> !err.value.ServerCreate?
    }

    /** The attempt failed in a way that makes the scheduler delete its server. */
    predicate Cleans() {
      && err.Some? && id != ""
      && (err.value.ServerCreate? || err.value.SettingHostName? || err.value.AssociateIP? || err.value.StormRegister?)
    }

    function Calls(): Trace {
      Plus(work, cleanup)
    }
  }

  /** The calls of the first `n` attempts. */
  function Log(attempts: seq<Attempt>, n: nat): Trace
    requires n <= |attempts|
  {
    if n == 0 then SILENCE else Plus(Log(attempts, n - 1), attempts[n - 1].Calls())
  }

  /** The outcomes provisioning can have: four kinds of failure, and no server without an id of its
      own. */
  predicate Possible(a: Attempt) {
    && (a.err.Some? ==> !a.err.value.SettingHostName? && !a.err.value.FindFlavor? && !a.err.value.FindImage?)
    && (a.err.None? ==> a.fip != "")
    && (!a.Made() ==> a.id == "")
    && a.work.server == (if a.Made() then [Created(a.id)] else [CreationFailed])
  }

  /** The outcome follows from the calls and their answers. */
  ghost predicate Explained(a: Attempt, job: Job) {
    ProvisionCalls(a.work, a.tracked, job.spare, job.stormData, a.id, a.fip, a.err, a.added)
  }

  /** The clean-up, if there is one, gives up the attempt's server. */
  predicate Cleaned(a: Attempt, job: Job) {
    if a.Cleans() then exists ok :: DeprovisionCalls(a.cleanup, job.spare, a.id, ok) else a.cleanup == SILENCE
  }

  ghost predicate AllExplained(attempts: seq<Attempt>, job: Job) {
    forall i {:trigger Explained(attempts[i], job)} ::
      0 <= i < |attempts| ==> Explained(attempts[i], job) && Cleaned(attempts[i], job)
  }

  /** The server calls of a clean-up. */
  predicate Tidied(a: Attempt) {
    if a.Cleans() then exists ok :: a.cleanup.server == [DeleteRequested(a.id, ok)] else a.cleanup.server == []
  }

  predicate Plausible(attempts: seq<Attempt>) {
    && (forall i {:trigger Possible(attempts[i])} ::
          0 <= i < |attempts| ==> Possible(attempts[i]) && Tidied(attempts[i]))
    && (forall i, j {:trigger attempts[i].Made(), attempts[j].Made()} ::
          0 <= i < j < |attempts| && attempts[i].Made() && attempts[j].Made() ==> attempts[i].id != attempts[j].id)
  }

  lemma {:induction false} LogExtends(attempts: seq<Attempt>, a: Attempt, n: nat)
    requires n <= |attempts|
    ensures Log(attempts + [a], n) == Log(attempts, n)
  {
    if n > 0 {
      LogExtends(attempts, a, n - 1);
    }
  }

  lemma {:induction false} LogMore(start: Trace, attempts: seq<Attempt>, a: Attempt)
    ensures Plus(start, Log(attempts + [a], |attempts| + 1)) == Plus(Plus(start, Log(attempts, |attempts|)), a.Calls())
  {
    LogExtends(attempts, a, |attempts|);
    PlusRegrouped(start, Log(attempts, |attempts|), a.Calls());
  }

  lemma PlusRegrouped(a: Trace, b: Trace, c: Trace)
    ensures Plus(Plus(a, b), c) == Plus(a, Plus(b, c))
  {
    Regrouped(a.server, b.server, c.server);
    Regrouped(a.ip, b.ip, c.ip);
    Regrouped(a.info, b.info, c.info);
    Regrouped(a.tracker, b.tracker, c.tracker);
  }

  ghost predicate Asked(attempts: seq<Attempt>, n: nat, c: ServerCall)
    requires n <= |attempts|
  {
    exists i :: 0 <= i < n && c in attempts[i].Calls().server
  }

  /** The server calls are exactly those of the attempts. */
  lemma {:induction false} LogHolds(attempts: seq<Attempt>, n: nat, c: ServerCall)
    requires n <= |attempts|
    ensures c in Log(attempts, n).server <==> Asked(attempts, n, c)
  {
    if n > 0 {
      LogHolds(attempts, n - 1, c);
      assert Asked(attempts, n, c) <==> Asked(attempts, n - 1, c) || c in attempts[n - 1].Calls().server;
    }
  }

  /** The server's deletion is asked for, whether or not it is confirmed. */
  predicate AsksDeletion(calls: seq<ServerCall>, id: string) {
    exists ok :: DeleteRequested(id, ok) in calls
  }

  /** The server calls of one attempt. */
  lemma ServerCalls(a: Attempt, c: ServerCall)
    requires Possible(a) && Tidied(a)
    ensures c.Created? ==> (c in a.Calls().server <==> a.Made() && c.id == a.id)
    ensures c.DeleteRequested? && c in a.Calls().server ==> a.Made() && a.Cleans() && c.id == a.id
  {
  }

  /** The server of an attempt has its deletion requested exactly when the attempt failed, but not
      for want of its details, and the server's id is not empty. */
  lemma {:induction false} CleanedUpExactly(attempts: seq<Attempt>, i: nat)
    requires Plausible(attempts) && i < |attempts| && attempts[i].Made()
    ensures AsksDeletion(Log(attempts, |attempts|).server, attempts[i].id) <==>
            attempts[i].err.Some? && attempts[i].err != Some(ServerDetail) && attempts[i].id != ""
  {
    assert Possible(attempts[i]);
    if attempts[i].Cleans() {
      var ok: bool :| attempts[i].cleanup.server == [DeleteRequested(attempts[i].id, ok)];
      assert DeleteRequested(attempts[i].id, ok) in attempts[i].Calls().server;
      LogHolds(attempts, |attempts|, DeleteRequested(attempts[i].id, ok));
    }
    if AsksDeletion(Log(attempts, |attempts|).server, attempts[i].id) {
      var j := DeletionAsked(attempts, attempts[i].id);
      assert i == j;
    }
  }

  /** A deletion asked for belongs to an attempt that made the server. */
  lemma {:induction false} DeletionAsked(attempts: seq<Attempt>, id: string) returns (j: nat)
    requires Plausible(attempts) && AsksDeletion(Log(attempts, |attempts|).server, id)
    ensures j < |attempts| && attempts[j].Made() && attempts[j].Cleans() && attempts[j].id == id
  {
    var ok: bool :| DeleteRequested(id, ok) in Log(attempts, |attempts|).server;
    var c := DeleteRequested(id, ok);
    LogHolds(attempts, |attempts|, c);
    j :| 0 <= j < |attempts| && c in attempts[j].Calls().server;
    ServerCalls(attempts[j], c);
  }

  /** Only servers made by these attempts are ever deleted. */
  lemma {:induction false} OnlyOwnServersDeleted(attempts: seq<Attempt>, id: string)
    requires Plausible(attempts) && AsksDeletion(Log(attempts, |attempts|).server, id)
    ensures Created(id) in Log(attempts, |attempts|).server
  {
    var j := DeletionAsked(attempts, id);
    ServerCalls(attempts[j], Created(id));
    LogHolds(attempts, |attempts|, Created(id));
  }

  /** The state of cloud and remediation list. */
  datatype World = World(ips: IPs, nextIP: int, known: set<string>, tracked: set<string>, log: Trace)

  ghost function Now(p: ServiceProvision): World
    reads p, p.nova, p.floatingSvc.remediation, p.tracker
  {
    World(p.nova.ips, p.nova.nextIP, p.nova.known, p.floatingSvc.remediation.tracked, p.Log())
  }

  /** IPs have ids given out so far and are attached to known servers only. */
  ghost predicate Numbered(w: World) {
    forall k :: k in w.ips ==> k < w.nextIP && (w.ips[k].instance.Some? ==> w.ips[k].instance.value in w.known)
  }

  /** All tracked addresses but possibly `spare` are still tracked. */
  predicate StillTracks(before: set<string>, after: set<string>, spare: Option<string>) {
    forall x :: x in before && spare != Some(x) ==> x in after
  }

  /** A created server still holds the floating IP it was given, and so does a server whose details
      could not be read. Only a remediation can have failed to be given one, or lose it again in
      a later attempt, when it is the request's own. */
  ghost predicate HoldsItsIP(ips: IPs, a: Attempt, spare: Option<string>) {
    a.err.None? || a.err == Some(ServerDetail) ==>
      match a.held
      case None => spare.Some?
      case Some((k, address)) => spare == Some(address) || (k in ips && ips[k] == CloudIP(address, Some(a.id)))
  }

  /** No IP appears but the attempt's own, and the old ones are unchanged, `spare` excepted. */
  ghost predicate AddsOnly(before: World, after: World, a: Attempt, spare: Option<string>) {
    && (a.added.Some? ==> before.nextIP <= a.added.value)
    && (forall k :: k in after.ips ==>
          if k in before.ips then Unmoved(before.ips[k], after.ips[k], spare) else a.added == Some(k))
    && HoldsItsIP(after.ips, a, spare)
  }

  predicate Unmoved(before: CloudIP, after: CloudIP, spare: Option<string>) {
    after == before || spare == Some(before.address)
  }

  /** What an attempt does to the world, given the calls made so far. `job.spare` is the one address it
      may disturb: the request's own when the request is a remediation. */
  ghost predicate Effect(before: World, after: World, a: Attempt, calls: Trace, job: Job) {
    && Possible(a) && Explained(a, job) && a.tracked == before.tracked
    && after.log == Plus(before.log, calls)
    && before.nextIP <= after.nextIP
    && (a.Made() ==> a.id !in before.known && after.known == before.known + {a.id})
    && (!a.Made() ==> after.known == before.known)
    && KeepsOthers(before.ips, after.ips, before.tracked, job.spare)
    && StillTracks(before.tracked, after.tracked, job.spare)
    && AddsOnly(before, after, a, job.spare)
  }

  /** The effect of an attempt with its clean-up. */
  ghost predicate Tried(before: World, after: World, a: Attempt, job: Job) {
    Effect(before, after, a, a.Calls(), job) && Cleaned(a, job) && Tidied(a)
  }

  /** Neither attached to the attempt's server nor at the address it may disturb. */
  predicate Bystander(ip: CloudIP, a: Attempt, job: Job) {
    ip.instance != Some(a.id) && job.spare != Some(ip.address)
  }

  /** What deleting the attempt's server does to the world. */
  ghost predicate Deleted(before: World, after: World, a: Attempt, job: Job) {
    && after.log == Plus(before.log, a.cleanup) && (exists ok :: DeprovisionCalls(a.cleanup, job.spare, a.id, ok))
    && after.nextIP == before.nextIP && after.known == before.known && before.tracked <= after.tracked
    && (forall k :: k in after.ips ==> k in before.ips)
    && (forall k :: k in before.ips && Bystander(before.ips[k], a, job) ==>
          k in after.ips && after.ips[k] == before.ips[k])
  }

  /** Deleting the server of an attempt disturbs no IP that was there before the attempt. */
  lemma DeletionIsClean(start: World, before: World, after: World, a: Attempt, job: Job)
    requires Numbered(start) && Effect(start, before, a, a.work, job)
    requires Deleted(before, after, a, job) && a.Cleans() && a.Made()
    ensures Tried(start, after, a, job)
  {
    PlusRegrouped(start.log, a.work, a.cleanup);
    forall k | k in start.ips && Unmoved(start.ips[k], start.ips[k], job.spare)
      ensures start.ips[k].instance != Some(a.id)
    {
    }
  }

  /** The request names the server that the attempt made and its address; the server holds the
      floating IP it was given, and was given one unless the request is a remediation. */
  predicate Recorded(ar: AssetRequest, a: Attempt, ips: IPs)
    reads ar
  {
    && ar.serverId == a.id && ar.ipAddress == a.fip != ""
    && if a.held.None? then ar.remediation else Holds(ips, a.held.value.0, a.id)
  }

  lemma NothingToClean(start: World, after: World, a: Attempt, job: Job)
    requires Effect(start, after, a, a.work, job) && a.cleanup == SILENCE && !a.Cleans()
    ensures Tried(start, after, a, job)
  {
    assert Plus(a.work, SILENCE) == a.work;
  }

  ghost function JobOf(ar: AssetRequest): Job
    reads ar
  {
    Job(ar.Spare(), ar.stormData)
  }

  /** One attempt, before any clean-up. */
  method ProvisionOnce(provision: ServiceProvision, ar: AssetRequest)
    returns (entityId: string, fip: string, err: Option<ErrorCode>, ghost a: Attempt)
    requires provision.Valid()
    modifies provision.nova, provision.floatingSvc.remediation, provision.tracker, ar`serverId, ar`agentId
    ensures provision.Valid()
    ensures a.id == entityId && a.fip == fip && a.err == err && a.cleanup == SILENCE
    ensures Effect(old(Now(provision)), Now(provision), a, a.work, old(JobOf(ar)))
    ensures err.None? ==> if a.held.None? then ar.remediation else Holds(provision.nova.ips, a.held.value.0, a.id)
    ensures entityId == "" ==> ar.serverId in {"", old(ar.serverId)}
  {
    ghost var tracked := provision.floatingSvc.remediation.tracked;
    ghost var held, added, calls;
    entityId, fip, err, held, added, calls := provision.ProvisionInstance(ar);
    a := Attempt(entityId, fip, err,
                 if held.Some? then Some((held.value, provision.nova.ips[held.value].address)) else None, added,
                 tracked, calls, SILENCE);
  }

  /** Gives up the server of a failed attempt. */
  method CleanUp(provision: ServiceProvision, ar: AssetRequest, ghost start: World, ghost a: Attempt)
    returns (ghost cleaned: Attempt)
    requires provision.Valid() && Numbered(start) && Effect(start, Now(provision), a, a.work, JobOf(ar))
    requires a.Cleans() && a.Made() && ar.serverId == a.id
    modifies provision.nova, provision.floatingSvc.remediation
    ensures provision.Valid()
    ensures cleaned == a.(cleanup := cleaned.cleanup) && Tried(start, Now(provision), cleaned, JobOf(ar))
  {
    ghost var before, calls := Now(provision), SILENCE;
    var ok;
    ok, calls := provision.DeprovisionInstance(ar);
    cleaned := a.(cleanup := calls);
    DeletionIsClean(start, before, Now(provision), cleaned, JobOf(ar));
  }

  /** One attempt and the clean-up after its failure. */
  method TryOnce(provision: ServiceProvision, ar: AssetRequest) returns (ghost a: Attempt, created: bool)
    requires provision.Valid()
    modifies provision.nova, provision.floatingSvc.remediation, provision.tracker
    modifies ar`serverId, ar`ipAddress, ar`agentId
    ensures provision.Valid()
    ensures created == a.err.None?
    ensures Tried(old(Now(provision)), Now(provision), a, old(JobOf(ar)))
    ensures created ==> Recorded(ar, a, provision.nova.ips)
    ensures !created ==> ar.ipAddress == old(ar.ipAddress)
    ensures !created && a.id != "" ==> ar.serverId == a.id
  {
    ghost var start, job := Now(provision), JobOf(ar);
    created := false;
    var entityId, fip, err;
    entityId, fip, err, a := ProvisionOnce(provision, ar);
    if !a.Cleans() {
      NothingToClean(start, Now(provision), a, job);
    }
    if err.None? && fip != "" {
      ar.serverId := entityId;
      ar.ipAddress := fip;
      created := true;
    } else {
      if entityId != "" {
        ar.serverId := entityId;
      }
      var code := err.value;
      if code.ServerCreate? || code.SettingHostName? || code.AssociateIP? || code.StormRegister? {
        if |entityId| > 0 {
          a := CleanUp(provision, ar, start, a);
        }
      }
    }
  }

  /** No IP appears but those the attempts allocated, and the old ones are unchanged, `spare` excepted. */
  ghost predicate Accounted(before: IPs, after: IPs, attempts: seq<Attempt>, spare: Option<string>) {
    forall k :: k in after ==>
      if k in before then Unmoved(before[k], after[k], spare) else Allocates(attempts, k)
  }

  ghost predicate Allocates(attempts: seq<Attempt>, k: int) {
    exists i :: 0 <= i < |attempts| && attempts[i].added == Some(k)
  }

  /** The servers made by the attempts are new ones. */
  ghost predicate NewServers(before: set<string>, after: set<string>, attempts: seq<Attempt>) {
    && before <= after
    && forall i {:trigger attempts[i].Made()} ::
         0 <= i < |attempts| && attempts[i].Made() ==> attempts[i].id !in before && attempts[i].id in after
  }

  /** What all attempts together have done to the world. */
  ghost predicate Progress(start: World, now: World, attempts: seq<Attempt>, job: Job) {
    && Plausible(attempts) && AllExplained(attempts, job)
    && now.log == Plus(start.log, Log(attempts, |attempts|))
    && start.nextIP <= now.nextIP
    && NewServers(start.known, now.known, attempts)
    && KeepsOthers(start.ips, now.ips, start.tracked, job.spare)
    && TracksAll(start.tracked, now.tracked, attempts, job.spare)
    && Accounted(start.ips, now.ips, attempts, job.spare)
    && (forall i {:trigger HoldsItsIP(now.ips, attempts[i], job.spare)} ::
          0 <= i < |attempts| ==> HoldsItsIP(now.ips, attempts[i], job.spare))
  }

  /** What was tracked at first still is, and was when each of the attempts began. */
  ghost predicate TracksAll(before: set<string>, after: set<string>, attempts: seq<Attempt>, spare: Option<string>) {
    && StillTracks(before, after, spare)
    && forall i {:trigger StillTracks(before, attempts[i].tracked, spare)} ::
         0 <= i < |attempts| ==> StillTracks(before, attempts[i].tracked, spare)
  }

  lemma NoProgress(w: World, job: Job)
    ensures Progress(w, w, [], job)
  {
    assert Plus(w.log, SILENCE) == w.log;
  }

  lemma AccountedStep(start: World, before: World, after: World, attempts: seq<Attempt>, a: Attempt,
                      spare: Option<string>)
    requires Numbered(start)
    requires start.nextIP <= before.nextIP
    requires Accounted(start.ips, before.ips, attempts, spare) && AddsOnly(before, after, a, spare)
    ensures Accounted(start.ips, after.ips, attempts + [a], spare)
  {
    var all := attempts + [a];
    forall k | k in after.ips && k !in start.ips ensures Allocates(all, k) {
      if k in before.ips {
        var i :| 0 <= i < |attempts| && attempts[i].added == Some(k);
        assert all[i].added == Some(k);
      } else {
        assert all[|attempts|].added == Some(k);
      }
    }
  }

  lemma HoldingStep(before: World, after: World, attempts: seq<Attempt>, a: Attempt, spare: Option<string>)
    requires forall i :: 0 <= i < |attempts| ==> HoldsItsIP(before.ips, attempts[i], spare)
    requires KeepsOthers(before.ips, after.ips, before.tracked, spare) && HoldsItsIP(after.ips, a, spare)
    ensures forall i :: 0 <= i < |attempts + [a]| ==> HoldsItsIP(after.ips, (attempts + [a])[i], spare)
  {
    forall i | 0 <= i < |attempts| ensures HoldsItsIP(after.ips, attempts[i], spare) {
      assert HoldsItsIP(before.ips, attempts[i], spare);
    }
  }

  lemma ServersStep(known0: set<string>, known1: set<string>, known2: set<string>, attempts: seq<Attempt>, a: Attempt)
    requires NewServers(known0, known1, attempts) && Plausible(attempts) && Possible(a) && Tidied(a)
    requires a.Made() ==> a.id !in known1 && known2 == known1 + {a.id}
    requires !a.Made() ==> known2 == known1
    ensures NewServers(known0, known2, attempts + [a]) && Plausible(attempts + [a])
  {
    var all := attempts + [a];
    forall i | 0 <= i < |all| ensures Possible(all[i]) && Tidied(all[i]) {
      assert i < |attempts| ==> Possible(attempts[i]);
    }
    forall i, j | 0 <= i < j < |all| && all[i].Made() && all[j].Made() ensures all[i].id != all[j].id {
      assert all[i] == attempts[i];
    }
  }

  lemma KeepingStep(start: World, before: World, after: World, spare: Option<string>)
    requires KeepsOthers(start.ips, before.ips, start.tracked, spare)
    requires KeepsOthers(before.ips, after.ips, before.tracked, spare)
    requires StillTracks(start.tracked, before.tracked, spare)
    ensures KeepsOthers(start.ips, after.ips, start.tracked, spare)
  {
  }

  lemma ExplainedStep(attempts: seq<Attempt>, a: Attempt, job: Job)
    requires AllExplained(attempts, job) && Explained(a, job) && Cleaned(a, job)
    ensures AllExplained(attempts + [a], job)
  {
    forall i | 0 <= i <= |attempts|
      ensures Explained((attempts + [a])[i], job) && Cleaned((attempts + [a])[i], job)
    {
      if i < |attempts| {
        assert (attempts + [a])[i] == attempts[i];
        assert Explained(attempts[i], job);
      }
    }
  }

  lemma TracksStep(start: set<string>, before: set<string>, after: set<string>, attempts: seq<Attempt>, a: Attempt,
                   spare: Option<string>)
    requires TracksAll(start, before, attempts, spare) && a.tracked == before && StillTracks(before, after, spare)
    ensures TracksAll(start, after, attempts + [a], spare)
  {
  }

  lemma ProgressStep(start: World, before: World, after: World, attempts: seq<Attempt>, a: Attempt, job: Job)
    requires Numbered(start)
    requires Progress(start, before, attempts, job) && Tried(before, after, a, job)
    ensures Progress(start, after, attempts + [a], job)
  {
    LogMore(start.log, attempts, a);
    ExplainedStep(attempts, a, job);
    TracksStep(start.tracked, before.tracked, after.tracked, attempts, a, job.spare);
    ServersStep(start.known, before.known, after.known, attempts, a);
    KeepingStep(start, before, after, job.spare);
    AccountedStep(start, before, after, attempts, a, job.spare);
    HoldingStep(before, after, attempts, a, job.spare);
  }

  /** The first `n` attempts. */
  predicate AllFailed(attempts: seq<Attempt>, n: int)
    requires n <= |attempts|
  {
    forall i :: 0 <= i < n ==> attempts[i].err.Some?
  }

  /** At most five attempts, the last one being the first that succeeds. */
  method FiveAttempts(provision: ServiceProvision, ar: AssetRequest)
    returns (created: bool, ghost attempts: seq<Attempt>)
    requires provision.Valid()
    modifies provision.nova, provision.floatingSvc.remediation, provision.tracker
    modifies ar`serverId, ar`ipAddress, ar`agentId
    ensures provision.Valid()
    ensures Progress(old(Now(provision)), Now(provision), attempts, old(JobOf(ar)))
    ensures 1 <= |attempts| <= 5 && (!created ==> |attempts| == 5)
    ensures AllFailed(attempts, |attempts| - 1) && (created <==> attempts[|attempts| - 1].err.None?)
    ensures if created then Recorded(ar, attempts[|attempts| - 1], provision.nova.ips)
            else ar.ipAddress == old(ar.ipAddress)
  {
    created, attempts := false, [];
    ghost var start, job := Now(provision), JobOf(ar);
    ghost var now := start;
    NoProgress(start, job);
    var i := 0;
    while i < 5
      invariant provision.Valid() && |attempts| == i <= 5
      invariant now == Now(provision) && Progress(start, now, attempts, job)
      invariant Numbered(start) && AllFailed(attempts, i)
      invariant ar.ipAddress == old(ar.ipAddress) && JobOf(ar) == job && !created
    {
      ghost var before := now;
      ghost var a;
      a, created := TryOnce(provision, ar);
      now := Now(provision);
      ProgressStep(start, before, now, attempts, a, job);
      attempts, i := attempts + [a], i + 1;
      if created {
        return;
      }
    }
  }

  /** Creates the server of a request in at most five attempts, if there is a provider for it. An error
      is reported only when there is none; every other failure shows in the request's status alone. */
  method CreateServer(found: bool, provision: ServiceProvision, conn: Connection, ar: AssetRequest)
    returns (err: bool, ghost attempts: seq<Attempt>)
    requires provision.Valid()
    modifies provision.nova, provision.floatingSvc.remediation, provision.tracker, conn
    modifies ar`serverId, ar`ipAddress, ar`agentId, ar`status
    ensures provision.Valid()
    ensures err <==> !found
    ensures Progress(old(Now(provision)), Now(provision), attempts, old(JobOf(ar)))
    ensures err ==> attempts == [] && conn.writes == old(conn.writes) && ar.status == old(ar.status)
    ensures !err ==> 1 <= |attempts| <= 5 && AllFailed(attempts, |attempts| - 1)
    ensures !err ==> ar.status == if attempts[|attempts| - 1].err.None? then HalfFilled else Retry
    ensures !err && ar.status == HalfFilled ==> Recorded(ar, attempts[|attempts| - 1], provision.nova.ips)
    ensures !err && ar.status == Retry ==> |attempts| == 5 && ar.ipAddress == old(ar.ipAddress)
    ensures !err ==> conn.writes == old(conn.writes) + [Record(ar.id, old(ar.serverId), old(ar.ipAddress), Build),
                                                        Record(ar.id, ar.serverId, ar.ipAddress, ar.status)]
  {
    err, attempts := false, [];
    if !found {
      NoProgress(Now(provision), JobOf(ar));
      return true, attempts;
    }
    ar.status := Build;
    conn.Update(ar);
    var created;
    created, attempts := FiveAttempts(provision, ar);
    ar.status := if created then HalfFilled else Retry;
    conn.Update(ar);
  }
}
