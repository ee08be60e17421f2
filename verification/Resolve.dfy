/** Identifying every entry of a pack: a scheduler that hands entries to workers
    as their bases land, whatever order the workers finish in.
*/
module Resolve {
  import opened Graphs
  import opened Objects
  import opened PackContent

  const IN_FLIGHT_ENTRIES: nat := 64
  const IN_FLIGHT_BYTES: nat := 256 * 1024 * 1024

  /** A job: an entry that can be decoded now. */
  datatype Pending = Pending(at: nat, base: JobBase)

  /** Bytes a running job is charged: its base's and its own. */
  function CostOf(pack: Pack, p: Pending): nat
  {
    (if p.base.content.Some? then |p.base.content.value| else 0)
    + if p.at < |pack.entries| then pack.entries[p.at].size else 0
  }

  function CostSum(pack: Pack, jobs: seq<Pending>): nat
  {
    if jobs == [] then 0 else CostSum(pack, jobs[..|jobs| - 1]) + CostOf(pack, jobs[|jobs| - 1])
  }

  lemma {:induction false} CostRemove(pack: Pack, jobs: seq<Pending>, k: nat)
    requires k < |jobs|
    ensures CostSum(pack, jobs) == CostSum(pack, jobs[..k] + jobs[k + 1..]) + CostOf(pack, jobs[k])
  {
    var last := |jobs| - 1;
    if k == last {
      assert jobs[..k] + jobs[k + 1..] == jobs[..last];
    } else {
      var front := jobs[..last];
      CostRemove(pack, front, k);
      var rest := jobs[..k] + jobs[k + 1..];
      assert rest[..|rest| - 1] == front[..k] + front[k + 1..];
    }
  }

  /** Jobs are admitted up to a count, and while their bytes are within budget
      or nothing else is in flight. */
  ghost predicate Windowed(pack: Pack, inFlight: seq<Pending>, bytes: nat)
  {
    && |inFlight| <= IN_FLIGHT_ENTRIES
    && bytes == CostSum(pack, inFlight)
    && forall k :: 0 < k < |inFlight| ==> CostSum(pack, inFlight[..k]) < IN_FLIGHT_BYTES
  }

  lemma WindowAdmits(pack: Pack, inFlight: seq<Pending>, bytes: nat, p: Pending)
    requires Windowed(pack, inFlight, bytes) && |inFlight| < IN_FLIGHT_ENTRIES
    requires inFlight == [] || bytes < IN_FLIGHT_BYTES
    ensures Windowed(pack, inFlight + [p], bytes + CostOf(pack, p))
  {
    var after := inFlight + [p];
    assert after[..|inFlight|] == inFlight;
    forall k | 0 < k < |after| ensures CostSum(pack, after[..k]) < IN_FLIGHT_BYTES {
      assert after[..k] == inFlight[..k];
      assert inFlight[..|inFlight|] == inFlight;
    }
  }

  lemma RemovedPrefix(jobs: seq<Pending>, k: nat, m: nat)
    requires k < m < |jobs|
    ensures (jobs[..k] + jobs[k + 1..])[..m] == jobs[..m + 1][..k] + jobs[..m + 1][k + 1..]
  {
  }

  lemma WindowReleases(pack: Pack, inFlight: seq<Pending>, bytes: nat, k: nat)
    requires Windowed(pack, inFlight, bytes) && k < |inFlight|
    ensures bytes >= CostOf(pack, inFlight[k])
    ensures Windowed(pack, inFlight[..k] + inFlight[k + 1..], bytes - CostOf(pack, inFlight[k]))
  {
    CostRemove(pack, inFlight, k);
    var after := inFlight[..k] + inFlight[k + 1..];
    forall m | 0 < m < |after| ensures CostSum(pack, after[..m]) < IN_FLIGHT_BYTES {
      if m <= k {
        assert after[..m] == inFlight[..m];
      } else {
        CostRemove(pack, inFlight[..m + 1], k);
        RemovedPrefix(inFlight, k, m);
      }
    }
  }

  // ------------------------------------------------------------- the queues

  ghost predicate Has(q: seq<nat>, i: nat)
  {
    i in q
  }

  /** Jobs for different entries. */
  ghost predicate Apart(jobs: seq<Pending>)
  {
    forall i, j :: 0 <= i < j < |jobs| ==> jobs[i].at != jobs[j].at
  }

  /** Some queued or running job is for entry `i`. */
  ghost predicate Open(jobs: seq<Pending>, i: nat)
  {
    exists k :: 0 <= k < |jobs| && jobs[k].at == i
  }

  /** Every open job is for an entry not known yet, and holds the right base. */
  ghost predicate JobsOk(pack: Pack, known: Known, jobs: seq<Pending>)
  {
    forall k :: 0 <= k < |jobs| ==> JobOk(pack, known, jobs[k])
  }

  ghost predicate JobOk(pack: Pack, known: Known, p: Pending)
  {
    && p.at < |pack.entries| == |known|
    && known[p.at].None?
    && BaseOf(pack, known, p.at) == Some(p.base)
  }

  /** Exactly the entries whose base is in hand were ever enqueued, each once,
      and each is open until it is known. */
  ghost predicate Enqueued(pack: Pack, known: Known, jobs: seq<Pending>, log: seq<nat>)
  {
    && |known| == |pack.entries|
    && Distinct(log)
    && (forall i: nat :: Has(log, i) ==> i < |pack.entries|)
    && (forall i {:trigger Has(log, i)} {:trigger BaseOf(pack, known, i)} :: 0 <= i < |known| ==>
          (Has(log, i) <==> BaseOf(pack, known, i).Some?))
    && (forall i {:trigger Has(log, i)} {:trigger Open(jobs, i)} ::
          0 <= i < |known| && Has(log, i) && known[i].None? ==> Open(jobs, i))
  }

  /** The entries waiting on an id: each is a delta on it, not yet enqueued. */
  ghost predicate Waits(pack: Pack, byId: map<Oid, seq<nat>>, log: seq<nat>)
  {
    && (forall id :: id in byId ==> Distinct(byId[id]))
    && (forall id, i: nat {:trigger Has(byId[id], i)} :: id in byId && Has(byId[id], i) ==>
          i < |pack.entries| && !Has(log, i) && OnId(pack, i, id))
    && (forall i: nat, id {:trigger OnId(pack, i, id)} :: i < |pack.entries| && OnId(pack, i, id) && !Has(log, i) ==>
          id in byId && Has(byId[id], i))
  }

  /** Entry `i` deltas against an id the repository does not hold. */
  ghost predicate OnId(pack: Pack, i: nat, id: Oid)
    requires i < |pack.entries|
  {
    pack.entries[i].base == Ref(id) && id !in pack.repo
  }

  /** `byIndex[j]` lists, once each, exactly the entries whose base is entry `j`. */
  ghost predicate ByIndex(pack: Pack, byIndex: seq<seq<nat>>)
  {
    && |byIndex| == |pack.entries|
    && (forall j :: 0 <= j < |byIndex| ==> Distinct(byIndex[j]))
    && (forall j, i: nat {:trigger Has(byIndex[j], i)} :: 0 <= j < |byIndex| ==>
          (Has(byIndex[j], i) <==> i < |pack.entries| && pack.entries[i].base == InPack(j)))
  }

  /** What the driver knows: nothing it could not have derived, and everything recorded. */
  ghost predicate Sound(pack: Pack, known: Known, rounds: nat, oids: seq<Oid>, resolved: map<Oid, Object>)
  {
    && Consistent(pack, known)
    && Grows(known, Level(pack, rounds))
    && |oids| == |known|
    && forall i :: 0 <= i < |known| && known[i].Some? ==>
         && oids[i] == pack.codec.hash(known[i].value)
         && oids[i] in resolved && resolved[oids[i]] == known[i].value
  }

  /** How many entries are known. */
  ghost function Count(known: Known): nat
  {
    if known == [] then 0 else Count(known[..|known| - 1]) + if known[|known| - 1].Some? then 1 else 0
  }

  lemma {:induction false} CountOne(known: Known, at: nat, o: Object)
    requires at < |known| && known[at].None?
    ensures Count(known[at := Some(o)]) == Count(known) + 1
  {
    var last := |known| - 1;
    var after := known[at := Some(o)];
    if at == last {
      assert after[..last] == known[..last];
    } else {
      CountOne(known[..last], at, o);
      assert after[..last] == known[..last][at := Some(o)];
    }
  }

  lemma {:induction false} CountAll(known: Known)
    ensures Count(known) <= |known|
    ensures Count(known) == |known| <==> forall i :: 0 <= i < |known| ==> known[i].Some?
  {
    if known != [] {
      CountAll(known[..|known| - 1]);
      assert forall i :: 0 <= i < |known| - 1 ==> known[..|known| - 1][i] == known[i];
    }
  }

  // ------------------------------------------------------- landing a worker

  /** Jobs for `blocked`, the last of them first, all on one base. */
  function Fronted(blocked: seq<nat>, base: JobBase): (jobs: seq<Pending>)
  {
    seq(|blocked|, k requires 0 <= k < |blocked| => Pending(blocked[|blocked| - 1 - k], base))
  }

  function WaitersOf(byId: map<Oid, seq<nat>>, id: Oid): seq<nat>
  {
    if id in byId then byId[id] else []
  }

  /** What landing entry `at` as `o` unblocks. */
  function Blocked(pack: Pack, byIndex: seq<seq<nat>>, byId: map<Oid, seq<nat>>, at: nat, o: Object): seq<nat>
    requires at < |byIndex|
  {
    byIndex[at] + WaitersOf(byId, pack.codec.hash(o))
  }

  /** Entry `i`'s base comes into hand with the landing. */
  ghost predicate Unblocks(pack: Pack, known: Known, after: Known, i: nat)
  {
    i < |pack.entries| && BaseOf(pack, known, i).None? && BaseOf(pack, after, i).Some?
  }

  /** Everything listed as blocked was, and is not any more. */
  lemma BlockedUnblocks(pack: Pack, known: Known, jobs: seq<Pending>, log: seq<nat>, byIndex: seq<seq<nat>>,
                        byId: map<Oid, seq<nat>>, at: nat, o: Object, i: nat)
    requires Injective(pack.codec) && ByIndex(pack, byIndex) && Enqueued(pack, known, jobs, log)
    requires Waits(pack, byId, log)
    requires at < |known| && known[at].None?
    requires Has(Blocked(pack, byIndex, byId, at, o), i)
    ensures i < |pack.entries| && Unblocks(pack, known, known[at := Some(o)], i)
    ensures BaseOf(pack, known[at := Some(o)], i) == Some(OnObject(o))
  {
    hide Injective;
    var after := known[at := Some(o)];
    if Has(byIndex[at], i) {
      assert BaseOf(pack, known, i).None?;
    } else {
      assert Has(byId[pack.codec.hash(o)], i);
      assert after[at] == Some(o);
      assert Named(pack, after, pack.codec.hash(o), o);
      FindIsNamed(pack, after, pack.codec.hash(o), o);
    }
  }

  /** Everything the landing unblocks was listed. */
  lemma UnblocksBlocked(pack: Pack, known: Known, jobs: seq<Pending>, log: seq<nat>, byIndex: seq<seq<nat>>,
                        byId: map<Oid, seq<nat>>, at: nat, o: Object, i: nat)
    requires Injective(pack.codec) && ByIndex(pack, byIndex) && Enqueued(pack, known, jobs, log)
    requires Waits(pack, byId, log)
    requires at < |known| && known[at].None?
    requires i < |pack.entries| && Unblocks(pack, known, known[at := Some(o)], i)
    ensures Has(Blocked(pack, byIndex, byId, at, o), i)
  {
    hide Injective;
    var after := known[at := Some(o)];
    if pack.entries[i].base.InPack? {
      assert Has(byIndex[at], i);
    } else {
      var id := pack.entries[i].base.id;
      var q := Find(pack, after, id).value;
      var j :| 0 <= j < |after| && after[j] == Some(q) && pack.codec.hash(q) == id;
      assert j == at by {
        assert j != at ==> Named(pack, known, id, q);
      }
      assert !Has(log, i) && OnId(pack, i, id);
    }
  }

  lemma BlockedApart(pack: Pack, log: seq<nat>, byIndex: seq<seq<nat>>, byId: map<Oid, seq<nat>>, at: nat, o: Object)
    requires ByIndex(pack, byIndex) && Waits(pack, byId, log) && at < |byIndex|
    ensures Distinct(Blocked(pack, byIndex, byId, at, o))
  {
    var a, b := byIndex[at], WaitersOf(byId, pack.codec.hash(o));
    forall x, y | 0 <= x < y < |a + b| ensures (a + b)[x] != (a + b)[y] {
      if x < |a| <= y {
        assert Has(byIndex[at], a[x]) && Has(byId[pack.codec.hash(o)], b[y - |a|]);
      }
    }
  }

  lemma KnownHasBase(pack: Pack, known: Known, i: nat)
    requires Consistent(pack, known) && i < |known| && known[i].Some?
    ensures BaseOf(pack, known, i).Some?
  {
  }

  lemma JobsStay(pack: Pack, known: Known, at: nat, o: Object, rest: seq<Pending>)
    requires Injective(pack.codec) && at < |known| && known[at].None? && |known| == |pack.entries|
    requires JobsOk(pack, known, rest) && !Open(rest, at)
    ensures JobsOk(pack, known[at := Some(o)], rest)
  {
    hide Injective, BaseOf;
    forall k | 0 <= k < |rest| ensures JobOk(pack, known[at := Some(o)], rest[k]) {
      BaseStays(pack, known, known[at := Some(o)], rest[k].at);
    }
  }

  /** The new jobs are right, and for none of the entries already open. */
  lemma NewJobsOk(pack: Pack, known: Known, jobs: seq<Pending>, log: seq<nat>, byIndex: seq<seq<nat>>,
                  byId: map<Oid, seq<nat>>, at: nat, o: Object, rest: seq<Pending>)
    requires Injective(pack.codec) && ByIndex(pack, byIndex) && Enqueued(pack, known, jobs, log)
    requires Waits(pack, byId, log)
    requires Consistent(pack, known) && at < |known| && known[at].None? && BaseOf(pack, known, at).Some?
    requires JobsOk(pack, known, rest) && Apart(rest) && !Open(rest, at)
    ensures var more := Fronted(Blocked(pack, byIndex, byId, at, o), OnObject(o));
      JobsOk(pack, known[at := Some(o)], more + rest) && Apart(more + rest)
  {
    hide Injective, Enqueued, Waits, BaseOf, Blocked, Consistent;
    SameSize(pack, known, jobs, log);
    var after := known[at := Some(o)];
    var blocked := Blocked(pack, byIndex, byId, at, o);
    var more := Fronted(blocked, OnObject(o));
    forall k | 0 <= k < |more| ensures JobOk(pack, after, more[k]) && BaseOf(pack, known, more[k].at).None? {
      var i := blocked[|blocked| - 1 - k];
      assert Has(blocked, i);
      BlockedUnblocks(pack, known, jobs, log, byIndex, byId, at, o, i);
      if known[i].Some? {
        KnownHasBase(pack, known, i);
      }
    }
    JobsStay(pack, known, at, o, rest);
    BlockedApart(pack, log, byIndex, byId, at, o);
    forall x, y | 0 <= x < y < |more + rest| ensures (more + rest)[x].at != (more + rest)[y].at {
      if x < |more| <= y {
        assert JobOk(pack, known, rest[y - |more|]);
      }
    }
  }

  lemma SameSize(pack: Pack, known: Known, jobs: seq<Pending>, log: seq<nat>)
    requires Enqueued(pack, known, jobs, log)
    ensures |known| == |pack.entries|
  {
  }

  /** Enqueueing what the landing unblocked keeps the log exact. */
  lemma LogGrows(pack: Pack, known: Known, jobs: seq<Pending>, log: seq<nat>, byIndex: seq<seq<nat>>,
                 byId: map<Oid, seq<nat>>, at: nat, o: Object, rest: seq<Pending>)
    requires Injective(pack.codec) && ByIndex(pack, byIndex) && Enqueued(pack, known, jobs, log)
    requires Waits(pack, byId, log)
    requires at < |known| && known[at].None?
    requires forall i :: Open(jobs, i) ==> i == at || Open(rest, i)
    ensures var blocked := Blocked(pack, byIndex, byId, at, o);
      Enqueued(pack, known[at := Some(o)], Fronted(blocked, OnObject(o)) + rest, log + blocked)
  {
    hide Injective, Waits, BaseOf, Blocked;
    var after := known[at := Some(o)];
    var blocked := Blocked(pack, byIndex, byId, at, o);
    var more := Fronted(blocked, OnObject(o));
    forall i: nat | Has(blocked, i)
      ensures i < |known| && !Has(log, i) && BaseOf(pack, after, i).Some? && Open(more + rest, i)
    {
      BlockedUnblocks(pack, known, jobs, log, byIndex, byId, at, o, i);
      FrontedOpen(blocked, OnObject(o), rest, i);
    }
    BlockedApart(pack, log, byIndex, byId, at, o);
    LogApart(log, blocked);
    forall i | 0 <= i < |known| ensures Has(log + blocked, i) <==> BaseOf(pack, after, i).Some? {
      if Has(log, i) {
        BaseStays(pack, known, after, i);
      } else if BaseOf(pack, after, i).Some? {
        UnblocksBlocked(pack, known, jobs, log, byIndex, byId, at, o, i);
      }
    }
    forall i | 0 <= i < |known| && Has(log + blocked, i) && after[i].None? ensures Open(more + rest, i) {
      if !Has(blocked, i) {
        assert Has(log, i) && Open(jobs, i);
        RestOpen(more, rest, i);
      }
    }
    forall i: nat | Has(log + blocked, i) ensures i < |pack.entries| {
      assert Has(log, i) || Has(blocked, i);
    }
  }

  lemma LogApart(log: seq<nat>, blocked: seq<nat>)
    requires Distinct(log) && Distinct(blocked) && forall i: nat :: Has(blocked, i) ==> !Has(log, i)
    ensures Distinct(log + blocked)
  {
    forall x, y | 0 <= x < y < |log + blocked| ensures (log + blocked)[x] != (log + blocked)[y] {
      if x < |log| <= y {
        assert Has(log, log[x]) && Has(blocked, blocked[y - |log|]);
      }
    }
  }

  lemma FrontedOpen(blocked: seq<nat>, base: JobBase, rest: seq<Pending>, i: nat)
    requires Has(blocked, i)
    ensures Open(Fronted(blocked, base) + rest, i)
  {
    var k :| 0 <= k < |blocked| && blocked[k] == i;
    assert (Fronted(blocked, base) + rest)[|blocked| - 1 - k].at == i;
  }

  lemma RestOpen(more: seq<Pending>, rest: seq<Pending>, i: nat)
    requires Open(rest, i)
    ensures Open(more + rest, i)
  {
    var k :| 0 <= k < |rest| && rest[k].at == i;
    assert (more + rest)[|more| + k].at == i;
  }

  /** Taking an id's waiters off the map leaves the others waiting. */
  lemma WaitsShrink(pack: Pack, log: seq<nat>, byIndex: seq<seq<nat>>, byId: map<Oid, seq<nat>>, at: nat, o: Object)
    requires ByIndex(pack, byIndex) && Waits(pack, byId, log) && at < |byIndex|
    ensures Waits(pack, byId - {pack.codec.hash(o)}, log + Blocked(pack, byIndex, byId, at, o))
  {
    var id := pack.codec.hash(o);
    var blocked := Blocked(pack, byIndex, byId, at, o);
    var fewer := byId - {id};
    forall d, i: nat | d in fewer && Has(fewer[d], i)
      ensures i < |pack.entries| && !Has(log + blocked, i) && OnId(pack, i, d)
    {
      assert Has(byId[d], i);
      assert Has(blocked, i) ==> Has(byIndex[at], i) || Has(WaitersOf(byId, id), i);
    }
    forall i: nat, d | 0 <= i < |pack.entries| && OnId(pack, i, d) && !Has(log + blocked, i)
      ensures d in fewer && Has(fewer[d], i)
    {
      assert !Has(log, i);
      assert Has(byId[d], i);
    }
  }

  // ------------------------------------------------------------- the driver

  /** What every round keeps, over the queued and running jobs. */
  ghost predicate Driving(pack: Pack, known: Known, rounds: nat, jobs: seq<Pending>, log: seq<nat>,
                          byId: map<Oid, seq<nat>>, oids: seq<Oid>, resolved: map<Oid, Object>)
  {
    && Sound(pack, known, rounds, oids, resolved)
    && JobsOk(pack, known, jobs) && Apart(jobs)
    && Enqueued(pack, known, jobs, log)
    && Waits(pack, byId, log)
  }

  /** Handing the first queued job to a worker leaves the same jobs open. */
  lemma DispatchKeeps(pack: Pack, known: Known, rounds: nat, ready: seq<Pending>, inFlight: seq<Pending>, log: seq<nat>,
                      byId: map<Oid, seq<nat>>, oids: seq<Oid>, resolved: map<Oid, Object>)
    requires ready != [] && Driving(pack, known, rounds, ready + inFlight, log, byId, oids, resolved)
    ensures Driving(pack, known, rounds, ready[1..] + (inFlight + [ready[0]]), log, byId, oids, resolved)
  {
    hide Sound, Waits, JobOk, BaseOf;
    var was, now := ready + inFlight, ready[1..] + (inFlight + [ready[0]]);
    forall k | 0 <= k < |now| ensures now[k] == was[if k + 1 < |was| then k + 1 else 0] {
    }
    forall i | Open(was, i) ensures Open(now, i) {
      var k :| 0 <= k < |was| && was[k].at == i;
      assert now[if k == 0 then |was| - 1 else k - 1].at == i;
    }
  }

  /** Taking one running job out leaves the others, for other entries. */
  lemma TakeJob(pack: Pack, known: Known, ready: seq<Pending>, inFlight: seq<Pending>, k: nat)
    requires k < |inFlight| && JobsOk(pack, known, ready + inFlight) && Apart(ready + inFlight)
    ensures JobOk(pack, known, inFlight[k])
    ensures var rest := ready + (inFlight[..k] + inFlight[k + 1..]);
      && JobsOk(pack, known, rest) && Apart(rest) && !Open(rest, inFlight[k].at)
      && forall i :: Open(ready + inFlight, i) ==> i == inFlight[k].at || Open(rest, i)
  {
    hide JobOk;
    var jobs := ready + inFlight;
    var rest := ready + (inFlight[..k] + inFlight[k + 1..]);
    var m := |ready| + k;
    assert jobs[m] == inFlight[k];
    forall x | 0 <= x < |rest| ensures rest[x] == jobs[if x < m then x else x + 1] {
    }
    forall i | Open(jobs, i) && i != inFlight[k].at ensures Open(rest, i) {
      var x :| 0 <= x < |jobs| && jobs[x].at == i;
      assert rest[if x < m then x else x - 1].at == i;
    }
  }

  /** A worker's answer, taken in. */
  lemma LandKeeps(pack: Pack, known: Known, rounds: nat, ready: seq<Pending>, inFlight: seq<Pending>, k: nat,
                  log: seq<nat>, byIndex: seq<seq<nat>>, byId: map<Oid, seq<nat>>, oids: seq<Oid>,
                  resolved: map<Oid, Object>, o: Object)
    requires Injective(pack.codec) && ByIndex(pack, byIndex) && k < |inFlight|
    requires Driving(pack, known, rounds, ready + inFlight, log, byId, oids, resolved)
    requires inFlight[k].at < |known| && Decode(pack, inFlight[k].at, inFlight[k].base) == Some(o)
    ensures |oids| == |known| == |byIndex| && known[inFlight[k].at].None?
    ensures var at := inFlight[k].at;
      var blocked := Blocked(pack, byIndex, byId, at, o);
      Driving(pack, known[at := Some(o)], rounds + 1,
              Fronted(blocked, OnObject(o)) + (ready + (inFlight[..k] + inFlight[k + 1..])), log + blocked,
              byId - {pack.codec.hash(o)}, oids[at := pack.codec.hash(o)], resolved[pack.codec.hash(o) := o])
  {
    hide *;
    var at := inFlight[k].at;
    var jobs, rest := ready + inFlight, ready + (inFlight[..k] + inFlight[k + 1..]);
    DrivingParts(pack, known, rounds, jobs, log, byId, oids, resolved);
    ByIndexSize(pack, byIndex);
    TakeJob(pack, known, ready, inFlight, k);
    JobParts(pack, known, inFlight[k]);
    NewJobsOk(pack, known, jobs, log, byIndex, byId, at, o, rest);
    LogGrows(pack, known, jobs, log, byIndex, byId, at, o, rest);
    WaitsShrink(pack, log, byIndex, byId, at, o);
    SoundGrows(pack, known, rounds, oids, resolved, at, o);
    DrivingWhole(pack, known[at := Some(o)], rounds + 1,
                 Fronted(Blocked(pack, byIndex, byId, at, o), OnObject(o)) + rest,
                 log + Blocked(pack, byIndex, byId, at, o),
                 byId - {pack.codec.hash(o)}, oids[at := pack.codec.hash(o)], resolved[pack.codec.hash(o) := o]);
  }

  lemma DrivingParts(pack: Pack, known: Known, rounds: nat, jobs: seq<Pending>, log: seq<nat>,
                     byId: map<Oid, seq<nat>>, oids: seq<Oid>, resolved: map<Oid, Object>)
    requires Driving(pack, known, rounds, jobs, log, byId, oids, resolved)
    ensures Sound(pack, known, rounds, oids, resolved) && Consistent(pack, known) && |oids| == |known| == |pack.entries|
    ensures Grows(known, Level(pack, rounds))
    ensures JobsOk(pack, known, jobs) && Apart(jobs) && Enqueued(pack, known, jobs, log) && Waits(pack, byId, log)
  {
    hide JobsOk, Apart, Enqueued, Waits, Grows, Derive, Level;
  }

  lemma DrivingWhole(pack: Pack, known: Known, rounds: nat, jobs: seq<Pending>, log: seq<nat>,
                     byId: map<Oid, seq<nat>>, oids: seq<Oid>, resolved: map<Oid, Object>)
    requires Sound(pack, known, rounds, oids, resolved)
    requires JobsOk(pack, known, jobs) && Apart(jobs) && Enqueued(pack, known, jobs, log) && Waits(pack, byId, log)
    ensures Driving(pack, known, rounds, jobs, log, byId, oids, resolved)
  {
    hide JobsOk, Apart, Enqueued, Waits, Sound;
  }

  lemma ByIndexSize(pack: Pack, byIndex: seq<seq<nat>>)
    requires ByIndex(pack, byIndex)
    ensures |byIndex| == |pack.entries|
  {
  }

  lemma JobParts(pack: Pack, known: Known, p: Pending)
    requires JobOk(pack, known, p)
    ensures p.at < |known| == |pack.entries| && known[p.at].None? && BaseOf(pack, known, p.at) == Some(p.base)
    ensures Derive(pack, known, p.at) == Decode(pack, p.at, p.base)
  {
  }

  /** One more entry known keeps everything known derivable and recorded. */
  lemma SoundGrows(pack: Pack, known: Known, rounds: nat, oids: seq<Oid>, resolved: map<Oid, Object>, at: nat,
                   o: Object)
    requires Injective(pack.codec) && Sound(pack, known, rounds, oids, resolved)
    requires at < |known| && known[at].None? && Derive(pack, known, at) == Some(o)
    ensures Sound(pack, known[at := Some(o)], rounds + 1, oids[at := pack.codec.hash(o)],
                  resolved[pack.codec.hash(o) := o])
  {
    hide Derive, Level, Injective;
    var after := known[at := Some(o)];
    forall i | 0 <= i < |after| && after[i].Some?
      ensures after[i] == Derive(pack, after, i) && Level(pack, rounds + 1)[i] == after[i]
    {
      DeriveStays(pack, known, after, i);
      DeriveStays(pack, known, Level(pack, rounds), i);
      LevelAt(pack, rounds, i);
    }
    forall i | 0 <= i < |after| && after[i].Some? && pack.codec.hash(after[i].value) == pack.codec.hash(o)
      ensures after[i].value == o
    {
      SameId(pack, after[i].value, o);
    }
  }

  lemma SameId(pack: Pack, a: Object, b: Object)
    requires Injective(pack.codec) && pack.codec.hash(a) == pack.codec.hash(b)
    ensures a == b
  {
  }

  /** With nothing queued and nothing running, nothing more can be derived. */
  lemma IdleIsSettled(pack: Pack, known: Known, rounds: nat, log: seq<nat>, byId: map<Oid, seq<nat>>,
                      oids: seq<Oid>, resolved: map<Oid, Object>)
    requires Driving(pack, known, rounds, [], log, byId, oids, resolved)
    ensures Settled(pack, known)
  {
    hide BaseOf, Decode, Waits, Level;
    forall i | 0 <= i < |known| ensures known[i] == Derive(pack, known, i) {
      assert known[i].None? ==> !Has(log, i);
    }
  }

  /** How the pass ends. */
  datatype Outcome =
    | Identified(oids: seq<Oid>, resolved: map<Oid, Object>)
    | Undecodable(at: nat)
    | Unresolved(identified: nat, entries: nat)

  /** Entry `i`'s base settles, and its bytes refuse it. */
  ghost predicate Refused(pack: Pack, i: nat)
    requires i < |pack.entries|
  {
    exists n: nat :: BaseOf(pack, Level(pack, n), i).Some? && Derive(pack, Level(pack, n), i).None?
  }

  /** Entry `i`'s base is neither in the pack nor already stored. */
  ghost predicate Stranded(pack: Pack, i: nat)
    requires i < |pack.entries|
  {
    forall n: nat :: BaseOf(pack, Level(pack, n), i).None?
  }

  ghost predicate IsSomething(pack: Pack, i: nat)
    requires i < |pack.entries|
  {
    exists o :: Is(pack, i, o)
  }

  ghost predicate AllAre(pack: Pack)
  {
    forall i :: 0 <= i < |pack.entries| ==> IsSomething(pack, i)
  }

  /** Each entry's id is its object's, and what is recorded under it is that object. */
  ghost predicate RightIds(pack: Pack, oids: seq<Oid>, resolved: map<Oid, Object>)
  {
    && |oids| == |pack.entries|
    && forall i, o :: 0 <= i < |oids| && Is(pack, i, o) ==>
         oids[i] == pack.codec.hash(o) && oids[i] in resolved && resolved[oids[i]] == o
  }

  lemma KnownIs(pack: Pack, known: Known, rounds: nat, i: nat)
    requires Grows(known, Level(pack, rounds)) && i < |known| == |pack.entries| && known[i].Some?
    ensures Is(pack, i, known[i].value)
  {
    hide Level;
    assert Level(pack, rounds)[i] == Some(known[i].value);
  }

  /** A settled driver knows exactly what the entries are. */
  lemma SettledKnows(pack: Pack, known: Known, rounds: nat, i: nat, o: Object)
    requires Injective(pack.codec) && Settled(pack, known) && Grows(known, Level(pack, rounds)) && i < |known|
    ensures Is(pack, i, o) <==> known[i] == Some(o)
  {
    hide Level, Injective, Derive;
    if Is(pack, i, o) {
      var n: nat :| Level(pack, n)[i] == Some(o);
      SettledIsAll(pack, known, n);
    }
    if known[i] == Some(o) {
      KnownIs(pack, known, rounds, i);
    }
  }

  lemma IdentifiedIsRight(pack: Pack, known: Known, rounds: nat, oids: seq<Oid>, resolved: map<Oid, Object>)
    requires Injective(pack.codec) && Settled(pack, known) && Sound(pack, known, rounds, oids, resolved)
    ensures RightIds(pack, oids, resolved)
    ensures AllAre(pack) <==> Count(known) == |known|
  {
    hide Injective, Settled, Is, Consistent, Grows;
    SameLength(pack, known);
    CountAll(known);
    forall i, o | 0 <= i < |oids| && Is(pack, i, o)
      ensures oids[i] == pack.codec.hash(o) && oids[i] in resolved && resolved[oids[i]] == o
    {
      SettledKnows(pack, known, rounds, i, o);
    }
    if AllAre(pack) {
      forall i | 0 <= i < |known| ensures known[i].Some? {
        assert IsSomething(pack, i);
        var o :| Is(pack, i, o);
        SettledKnows(pack, known, rounds, i, o);
      }
    }
    if Count(known) == |known| {
      forall i | 0 <= i < |pack.entries| ensures IsSomething(pack, i) {
        SettledKnows(pack, known, rounds, i, known[i].value);
      }
    }
  }

  lemma SameLength(pack: Pack, known: Known)
    requires Settled(pack, known)
    ensures |known| == |pack.entries|
  {
  }

  /** What an idle driver does not know is stranded. */
  lemma UnknownIsStranded(pack: Pack, known: Known, rounds: nat, log: seq<nat>, byId: map<Oid, seq<nat>>,
                          oids: seq<Oid>, resolved: map<Oid, Object>, i: nat)
    requires Injective(pack.codec) && Driving(pack, known, rounds, [], log, byId, oids, resolved)
    requires i < |known| == |pack.entries| && known[i].None?
    ensures Stranded(pack, i)
  {
    hide Injective, BaseOf, Derive, Level, Waits, Sound;
    assert !Has(log, i);
    IdleIsSettled(pack, known, rounds, log, byId, oids, resolved);
    forall n: nat ensures BaseOf(pack, Level(pack, n), i).None? {
      SettledIsAll(pack, known, n);
      if BaseOf(pack, Level(pack, n), i).Some? {
        BaseStays(pack, Level(pack, n), known, i);
      }
    }
  }

  lemma RefusedIs(pack: Pack, known: Known, rounds: nat, p: Pending)
    requires Injective(pack.codec) && Grows(known, Level(pack, rounds)) && JobOk(pack, known, p)
    requires Decode(pack, p.at, p.base).None?
    ensures Refused(pack, p.at) && !AllAre(pack)
  {
    hide Injective, BaseOf, Level, Is;
    BaseStays(pack, known, Level(pack, rounds), p.at);
    assert Derive(pack, Level(pack, rounds), p.at).None?;
    forall o ensures !Is(pack, p.at, o) {
      RefusedIsNothing(pack, known, rounds, p.at, o);
    }
    assert !IsSomething(pack, p.at);
  }

  /** Every entry is an object, is refused by its bytes, or is stranded, and only one of these. */
  lemma EveryEntryEnds(pack: Pack, i: nat)
    requires Injective(pack.codec) && i < |pack.entries|
    ensures IsSomething(pack, i) || Refused(pack, i) || Stranded(pack, i)
    ensures !(IsSomething(pack, i) && Refused(pack, i)) && !(IsSomething(pack, i) && Stranded(pack, i))
    ensures !(Refused(pack, i) && Stranded(pack, i))
  {
    hide Injective, BaseOf, Level, Decode;
    if !Stranded(pack, i) {
      var n: nat :| BaseOf(pack, Level(pack, n), i).Some?;
      LevelAt(pack, n, i);
      if Derive(pack, Level(pack, n), i).Some? {
        assert Is(pack, i, Derive(pack, Level(pack, n), i).value);
      }
    }
    if IsSomething(pack, i) {
      var o :| Is(pack, i, o);
      SomethingHasBase(pack, i, o);
      if Refused(pack, i) {
        var n: nat :| BaseOf(pack, Level(pack, n), i).Some? && Derive(pack, Level(pack, n), i).None?;
        LevelGrowsTo(pack, n, n);
        RefusedIsNothing(pack, Level(pack, n), n, i, o);
      }
    }
  }

  lemma SomethingHasBase(pack: Pack, i: nat, o: Object)
    requires i < |pack.entries| && Is(pack, i, o)
    ensures !Stranded(pack, i)
  {
    hide BaseOf, Level;
    var n: nat :| Level(pack, n)[i] == Some(o);
    if n == 0 {
      LevelAt(pack, 0, i);
    } else {
      LevelAt(pack, n - 1, i);
      assert BaseOf(pack, Level(pack, n - 1), i).Some?;
    }
  }

  // ------------------------------------------------------------ the methods

  /** Turns positional bases round. */
  method DependentsByIndex(pack: Pack) returns (byIndex: seq<seq<nat>>)
    ensures ByIndex(pack, byIndex)
  {
    byIndex := seq(|pack.entries|, _ => []);
    var at := 0;
    while at < |pack.entries|
      invariant at <= |pack.entries| && |byIndex| == |pack.entries|
      invariant forall j :: 0 <= j < |byIndex| ==> Distinct(byIndex[j])
      invariant forall j, i: nat {:trigger Has(byIndex[j], i)} :: 0 <= j < |byIndex| ==>
        (Has(byIndex[j], i) <==> i < at && pack.entries[i].base == InPack(j))
    {
      var base := pack.entries[at].base;
      if base.InPack? && base.at < |byIndex| {
        var was := byIndex[base.at];
        assert forall k :: 0 <= k < |was| ==> Has(was, was[k]);
        byIndex := byIndex[base.at := was + [at]];
        assert forall i: nat :: Has(was + [at], i) <==> Has(was, i) || i == at;
      }
      at := at + 1;
    }
  }

  /** Puts jobs for `blocked` ahead of the queue, the last of them foremost. */
  method PushFront(blocked: seq<nat>, base: JobBase, ready: seq<Pending>) returns (after: seq<Pending>)
    ensures after == Fronted(blocked, base) + ready
  {
    after := ready;
    var j := 0;
    while j < |blocked|
      invariant j <= |blocked| && after == Fronted(blocked[..j], base) + ready
    {
      after := [Pending(blocked[j], base)] + after;
      assert blocked[..j + 1] == blocked[..j] + [blocked[j]];
      assert Fronted(blocked[..j + 1], base) == [Pending(blocked[j], base)] + Fronted(blocked[..j], base);
      j := j + 1;
    }
    assert blocked[..j] == blocked;
  }

  /** Hands queued jobs to workers, from the front, until the window is full or
      nothing is queued: the running bytes are those of the running jobs, and
      only a job on its own may exceed the budget. */
  method Fill(pack: Pack, ready: seq<Pending>, inFlight: seq<Pending>, bytes: nat)
    returns (rest: seq<Pending>, running: seq<Pending>, spent: nat)
    requires Windowed(pack, inFlight, bytes)
    ensures |rest| <= |ready| && rest == ready[|ready| - |rest|..]
    ensures running == inFlight + ready[..|ready| - |rest|]
    ensures Windowed(pack, running, spent)
    ensures rest == [] || |running| == IN_FLIGHT_ENTRIES || (running != [] && spent >= IN_FLIGHT_BYTES)
  {
    hide Windowed;
    rest, running, spent := ready, inFlight, bytes;
    ghost var n := 0;
    while |running| < IN_FLIGHT_ENTRIES && (running == [] || spent < IN_FLIGHT_BYTES) && rest != []
      invariant n <= |ready| && rest == ready[n..] && running == inFlight + ready[..n]
      invariant Windowed(pack, running, spent)
      decreases |rest|
    {
      WindowAdmits(pack, running, spent, rest[0]);
      spent := spent + CostOf(pack, rest[0]);
      running := running + [rest[0]];
      rest := rest[1..];
      n := n + 1;
    }
    WindowIsBounded(pack, running, spent);
  }

  lemma WindowIsBounded(pack: Pack, inFlight: seq<Pending>, bytes: nat)
    requires Windowed(pack, inFlight, bytes)
    ensures |inFlight| <= IN_FLIGHT_ENTRIES
  {
  }

  /** Handing the first `n` queued jobs to workers leaves the same jobs open. */
  lemma {:induction false} DispatchesKeep(pack: Pack, known: Known, rounds: nat, ready: seq<Pending>,
                                          inFlight: seq<Pending>, n: nat, log: seq<nat>, byId: map<Oid, seq<nat>>,
                                          oids: seq<Oid>, resolved: map<Oid, Object>)
    requires n <= |ready| && Driving(pack, known, rounds, ready + inFlight, log, byId, oids, resolved)
    ensures Driving(pack, known, rounds, ready[n..] + (inFlight + ready[..n]), log, byId, oids, resolved)
    decreases n
  {
    hide *;
    if n == 0 {
      assert ready[0..] + (inFlight + ready[..0]) == ready + inFlight;
    } else {
      DispatchesKeep(pack, known, rounds, ready, inFlight, n - 1, log, byId, oids, resolved);
      DispatchKeeps(pack, known, rounds, ready[n - 1..], inFlight + ready[..n - 1], log, byId, oids, resolved);
      assert ready[n - 1..][1..] == ready[n..] && ready[n - 1..][0] == ready[n - 1];
      assert inFlight + ready[..n - 1] + [ready[n - 1]] == inFlight + ready[..n];
    }
  }

  /** Runs everything queued, and everything it unblocks, to completion.

      Workers finish in any order: which running job lands next is left open.
      The log names each entry as it is queued.
  */
  method Drain(pack: Pack, byIndex: seq<seq<nat>>, waiting: map<Oid, seq<nat>>, seeded: seq<Pending>,
               seen: map<Oid, Object>, ghost seedLog: seq<nat>)
    returns (r: Outcome, ghost log: seq<nat>)
    requires Injective(pack.codec) && ByIndex(pack, byIndex)
    requires Driving(pack, Level(pack, 0), 0, seeded, seedLog, waiting, seq(|pack.entries|, _ => 0), seen)
    ensures QueuedOnce(pack, log)
    ensures r.Identified? <==> AllAre(pack)
    ensures r.Identified? ==> RightIds(pack, r.oids, r.resolved) && AddsTo(seen, r.oids, r.resolved)
    ensures r.Identified? ==> forall i: nat :: i < |pack.entries| ==> Has(log, i)
    ensures r.Undecodable? ==> r.at < |pack.entries| && Refused(pack, r.at) && Has(log, r.at)
    ensures r.Unresolved? ==> r.identified == |log| < r.entries == |pack.entries|
    ensures r.Unresolved? ==> forall i: nat :: i < |pack.entries| ==> (Has(log, i) <==> !Stranded(pack, i))
    ensures r.Unresolved? ==> exists i :: 0 <= i < |pack.entries| && Stranded(pack, i)
  {
    hide *;
    var byId, ready := waiting, seeded;
    var inFlight: seq<Pending> := [];
    var inFlightBytes: nat := 0;
    var identified := 0;
    var oids := seq(|pack.entries|, _ => 0);
    var resolved := seen;
    ghost var known, rounds := Level(pack, 0), 0;
    log := seedLog;
    assert ready + inFlight == ready;
    CountNone(pack);
    WindowStart(pack);
    AddsNothing(pack, seen);
    while true
      invariant Driving(pack, known, rounds, ready + inFlight, log, byId, oids, resolved)
      invariant Windowed(pack, inFlight, inFlightBytes)
      invariant identified == Count(known) && |known| == |pack.entries|
      invariant Adds(pack, known, seen, resolved)
      decreases |pack.entries| - identified
    {
      var rest, running, spent := Fill(pack, ready, inFlight, inFlightBytes);
      DispatchesKeep(pack, known, rounds, ready, inFlight, |ready| - |rest|, log, byId, oids, resolved);
      ready, inFlight, inFlightBytes := rest, running, spent;
      DrivingParts(pack, known, rounds, ready + inFlight, log, byId, oids, resolved);
      LogParts(pack, known, ready + inFlight, log);
      if inFlight == [] {
        assert ready + inFlight == [];
        IdleIsSettled(pack, known, rounds, log, byId, oids, resolved);
        IdentifiedIsRight(pack, known, rounds, oids, resolved);
        QueuedIsLogged(pack, known, rounds, ready + inFlight, log);
        IdleIsLogged(pack, known, rounds, log, byId, oids, resolved);
        CountIsLogged(pack, known, log);
        if identified == |pack.entries| {
          AllAreLogged(pack, log);
          CountAll(known);
          AddsAll(pack, known, rounds, oids, seen, resolved);
          return Identified(oids, resolved), log;
        }
        SomeUnknown(pack, known, rounds, log, byId, oids, resolved);
        CountAll(known);
        return Unresolved(identified, |pack.entries|), log;
      }
      var k :| 0 <= k < |inFlight|;
      var job := inFlight[k];
      TakeJob(pack, known, ready, inFlight, k);
      JobParts(pack, known, job);
      var done := Decode(pack, job.at, job.base);
      if done.None? {
        RefusedIs(pack, known, rounds, job);
        QueuedIsLogged(pack, known, rounds, ready + inFlight, log);
        JobIsLogged(pack, known, ready + inFlight, log, job);
        return Undecodable(job.at), log;
      }
      var o := done.value;
      WindowReleases(pack, inFlight, inFlightBytes, k);
      LandKeeps(pack, known, rounds, ready, inFlight, k, log, byIndex, byId, oids, resolved, o);
      AddsOne(pack, known, seen, resolved, job.at, o);
      CountOne(known, job.at, o);
      CountAll(known[job.at := Some(o)]);
      identified := identified + 1;
      inFlightBytes := inFlightBytes - CostOf(pack, job);
      inFlight := inFlight[..k] + inFlight[k + 1..];
      oids := oids[job.at := pack.codec.hash(o)];
      resolved := resolved[pack.codec.hash(o) := o];
      var blocked := Blocked(pack, byIndex, byId, job.at, o);
      var after := PushFront(blocked, OnObject(o), ready);
      assert after + inFlight == Fronted(blocked, OnObject(o)) + (ready + inFlight);
      ready := after;
      byId := byId - {pack.codec.hash(o)};
      known, rounds, log := known[job.at := Some(o)], rounds + 1, log + blocked;
    }
  }

  lemma CountNone(pack: Pack)
    ensures Count(Level(pack, 0)) == 0
  {
    NoneCounts(|pack.entries|);
    assert Level(pack, 0) == Blank(|pack.entries|);
  }

  ghost function Blank(n: nat): Known
  {
    seq(n, _ => None)
  }

  lemma {:induction false} NoneCounts(n: nat)
    ensures Count(Blank(n)) == 0
  {
    if n > 0 {
      NoneCounts(n - 1);
      assert Blank(n)[..n - 1] == Blank(n - 1);
    }
  }

  lemma WindowStart(pack: Pack)
    ensures Windowed(pack, [], 0) && IN_FLIGHT_ENTRIES > 0
  {
  }

  lemma LogParts(pack: Pack, known: Known, jobs: seq<Pending>, log: seq<nat>)
    requires Enqueued(pack, known, jobs, log)
    ensures Distinct(log)
  {
  }

  lemma SomeUnknown(pack: Pack, known: Known, rounds: nat, log: seq<nat>, byId: map<Oid, seq<nat>>,
                    oids: seq<Oid>, resolved: map<Oid, Object>)
    requires Injective(pack.codec) && Driving(pack, known, rounds, [], log, byId, oids, resolved)
    requires Count(known) != |known| && |known| == |pack.entries|
    ensures exists i :: 0 <= i < |pack.entries| && Stranded(pack, i)
  {
    hide Driving, Injective, Stranded, Count;
    CountAll(known);
    var i :| 0 <= i < |known| && known[i].None?;
    UnknownIsStranded(pack, known, rounds, log, byId, oids, resolved, i);
  }

  // ------------------------------------------------------ what was recorded

  /** What is recorded is what was already, and the entries' objects under their ids. */
  ghost predicate AddsTo(seen: map<Oid, Object>, oids: seq<Oid>, resolved: map<Oid, Object>)
  {
    && (forall id :: id in resolved <==> id in seen || id in oids)
    && (forall id :: id in seen && id !in oids && id in resolved ==> resolved[id] == seen[id])
  }

  ghost predicate KnownAs(pack: Pack, known: Known, id: Oid)
  {
    exists i :: 0 <= i < |known| && known[i].Some? && pack.codec.hash(known[i].value) == id
  }

  ghost predicate Adds(pack: Pack, known: Known, seen: map<Oid, Object>, resolved: map<Oid, Object>)
  {
    && (forall id :: id in resolved <==> id in seen || KnownAs(pack, known, id))
    && (forall id :: id in seen && !KnownAs(pack, known, id) && id in resolved ==> resolved[id] == seen[id])
  }

  lemma AddsNothing(pack: Pack, seen: map<Oid, Object>)
    ensures Adds(pack, Level(pack, 0), seen, seen)
  {
    assert Level(pack, 0) == Blank(|pack.entries|);
  }

  lemma AddsOne(pack: Pack, known: Known, seen: map<Oid, Object>, resolved: map<Oid, Object>, at: nat, o: Object)
    requires Adds(pack, known, seen, resolved) && at < |known| && known[at].None?
    ensures Adds(pack, known[at := Some(o)], seen, resolved[pack.codec.hash(o) := o])
  {
    var after := known[at := Some(o)];
    forall id ensures KnownAs(pack, after, id) <==> KnownAs(pack, known, id) || id == pack.codec.hash(o) {
      if KnownAs(pack, known, id) {
        var i :| 0 <= i < |known| && known[i].Some? && pack.codec.hash(known[i].value) == id;
        assert after[i] == known[i];
      }
      assert after[at] == Some(o);
    }
  }

  lemma AddsAll(pack: Pack, known: Known, rounds: nat, oids: seq<Oid>, seen: map<Oid, Object>,
                resolved: map<Oid, Object>)
    requires Adds(pack, known, seen, resolved) && Sound(pack, known, rounds, oids, resolved)
    requires forall i :: 0 <= i < |known| ==> known[i].Some?
    ensures AddsTo(seen, oids, resolved)
  {
    hide Consistent, Grows, Level;
    forall id ensures KnownAs(pack, known, id) <==> id in oids {
      if id in oids {
        var i :| 0 <= i < |oids| && oids[i] == id;
        assert pack.codec.hash(known[i].value) == id;
      }
    }
  }

  // -------------------------------------------------------- what was queued

  /** No entry was queued twice, and each had a base to start from. */
  ghost predicate QueuedOnce(pack: Pack, log: seq<nat>)
  {
    Distinct(log) && forall i: nat :: Has(log, i) ==> i < |pack.entries| && !Stranded(pack, i)
  }

  lemma QueuedIsLogged(pack: Pack, known: Known, rounds: nat, jobs: seq<Pending>, log: seq<nat>)
    requires Injective(pack.codec) && Grows(known, Level(pack, rounds)) && Enqueued(pack, known, jobs, log)
    ensures QueuedOnce(pack, log)
  {
    hide Injective, Level, BaseOf, Grows;
    forall i: nat | Has(log, i) ensures i < |pack.entries| && !Stranded(pack, i) {
      BaseStays(pack, known, Level(pack, rounds), i);
      assert BaseOf(pack, Level(pack, rounds), i).Some?;
    }
  }

  /** Once idle, whatever was never queued has no base. */
  lemma IdleIsLogged(pack: Pack, known: Known, rounds: nat, log: seq<nat>, byId: map<Oid, seq<nat>>,
                     oids: seq<Oid>, resolved: map<Oid, Object>)
    requires Injective(pack.codec) && Driving(pack, known, rounds, [], log, byId, oids, resolved)
    requires QueuedOnce(pack, log)
    ensures |known| == |pack.entries|
    ensures forall i: nat :: i < |pack.entries| ==> (Has(log, i) <==> known[i].Some?)
    ensures forall i: nat :: i < |pack.entries| ==> (Has(log, i) <==> !Stranded(pack, i))
  {
    hide Injective, BaseOf, Level, Waits, Sound, Stranded;
    assert Sound(pack, known, rounds, oids, resolved) && Enqueued(pack, known, [], log);
    forall i: nat | i < |pack.entries|
      ensures (Has(log, i) <==> known[i].Some?) && (Has(log, i) <==> !Stranded(pack, i))
    {
      if known[i].Some? {
        KnownIsLogged(pack, known, rounds, oids, resolved, i);
      } else {
        UnknownIsStranded(pack, known, rounds, log, byId, oids, resolved, i);
      }
    }
  }

  lemma KnownIsLogged(pack: Pack, known: Known, rounds: nat, oids: seq<Oid>, resolved: map<Oid, Object>, i: nat)
    requires Sound(pack, known, rounds, oids, resolved) && i < |known| == |pack.entries| && known[i].Some?
    ensures BaseOf(pack, known, i).Some?
  {
    hide BaseOf, Level, Grows;
    KnownHasBase(pack, known, i);
  }

  lemma JobIsLogged(pack: Pack, known: Known, jobs: seq<Pending>, log: seq<nat>, p: Pending)
    requires Enqueued(pack, known, jobs, log) && JobOk(pack, known, p)
    ensures Has(log, p.at)
  {
    hide BaseOf;
  }

  lemma AllAreLogged(pack: Pack, log: seq<nat>)
    requires AllAre(pack) && forall i: nat :: i < |pack.entries| ==> (Has(log, i) <==> !Stranded(pack, i))
    ensures forall i: nat :: i < |pack.entries| ==> Has(log, i)
  {
    hide Stranded, Is;
    forall i: nat | i < |pack.entries| ensures Has(log, i) {
      assert IsSomething(pack, i);
      var o :| Is(pack, i, o);
      SomethingHasBase(pack, i, o);
    }
  }

  /** As many entries were identified as were queued. */
  lemma CountIsLogged(pack: Pack, known: Known, log: seq<nat>)
    requires |known| == |pack.entries| && QueuedOnce(pack, log)
    requires forall i: nat :: i < |pack.entries| ==> (Has(log, i) <==> known[i].Some?)
    ensures Count(known) == |log|
  {
    hide Stranded;
    KnownSet(known);
    LogSet(log);
    assert (set i: nat | i in log) == set i: nat | i < |known| && known[i].Some? by {
      forall i: nat ensures i in log <==> i < |known| && known[i].Some? {
        assert Has(log, i) <==> i in log;
      }
    }
  }

  lemma {:induction false} KnownSet(known: Known)
    ensures Count(known) == |set i: nat | i < |known| && known[i].Some?|
  {
    var all := set i: nat | i < |known| && known[i].Some?;
    if known == [] {
      assert all == {};
    } else {
      var last: nat, front := |known| - 1, known[..|known| - 1];
      KnownSet(front);
      var most := set i: nat | i < |front| && front[i].Some?;
      assert all == if known[last].Some? then most + {last} else most;
    }
  }

  lemma {:induction false} LogSet(log: seq<nat>)
    requires Distinct(log)
    ensures |set i: nat | i in log| == |log|
  {
    var all := set i: nat | i in log;
    if log == [] {
      assert all == {};
    } else {
      var front := log[..|log| - 1];
      LogSet(front);
      assert all == (set i: nat | i in front) + {log[|log| - 1]};
    }
  }

  // --------------------------------------------------------------- seeding

  function Ats(jobs: seq<Pending>): (log: seq<nat>)
  {
    seq(|jobs|, k requires 0 <= k < |jobs| => jobs[k].at)
  }

  /** The first `n` entries are seeded: those with a base queued, those on an
      unknown id waiting for it. */
  ghost predicate SeededTo(pack: Pack, n: nat, ready: seq<Pending>, byId: map<Oid, seq<nat>>)
    requires n <= |pack.entries|
  {
    && JobsOk(pack, Level(pack, 0), ready) && Apart(ready)
    && (forall k :: 0 <= k < |ready| ==> ready[k].at < n)
    && (forall i :: 0 <= i < n && BaseOf(pack, Level(pack, 0), i).Some? ==> Open(ready, i))
    && (forall id :: id in byId ==> Distinct(byId[id]))
    && (forall id, i: nat {:trigger Has(byId[id], i)} :: id in byId && Has(byId[id], i) ==> i < n && OnId(pack, i, id))
    && (forall i: nat, id {:trigger OnId(pack, i, id)} :: i < n && OnId(pack, i, id) ==> id in byId && Has(byId[id], i))
  }

  /** Before anything lands, only whole entries and those on a stored base have one. */
  lemma FirstBase(pack: Pack, i: nat)
    requires i < |pack.entries|
    ensures var base := pack.entries[i].base;
      BaseOf(pack, Level(pack, 0), i) ==
      match base
      case Whole(kind) => Some(JobBase(kind, None))
      case InPack(_) => None
      case Ref(id) => if id in pack.repo then Some(OnObject(pack.repo[id])) else None
  {
    var none := Level(pack, 0);
    assert forall j :: 0 <= j < |none| ==> none[j].None?;
    if pack.entries[i].base.Ref? {
      forall o ensures !Named(pack, none, pack.entries[i].base.id, o) {
      }
    }
  }

  lemma SeedReady(pack: Pack, n: nat, ready: seq<Pending>, byId: map<Oid, seq<nat>>, base: JobBase)
    requires n < |pack.entries| && SeededTo(pack, n, ready, byId)
    requires BaseOf(pack, Level(pack, 0), n) == Some(base)
    ensures SeededTo(pack, n + 1, ready + [Pending(n, base)], byId)
  {
    hide BaseOf, Level;
    var p := Pending(n, base);
    var more := ready + [p];
    assert JobOk(pack, Level(pack, 0), p) by { LevelAt(pack, 0, n); }
    FirstBase(pack, n);
    forall i | 0 <= i < n + 1 && BaseOf(pack, Level(pack, 0), i).Some? ensures Open(more, i) {
      if i == n {
        assert more[|ready|].at == n;
      } else {
        var k :| 0 <= k < |ready| && ready[k].at == i;
        assert more[k].at == i;
      }
    }
  }

  lemma SeedWaits(pack: Pack, n: nat, ready: seq<Pending>, byId: map<Oid, seq<nat>>, id: Oid)
    requires n < |pack.entries| && SeededTo(pack, n, ready, byId) && OnId(pack, n, id)
    ensures SeededTo(pack, n + 1, ready, byId[id := WaitersOf(byId, id) + [n]])
  {
    hide BaseOf, Level, JobsOk, Apart, Open;
    FirstBase(pack, n);
    var was := WaitersOf(byId, id);
    var more := byId[id := was + [n]];
    assert forall k :: 0 <= k < |was| ==> Has(was, was[k]);
    assert forall i: nat :: Has(was + [n], i) <==> Has(was, i) || i == n;
    forall d, i: nat | d in more && Has(more[d], i) ensures i < n + 1 && OnId(pack, i, d) {
      if d != id {
        assert Has(byId[d], i);
      }
    }
  }

  lemma SeededDrives(pack: Pack, ready: seq<Pending>, byId: map<Oid, seq<nat>>, seen: map<Oid, Object>)
    requires SeededTo(pack, |pack.entries|, ready, byId)
    ensures Driving(pack, Level(pack, 0), 0, ready, Ats(ready), byId, seq(|pack.entries|, _ => 0), seen)
  {
    hide BaseOf;
    var log, none := Ats(ready), Level(pack, 0);
    forall i: nat ensures Has(log, i) <==> Open(ready, i) {
      if Open(ready, i) {
        var k :| 0 <= k < |ready| && ready[k].at == i;
        assert log[k] == i;
      }
    }
    forall i: nat, id | i < |pack.entries| && OnId(pack, i, id) ensures !Has(log, i) {
      FirstBase(pack, i);
    }
  }

  /** Identifies every entry the scan located.

      For every order of completion: no entry is queued twice, the pass succeeds
      exactly when every entry is some object, and then its ids and kinds are
      those of the definition.
  */
  method IdentifyEntries(pack: Pack, seen: map<Oid, Object>) returns (r: Outcome, ghost log: seq<nat>)
    requires Injective(pack.codec)
    ensures QueuedOnce(pack, log)
    ensures r.Identified? <==> AllAre(pack)
    ensures r.Identified? ==> RightIds(pack, r.oids, r.resolved) && AddsTo(seen, r.oids, r.resolved)
    ensures r.Identified? ==> forall i: nat :: i < |pack.entries| ==> Has(log, i)
    ensures r.Undecodable? ==> r.at < |pack.entries| && Refused(pack, r.at) && Has(log, r.at)
    ensures r.Unresolved? ==> r.identified == |log| < r.entries == |pack.entries|
    ensures r.Unresolved? ==> forall i: nat :: i < |pack.entries| ==> (Has(log, i) <==> !Stranded(pack, i))
    ensures r.Unresolved? ==> exists i :: 0 <= i < |pack.entries| && Stranded(pack, i)
  {
    hide Injective, BaseOf, Level, SeededTo;
    var byIndex := DependentsByIndex(pack);
    var byId: map<Oid, seq<nat>> := map[];
    var ready: seq<Pending> := [];
    var at := 0;
    NothingSeeded(pack);
    while at < |pack.entries|
      invariant at <= |pack.entries| && SeededTo(pack, at, ready, byId)
    {
      FirstBase(pack, at);
      match pack.entries[at].base {
        case Whole(kind) =>
          SeedReady(pack, at, ready, byId, JobBase(kind, None));
          ready := ready + [Pending(at, JobBase(kind, None))];
        case InPack(_) =>
          SeedSkips(pack, at, ready, byId);
        case Ref(id) =>
          if id in pack.repo {
            SeedReady(pack, at, ready, byId, OnObject(pack.repo[id]));
            ready := ready + [Pending(at, OnObject(pack.repo[id]))];
          } else {
            SeedWaits(pack, at, ready, byId, id);
            byId := byId[id := WaitersOf(byId, id) + [at]];
          }
      }
      at := at + 1;
    }
    SeededDrives(pack, ready, byId, seen);
    r, log := Drain(pack, byIndex, byId, ready, seen, Ats(ready));
  }

  lemma NothingSeeded(pack: Pack)
    ensures SeededTo(pack, 0, [], map[])
  {
  }

  lemma SeedSkips(pack: Pack, n: nat, ready: seq<Pending>, byId: map<Oid, seq<nat>>)
    requires n < |pack.entries| && SeededTo(pack, n, ready, byId) && pack.entries[n].base.InPack?
    ensures SeededTo(pack, n + 1, ready, byId)
  {
    FirstBase(pack, n);
  }
}
