// The stage -> verify -> promote protocol of packages/evidence/src/store.ts under every interleaving
// of promoters, each of which may fail or crash between any two provider calls.
module StoreProtocol {
  import opened Wrappers
  import opened Merkle
  import opened Store

  // Where a promoter stands between two provider calls.
  datatype Pc =
    | Start
    | NoDest                                         // destination looked up: absent
    | Hit                                            // destination looked up: right size
    | Single                                         // staged size checked; one CopyObject follows
    | Parts(start: nat, partNumber: nat, upload: Bytes)  // multipart copy under way
    | Copied
    | Verified
    | Done
    | Failed(error: PromoteError)

  datatype Promoter = Promoter(job: Job, pc: Pc)

  function DestOf(job: Job): Key {
    Dest(job.tenant, job.sha256, job.quarantine)
  }

  predicate Stopped(p: Promoter) {
    p.pc.Done? || p.pc.Failed?
  }

  // One provider call of one promoter, and the code up to the next call.
  function Advance(objects: Objects, p: Promoter): (Objects, Promoter)
    requires !Stopped(p)
  {
    var job, dest := p.job, DestOf(p.job);
    match p.pc
    case Start =>
      if !ValidJob(job) then (objects, p.(pc := Failed(KeyValidation)))
      else if dest !in objects then (objects, p.(pc := NoDest))
      else if |objects[dest]| != job.size then (objects, p.(pc := Failed(DestinationDiffers)))
      else (objects, p.(pc := Hit))
    case NoDest =>
      if job.source !in objects then (objects, p.(pc := Failed(StagingMissing)))
      else if |objects[job.source]| != job.size then (objects, p.(pc := Failed(SizeMismatch)))
      else if job.size <= MAX_SINGLE_PART_COPY_BYTES then (objects, p.(pc := Single))
      else (objects, p.(pc := Parts(0, 1, [])))
    case Single =>
      if job.source !in objects then (objects, p.(pc := Failed(CopyFailed)))
      else (objects[dest := objects[job.source]], p.(pc := Copied))
    case Parts(start, partNumber, upload) =>
      if start >= job.size then (objects[dest := upload], p.(pc := Copied))
      else
        var partSize := CopyPartSize(job.size);
        var end := Min(start + partSize, job.size) - 1;
        if job.source !in objects || end >= |objects[job.source]| || start > end + 1 then (objects, p.(pc := Failed(CopyFailed)))
        else
          (objects, p.(pc := Parts(start + partSize, partNumber + 1, upload + objects[job.source][start..end + 1])))
    case Copied =>
      if dest !in objects || |objects[dest]| != job.size then (objects, p.(pc := Failed(CopyNotVerified)))
      else (objects, p.(pc := Verified))
    case Hit => (objects - {job.source}, p.(pc := Done))
    case Verified => (objects - {job.source}, p.(pc := Done))
  }

  // ----- the system: an object map, the promoters running on it, and what was ever staged -----

  datatype State = State(objects: Objects, staged: Objects, promoters: map<nat, Promoter>)

  datatype Step =
    | Stage(tenant: string, uuid: string, body: Bytes)
    | Begin(id: nat, job: Job)
    | Act(id: nat)
    | Fail(id: nat, error: PromoteError)
    | Crash(id: nat)

  // The job names a staged upload by the digest and size stageStream returned for it.
  predicate Honest(sha: Digest, staged: Objects, job: Job) {
    && job.source.Staging? && job.source in staged && job.tenant == job.source.tenant
    && job.sha256 == sha(staged[job.source]) && job.size == |staged[job.source]|
  }

  // A fresh uuid is never handed out twice, and an id names one promoter.
  predicate Enabled(sha: Digest, s: State, step: Step) {
    match step
    case Stage(tenant, uuid, _) => Staging(tenant, uuid) !in s.staged
    case Begin(id, job) => id !in s.promoters && Honest(sha, s.staged, job)
    case Act(id) => id in s.promoters && !Stopped(s.promoters[id])
    case Fail(id, _) => id in s.promoters && !Stopped(s.promoters[id])
    case Crash(id) => id in s.promoters
  }

  function Next(s: State, step: Step): State
    requires step.Act? ==> step.id in s.promoters && !Stopped(s.promoters[step.id])
    requires step.Fail? ==> step.id in s.promoters
  {
    match step
    case Stage(tenant, uuid, body) =>
      var k := Staging(tenant, uuid);
      s.(objects := s.objects[k := body], staged := s.staged[k := body])
    case Begin(id, job) => s.(promoters := s.promoters[id := Promoter(job, Start)])
    case Act(id) =>
      var (objects, p) := Advance(s.objects, s.promoters[id]);
      s.(objects := objects, promoters := s.promoters[id := p])
    case Fail(id, e) => s.(promoters := s.promoters[id := s.promoters[id].(pc := Failed(e))])
    case Crash(id) => s.(promoters := s.promoters - {id})
  }

  // ----- the invariant -----

  // No two different uploads have the same digest. Where it fails, the two uploads are the collision.
  predicate NoCollision(sha: Digest, staged: Objects) {
    forall a, b | a in staged && b in staged && sha(staged[a]) == sha(staged[b]) :: staged[a] == staged[b]
  }

  // An object at a content-addressed key is an upload of that digest.
  predicate Addressed(sha: Digest, s: State, k: Key)
    requires k in s.objects
  {
    if k.Staging? then k in s.staged && s.objects[k] == s.staged[k]
    else sha(s.objects[k]) == k.sha256 && exists a :: a in s.staged && s.staged[a] == s.objects[k]
  }

  predicate InStep(sha: Digest, s: State, p: Promoter) {
    && Honest(sha, s.staged, p.job)
    && (p.pc.Hit? || p.pc.Copied? || p.pc.Verified? || p.pc.Done? ==> DestOf(p.job) in s.objects)
    && (p.pc.Single? ==> p.job.size <= MAX_SINGLE_PART_COPY_BYTES)
    && (p.pc.Parts? ==> p.pc.upload == s.staged[p.job.source][..Min(p.pc.start, p.job.size)])
  }

  // An upload is still staged, or its original or quarantined object exists.
  predicate Kept(sha: Digest, s: State, k: Key)
    requires k in s.staged
  {
    k in s.objects || exists q :: Dest(k.tenant, sha(s.staged[k]), q) in s.objects
  }

  predicate Inv(sha: Digest, s: State) {
    && (forall k | k in s.staged :: k.Staging? && Kept(sha, s, k))
    && (forall k | k in s.objects :: Addressed(sha, s, k))
    && (forall id | id in s.promoters :: InStep(sha, s, s.promoters[id]))
  }

  lemma AddressedContent(sha: Digest, s: State, k: Key, a: Key)
    requires NoCollision(sha, s.staged) && k in s.objects && Permanent(k) && Addressed(sha, s, k)
    requires a in s.staged && sha(s.staged[a]) == k.sha256
    ensures s.objects[k] == s.staged[a]
  {
    var b :| b in s.staged && s.staged[b] == s.objects[k];
  }

  // What a promoter writes to its destination is the upload its job names.
  lemma CopyIsTheUpload(sha: Digest, s: State, p: Promoter)
    requires Inv(sha, s) && InStep(sha, s, p) && !Stopped(p)
    ensures var (objects, q) := Advance(s.objects, p);
            && InStep(sha, s.(objects := objects), q)
            && (q.pc.Copied? ==> objects == s.objects[DestOf(p.job) := s.staged[p.job.source]])
            && (!q.pc.Copied? && !q.pc.Done? ==> objects == s.objects)
            && (q.pc.Done? ==> objects == s.objects - {p.job.source} && DestOf(p.job) in s.objects)
  {
    var job := p.job;
    var src := s.staged[job.source];
    assert job.source in s.objects ==> Addressed(sha, s, job.source);
    match p.pc
    case Parts(start, partNumber, upload) =>
      if start >= job.size {
        assert src[..job.size] == src;
      } else {
        var end := Min(start + CopyPartSize(job.size), job.size);
        assert src[..end] == src[..start] + src[start..end];
      }
    case _ =>
  }

  // Permanent objects stay as they are; only staging objects are ever deleted, and each of those
  // only once a permanent object holds its bytes.
  ghost predicate Stable(sha: Digest, s: State, t: State) {
    && (forall k | k in s.staged :: k in t.staged && t.staged[k] == s.staged[k])
    && (forall k | k in s.objects && Permanent(k) :: k in t.objects && t.objects[k] == s.objects[k])
    && (forall k | k in s.objects && k !in t.objects ::
          exists q :: Dest(k.tenant, sha(s.objects[k]), q) in t.objects
                      && t.objects[Dest(k.tenant, sha(s.objects[k]), q)] == s.objects[k])
  }

  lemma InStepLater(sha: Digest, s: State, t: State, p: Promoter)
    requires InStep(sha, s, p) && s.staged == t.staged
    requires forall k | k in s.objects && Permanent(k) :: k in t.objects
    ensures InStep(sha, t, p)
  {
    assert Permanent(DestOf(p.job));
  }

  lemma WriteKeeps(sha: Digest, s: State, id: nat, q: Promoter, t: State)
    requires Inv(sha, s) && NoCollision(sha, s.staged) && id in s.promoters && Honest(sha, s.staged, q.job)
    requires t == State(s.objects[DestOf(q.job) := s.staged[q.job.source]], s.staged, s.promoters[id := q])
    requires InStep(sha, t, q)
    ensures Inv(sha, t) && Stable(sha, s, t)
  {
    var dest := DestOf(q.job);
    if dest in s.objects {
      assert Addressed(sha, s, dest);
      AddressedContent(sha, s, dest, q.job.source);
    }
    forall k | k in t.objects
      ensures Addressed(sha, t, k)
    {
      if k != dest { assert Addressed(sha, s, k); }
    }
    forall u | u in t.promoters
      ensures InStep(sha, t, t.promoters[u])
    {
      if u != id { InStepLater(sha, s, t, s.promoters[u]); }
    }
    forall k | k in t.staged
      ensures k.Staging? && Kept(sha, t, k)
    {
      assert Kept(sha, s, k);
    }
  }

  lemma DeleteKeeps(sha: Digest, s: State, id: nat, q: Promoter, t: State)
    requires Inv(sha, s) && NoCollision(sha, s.staged) && id in s.promoters && Honest(sha, s.staged, q.job)
    requires t == State(s.objects - {q.job.source}, s.staged, s.promoters[id := q])
    requires InStep(sha, t, q) && DestOf(q.job) in s.objects
    ensures Inv(sha, t) && Stable(sha, s, t)
  {
    var source, dest := q.job.source, DestOf(q.job);
    assert Addressed(sha, s, dest);
    AddressedContent(sha, s, dest, source);
    assert dest == Dest(source.tenant, sha(s.staged[source]), q.job.quarantine);
    assert source in s.objects ==> Addressed(sha, s, source);
    forall k | k in t.objects
      ensures Addressed(sha, t, k)
    {
      assert Addressed(sha, s, k);
    }
    forall u | u in t.promoters
      ensures InStep(sha, t, t.promoters[u])
    {
      if u != id { InStepLater(sha, s, t, s.promoters[u]); }
    }
    forall k | k in t.staged
      ensures k.Staging? && Kept(sha, t, k)
    {
      assert Kept(sha, s, k);
      if k == source { assert dest in t.objects; }
      if k !in s.objects {
        var b :| Dest(k.tenant, sha(s.staged[k]), b) in s.objects;
        assert Dest(k.tenant, sha(s.staged[k]), b) in t.objects;
      }
    }
  }

  lemma SameObjectsKeep(sha: Digest, s: State, t: State)
    requires Inv(sha, s) && t.objects == s.objects && t.staged == s.staged
    requires forall u | u in t.promoters :: InStep(sha, t, t.promoters[u])
    ensures Inv(sha, t) && Stable(sha, s, t)
  {
    forall k | k in t.objects
      ensures Addressed(sha, t, k)
    {
      assert Addressed(sha, s, k);
    }
    forall k | k in t.staged
      ensures Kept(sha, t, k)
    {
      assert Kept(sha, s, k);
    }
  }

  lemma OthersInStep(sha: Digest, s: State, t: State, id: nat, q: Promoter)
    requires Inv(sha, s) && t == s.(promoters := s.promoters[id := q]) && InStep(sha, t, q)
    ensures forall u | u in t.promoters :: InStep(sha, t, t.promoters[u])
  {
    forall u | u in t.promoters
      ensures InStep(sha, t, t.promoters[u])
    {
      if u != id { InStepLater(sha, s, t, s.promoters[u]); }
    }
  }

  lemma ActKeeps(sha: Digest, s: State, id: nat)
    requires Inv(sha, s) && NoCollision(sha, s.staged) && Enabled(sha, s, Act(id))
    ensures Inv(sha, Next(s, Act(id))) && Stable(sha, s, Next(s, Act(id)))
  {
    var p := s.promoters[id];
    var t := Next(s, Act(id));
    assert InStep(sha, s, p);
    CopyIsTheUpload(sha, s, p);
    var (objects, q) := Advance(s.objects, p);
    assert q.job == p.job && Honest(sha, s.staged, q.job);
    InStepLater(sha, s.(objects := objects), t, q);
    hide Advance, InStep, Inv, Honest, Stable, Next;
    assert t == State(objects, s.staged, s.promoters[id := q]);
    if q.pc.Copied? { WriteKeeps(sha, s, id, q, t); }
    else if q.pc.Done? { DeleteKeeps(sha, s, id, q, t); }
    else {
      OthersInStep(sha, s, t, id, q);
      SameObjectsKeep(sha, s, t);
    }
  }

  lemma StageKeeps(sha: Digest, s: State, step: Step)
    requires Inv(sha, s) && Enabled(sha, s, step) && step.Stage?
    ensures Inv(sha, Next(s, step)) && Stable(sha, s, Next(s, step))
  {
    var t, key := Next(s, step), Staging(step.tenant, step.uuid);
    assert key in s.objects ==> Addressed(sha, s, key);
    forall k | k in t.objects
      ensures Addressed(sha, t, k)
    {
      if k != key {
        assert Addressed(sha, s, k);
        if Permanent(k) {
          var a :| a in s.staged && s.staged[a] == s.objects[k];
          assert a in t.staged && t.staged[a] == t.objects[k];
        }
      }
    }
    forall k | k in t.staged
      ensures k.Staging? && Kept(sha, t, k)
    {
      if k != key {
        assert Kept(sha, s, k);
        if k !in s.objects {
          var b :| Dest(k.tenant, sha(s.staged[k]), b) in s.objects;
          assert Dest(k.tenant, sha(t.staged[k]), b) in t.objects;
        }
      }
    }
  }

  // Every step of every promoter, failure or crash keeps the invariant and every permanent object.
  lemma StepKeeps(sha: Digest, s: State, step: Step)
    requires Inv(sha, s) && NoCollision(sha, s.staged) && Enabled(sha, s, step)
    ensures Inv(sha, Next(s, step)) && Stable(sha, s, Next(s, step))
  {
    var t := Next(s, step);
    match step
    case Stage(_, _, _) => StageKeeps(sha, s, step);
    case Act(id) => ActKeeps(sha, s, id);
    case Begin(id, job) =>
      OthersInStep(sha, s, t, id, Promoter(job, Start));
      SameObjectsKeep(sha, s, t);
    case Fail(id, e) =>
      assert InStep(sha, s, s.promoters[id]);
      OthersInStep(sha, s, t, id, s.promoters[id].(pc := Failed(e)));
      SameObjectsKeep(sha, s, t);
    case Crash(id) =>
      forall u | u in t.promoters
        ensures InStep(sha, t, t.promoters[u])
      {
        assert InStep(sha, s, s.promoters[u]);
      }
      SameObjectsKeep(sha, s, t);
  }

  // ----- whole runs -----

  const EMPTY := State(map[], map[], map[])

  predicate Possible(sha: Digest, s: State, steps: seq<Step>)
    decreases |steps|
  {
    steps == [] || (Enabled(sha, s, steps[0]) && Possible(sha, Next(s, steps[0]), steps[1..]))
  }

  function Run(sha: Digest, s: State, steps: seq<Step>): State
    requires Possible(sha, s, steps)
    decreases |steps|
  {
    if steps == [] then s else Run(sha, Next(s, steps[0]), steps[1..])
  }

  predicate Extends(s: Objects, t: Objects) {
    forall k | k in s :: k in t && t[k] == s[k]
  }

  // Uploads are only ever added, so a run without a collision at its end had none before.
  lemma {:induction false} UploadsStay(sha: Digest, s: State, steps: seq<Step>)
    requires Possible(sha, s, steps)
    ensures Extends(s.staged, Run(sha, s, steps).staged)
    decreases |steps|
  {
    if steps != [] {
      UploadsStay(sha, Next(s, steps[0]), steps[1..]);
    }
  }

  lemma {:induction false} RunKeeps(sha: Digest, s: State, steps: seq<Step>)
    requires Inv(sha, s) && Possible(sha, s, steps) && NoCollision(sha, Run(sha, s, steps).staged)
    ensures var t := Run(sha, s, steps);
            Inv(sha, t) && forall k | k in s.objects && Permanent(k) :: k in t.objects && t.objects[k] == s.objects[k]
    decreases |steps|
  {
    if steps != [] {
      UploadsStay(sha, s, steps);
      assert NoCollision(sha, s.staged);
      StepKeeps(sha, s, steps[0]);
      hide Inv, Next, NoCollision;
      RunKeeps(sha, Next(s, steps[0]), steps[1..]);
    }
  }

  // After any run from nothing: every content-addressed object hashes to its key; every upload is
  // still staged or stored under its digest, byte for byte; a finished promoter's destination holds
  // the upload it promoted; and whatever runs next, the stored objects stay. Or else two different
  // uploads of the run have the same digest.
  lemma PromotionIsSafe(sha: Digest, steps: seq<Step>, more: seq<Step>)
    requires Possible(sha, EMPTY, steps) && Possible(sha, Run(sha, EMPTY, steps), more)
    ensures var s := Run(sha, EMPTY, steps);
            var t := Run(sha, s, more);
            !NoCollision(sha, t.staged) ||
            ((forall k | k in s.objects && Permanent(k) ::
               sha(s.objects[k]) == k.sha256 && k in t.objects && t.objects[k] == s.objects[k]) &&
             (forall k | k in s.staged ::
               (k in s.objects && s.objects[k] == s.staged[k]) ||
               exists q :: var d := Dest(k.tenant, sha(s.staged[k]), q); d in s.objects && s.objects[d] == s.staged[k]) &&
             (forall id | id in s.promoters && s.promoters[id].pc.Done? ::
               var p := s.promoters[id];
               DestOf(p.job) in s.objects && p.job.source in s.staged && s.objects[DestOf(p.job)] == s.staged[p.job.source]))
  {
    var s := Run(sha, EMPTY, steps);
    var t := Run(sha, s, more);
    if NoCollision(sha, t.staged) {
      UploadsStay(sha, s, more);
      assert NoCollision(sha, s.staged);
      RunKeeps(sha, EMPTY, steps);
      RunKeeps(sha, s, more);
      hide Run, Possible;
      forall k | k in s.objects && Permanent(k)
        ensures sha(s.objects[k]) == k.sha256
      {
        assert Addressed(sha, s, k);
      }
      forall k | k in s.staged && !(k in s.objects && s.objects[k] == s.staged[k])
        ensures exists q :: var d := Dest(k.tenant, sha(s.staged[k]), q); d in s.objects && s.objects[d] == s.staged[k]
      {
        assert Kept(sha, s, k);
        assert k in s.objects ==> Addressed(sha, s, k);
        var q :| Dest(k.tenant, sha(s.staged[k]), q) in s.objects;
        assert Addressed(sha, s, Dest(k.tenant, sha(s.staged[k]), q));
        AddressedContent(sha, s, Dest(k.tenant, sha(s.staged[k]), q), k);
      }
      forall id | id in s.promoters && s.promoters[id].pc.Done?
        ensures var p := s.promoters[id];
                DestOf(p.job) in s.objects && p.job.source in s.staged && s.objects[DestOf(p.job)] == s.staged[p.job.source]
      {
        var p := s.promoters[id];
        assert InStep(sha, s, p);
        assert Addressed(sha, s, DestOf(p.job));
        AddressedContent(sha, s, DestOf(p.job), p.job.source);
      }
    }
  }

  // ----- one promoter left alone is the promotion the method performs -----

  function Remaining(p: Promoter): nat
    requires p.job.size >= 0
  {
    match p.pc
    case Start => p.job.size + 6
    case NoDest => p.job.size + 5
    case Single => 3
    case Parts(start, _, _) => 3 + if start < p.job.size then p.job.size - start else 0
    case Copied => 2
    case Verified => 1
    case Hit => 1
    case Done => 0
    case Failed(_) => 0
  }

  function Alone(objects: Objects, p: Promoter): (Objects, Promoter)
    requires p.job.size >= 0
    decreases Remaining(p)
  {
    if Stopped(p) then (objects, p)
    else
      var (o, q) := Advance(objects, p);
      Alone(o, q)
  }

  function Outcome(r: Result<Key, PromoteError>): Pc {
    match r
    case Ok(_) => Done
    case Err(e) => Failed(e)
  }

  lemma {:induction false} PartsAlone(objects: Objects, p: Promoter)
    requires p.pc.Parts? && ValidJob(p.job) && p.job.source in objects && |objects[p.job.source]| == p.job.size
    requires p.pc.upload == objects[p.job.source][..Min(p.pc.start, p.job.size)]
    ensures Alone(objects, p) ==
            (objects[DestOf(p.job) := objects[p.job.source]] - {p.job.source}, p.(pc := Done))
    decreases Remaining(p)
  {
    var src, job, start := objects[p.job.source], p.job, p.pc.start;
    if start < job.size {
      var end := Min(start + CopyPartSize(job.size), job.size);
      assert src[..end] == src[..start] + src[start..end];
      var q := p.(pc := Parts(start + CopyPartSize(job.size), p.pc.partNumber + 1, src[..end]));
      assert Advance(objects, p) == (objects, q);
      PartsAlone(objects, q);
    } else {
      assert src[..job.size] == src;
      CopiedAlone(objects, p);
    }
  }

  lemma CopiedAlone(objects: Objects, p: Promoter)
    requires !Stopped(p) && ValidJob(p.job) && p.job.source in objects && |objects[p.job.source]| == p.job.size
    requires Advance(objects, p) == (objects[DestOf(p.job) := objects[p.job.source]], p.(pc := Copied))
    ensures Alone(objects, p) ==
            (objects[DestOf(p.job) := objects[p.job.source]] - {p.job.source}, p.(pc := Done))
  {
    var o := objects[DestOf(p.job) := objects[p.job.source]];
    assert Advance(o, p.(pc := Copied)) == (o, p.(pc := Verified));
    assert Advance(o, p.(pc := Verified)) == (o - {p.job.source}, p.(pc := Done));
    assert Alone(o, p.(pc := Verified)) == (o - {p.job.source}, p.(pc := Done));
    assert Alone(o, p.(pc := Copied)) == Alone(o, p.(pc := Verified));
  }

  lemma AloneIsPromote(objects: Objects, job: Job)
    requires job.size >= 0
    ensures var (r, after) := Promote(objects, job);
            Alone(objects, Promoter(job, Start)) == (after, Promoter(job, Outcome(r)))
  {
    var p := Promoter(job, Start);
    var (o, q) := Advance(objects, p);
    assert o == objects && Alone(objects, p) == Alone(o, q);
    if q.pc.NoDest? {
      var (o2, q2) := Advance(objects, q);
      assert o2 == objects && Alone(objects, q) == Alone(objects, q2);
      if q2.pc.Single? {
        CopiedAlone(objects, q2);
      } else if q2.pc.Parts? {
        assert objects[job.source][..0] == [];
        PartsAlone(objects, q2);
      }
    } else if q.pc.Hit? {
      var q2 := q.(pc := Done);
      assert Advance(objects, q) == (objects - {job.source}, q2);
      assert Alone(objects, q) == Alone(objects - {job.source}, q2);
    }
  }

  // Whatever was interrupted can be finished: run again alone, an honest promotion succeeds exactly
  // when its upload is still staged or its destination is already there.
  lemma InterruptedPromotionResumes(sha: Digest, s: State, job: Job)
    requires Inv(sha, s) && NoCollision(sha, s.staged) && Honest(sha, s.staged, job)
    requires IsSha256Hex(job.sha256)
    ensures Promote(s.objects, job).0.Ok? <==> job.source in s.objects || DestOf(job) in s.objects
    ensures Promote(s.objects, job).0.Ok? ==>
              var (r, after) := Promote(s.objects, job);
              r.value in after && after[r.value] == s.staged[job.source]
  {
    assert job.source in s.objects ==> Addressed(sha, s, job.source);
    if DestOf(job) in s.objects {
      assert Addressed(sha, s, DestOf(job));
      AddressedContent(sha, s, DestOf(job), job.source);
    }
  }
}
