// packages/evidence/src/store.ts: copy part arithmetic, the sized copy and promotion of a staged
// object to its content-addressed key. Keys carry the fields their path segments spell out.
module Store {
  import opened Wrappers
  import opened Merkle

  // SHA-256 as lowercase hexadecimal; uninterpreted.
  type Digest = Bytes -> string

  datatype Key =
    | Staging(tenant: string, uuid: string)
    | Original(tenant: string, sha256: string)
    | Quarantine(tenant: string, sha256: string)

  type Objects = map<Key, Bytes>

  datatype PromoteError =
    | KeyValidation | DestinationDiffers | StagingMissing | SizeMismatch | CopyFailed | CopyNotVerified

  datatype Job = Job(tenant: string, source: Key, sha256: string, size: int, quarantine: bool)

  function Dest(tenant: string, sha256: string, quarantine: bool): Key {
    if quarantine then Quarantine(tenant, sha256) else Original(tenant, sha256)
  }

  predicate Permanent(k: Key) {
    !k.Staging?
  }

  predicate ValidJob(job: Job) {
    && job.source.tenant == job.tenant && job.source.Staging?
    && IsSha256Hex(job.sha256) && job.size >= 0
  }

  // ----- parts of a server-side copy -----

  const MAX_SINGLE_PART_COPY_BYTES: nat := 5 * 1024 * 1024 * 1024
  const COPY_PART_BYTES: nat := 512 * 1024 * 1024
  const MAX_COPY_PARTS: nat := 10000

  function CopyPartSize(size: nat): (p: nat)
    ensures p >= COPY_PART_BYTES && MAX_COPY_PARTS * p >= size
    ensures p == COPY_PART_BYTES || MAX_COPY_PARTS * (p - 1) < size
  {
    var scaled := (size + MAX_COPY_PARTS - 1) / MAX_COPY_PARTS;
    if scaled > COPY_PART_BYTES then scaled else COPY_PART_BYTES
  }

  // One UploadPartCopy request; the range is inclusive at both ends.
  datatype PartRequest = PartRequest(partNumber: nat, first: nat, last: nat)

  function PartRequests(start: nat, size: nat, partSize: nat, partNumber: nat): (r: seq<PartRequest>)
    requires partSize > 0
    decreases size - start
  {
    if start >= size then []
    else
      var end := (if start + partSize < size then start + partSize else size) - 1;
      [PartRequest(partNumber, start, end)] + PartRequests(start + partSize, size, partSize, partNumber + 1)
  }

  lemma NextRequest(start: nat, size: nat, partSize: nat, partNumber: nat)
    requires partSize > 0 && start < size
    ensures PartRequests(start, size, partSize, partNumber) ==
            [PartRequest(partNumber, start, Min(start + partSize, size) - 1)] + PartRequests(start + partSize, size, partSize, partNumber + 1)
  {
  }

  lemma NoRequests(start: nat, size: nat, partSize: nat, partNumber: nat)
    requires partSize > 0 && start >= size
    ensures PartRequests(start, size, partSize, partNumber) == []
  {
  }

  // The requests are numbered consecutively, each starts where the one before it ended, the first
  // starts at `start`, the last ends at the last byte, and none is empty or longer than a part.
  lemma {:induction false} RequestsTile(start: nat, size: nat, partSize: nat, partNumber: nat)
    requires partSize > 0
    ensures var r := PartRequests(start, size, partSize, partNumber);
            && (r == [] <==> start >= size)
            && (r != [] ==> r[0].first == start && r[|r| - 1].last == size - 1)
            && (forall i :: 0 <= i < |r| ==> r[i].partNumber == partNumber + i)
            && (forall i :: 0 <= i < |r| ==> 0 < r[i].last + 1 - r[i].first <= partSize)
            && (forall i :: 0 <= i < |r| - 1 ==>
                  r[i + 1].first == r[i].last + 1 && r[i].last + 1 - r[i].first == partSize)
    decreases size - start
  {
    if start < size {
      var rest := PartRequests(start + partSize, size, partSize, partNumber + 1);
      var first := PartRequest(partNumber, start, Min(start + partSize, size) - 1);
      RequestsTile(start + partSize, size, partSize, partNumber + 1);
      NextRequest(start, size, partSize, partNumber);
      hide PartRequests;
      var r := PartRequests(start, size, partSize, partNumber);
      assert r == [first] + rest && first.first == start && first.last == Min(start + partSize, size) - 1;
      forall i | 0 <= i < |r|
        ensures r[i].partNumber == partNumber + i && 0 < r[i].last + 1 - r[i].first <= partSize
      {
        if i > 0 { assert r[i] == rest[i - 1]; }
      }
      forall i | 0 <= i < |r| - 1
        ensures r[i + 1].first == r[i].last + 1 && r[i].last + 1 - r[i].first == partSize
      {
        assert r[i + 1] == rest[i];
        if i > 0 { assert r[i] == rest[i - 1]; }
      }
    }
  }

  lemma {:induction false} RequestCount(start: nat, size: nat, partSize: nat, partNumber: nat, budget: nat)
    requires partSize > 0 && size <= start + budget * partSize
    ensures |PartRequests(start, size, partSize, partNumber)| <= budget
    decreases size - start
  {
    if start < size {
      assert budget == 0 ==> budget * partSize == 0;
      assert budget * partSize == (budget - 1) * partSize + partSize;
      RequestCount(start + partSize, size, partSize, partNumber + 1, budget - 1);
    }
  }

  // However large the object, copying it takes at most the 10,000 parts the provider allows; up to
  // 5 TiB no part exceeds the 5 GiB a single copy may move.
  lemma CopyFitsLimits(size: nat)
    ensures |PartRequests(0, size, CopyPartSize(size), 1)| <= MAX_COPY_PARTS
    ensures size <= 5 * 1024 * 1024 * 1024 * 1024 ==> CopyPartSize(size) <= MAX_SINGLE_PART_COPY_BYTES
  {
    RequestCount(0, size, CopyPartSize(size), 1, MAX_COPY_PARTS);
  }

  // ----- promotion, run alone -----

  // What the copy leaves at the destination; None when the provider refuses it.
  function CopyContent(objects: Objects, source: Key, size: nat): Option<Bytes> {
    if source !in objects then None
    else if size <= MAX_SINGLE_PART_COPY_BYTES then Some(objects[source])
    else if size > |objects[source]| then None
    else Some(objects[source][..size])
  }

  function Promote(objects: Objects, job: Job): (Result<Key, PromoteError>, Objects) {
    var dest := Dest(job.tenant, job.sha256, job.quarantine);
    if !ValidJob(job) then (Err(KeyValidation), objects)
    else if dest in objects then
      if |objects[dest]| != job.size then (Err(DestinationDiffers), objects)
      else (Ok(dest), objects - {job.source})
    else if job.source !in objects then (Err(StagingMissing), objects)
    else if |objects[job.source]| != job.size then (Err(SizeMismatch), objects)
    else (Ok(dest), objects[dest := objects[job.source]] - {job.source})
  }

  // A second run of the same promotion answers the same and changes nothing.
  lemma PromoteIdempotent(objects: Objects, job: Job)
    ensures var (r, after) := Promote(objects, job);
            Promote(after, job) == (r, after)
  {
    var dest := Dest(job.tenant, job.sha256, job.quarantine);
    var (r, after) := Promote(objects, job);
    if r.Ok? {
      assert dest in after && |after[dest]| == job.size;
      assert after - {job.source} == after;
    }
  }

  // No object is overwritten, only the named staging object is ever deleted, and only when the
  // destination then holds an object of the expected size; a failed promotion changes nothing.
  lemma PromotePreserves(objects: Objects, job: Job)
    ensures var (r, after) := Promote(objects, job);
            && (r.Err? ==> after == objects)
            && (forall k | k in objects && k != job.source :: k in after && after[k] == objects[k])
            && (forall k | k in after :: k in objects || r == Ok(k))
            && (r.Ok? ==> r.value in after && |after[r.value]| == job.size && job.source !in after)
  {
  }

  // Promotion compares sizes, not bytes: a successful one leaves the staged bytes at the destination
  // exactly when nothing was there before or the same bytes were.
  lemma HoldsStagedExactly(objects: Objects, job: Job)
    requires Promote(objects, job).0.Ok? && job.source in objects
    ensures var (r, after) := Promote(objects, job);
            after[r.value] == objects[job.source] <==> r.value !in objects || objects[r.value] == objects[job.source]
  {
  }

  // So the destination hashes to its key exactly when what was there before did, or, where nothing was,
  // when the caller's digest is the digest of the staged bytes.
  lemma DigestIsTheCallers(sha: Digest, objects: Objects, job: Job)
    requires Promote(objects, job).0.Ok?
    ensures var (r, after) := Promote(objects, job);
            sha(after[r.value]) == r.value.sha256 <==>
            if r.value in objects then sha(objects[r.value]) == r.value.sha256 else sha(objects[job.source]) == job.sha256
  {
  }

  // The staged bytes are still stored somewhere exactly when the destination was free or another object
  // held them already.
  lemma BytesSurviveExactly(objects: Objects, job: Job)
    requires Promote(objects, job).0.Ok? && job.source in objects
    ensures var (r, after) := Promote(objects, job);
            (exists k :: k in after && after[k] == objects[job.source]) <==>
            r.value !in objects || exists k :: k in objects && k != job.source && objects[k] == objects[job.source]
  {
    var (r, after) := Promote(objects, job);
    if k :| k in objects && k != job.source && objects[k] == objects[job.source] {
      assert k in after && after[k] == objects[job.source];
    }
    if r.value !in objects {
      assert r.value in after && after[r.value] == objects[job.source];
    }
    if k :| k in after && after[k] == objects[job.source] {
      assert k != job.source;
      assert k in objects || k == r.value;
    }
  }

  // A digest that is not the staged object's is not noticed: where its key is free, the object is stored
  // under it.
  lemma WrongDigestIsAccepted(sha: Digest, objects: Objects, job: Job)
    requires ValidJob(job) && job.source in objects && |objects[job.source]| == job.size
    requires sha(objects[job.source]) != job.sha256 && Dest(job.tenant, job.sha256, job.quarantine) !in objects
    ensures var (r, after) := Promote(objects, job);
            r.Ok? && r.value.sha256 == job.sha256 && after[r.value] == objects[job.source] && sha(after[r.value]) != r.value.sha256
  {
  }

  // And it costs a later, honest upload of the same size its bytes: both promotions succeed, and no
  // object holds them.
  lemma WrongDigestLosesLater(sha: Digest, tenant: string, wrong: Bytes, honest: Bytes, u: string, v: string)
    requires IsSha256Hex(sha(honest)) && |wrong| == |honest| && wrong != honest && u != v
    ensures var k, l := Staging(tenant, u), Staging(tenant, v);
            var (first, between) := Promote(map[k := wrong, l := honest], Job(tenant, k, sha(honest), |wrong|, false));
            var (second, after) := Promote(between, Job(tenant, l, sha(honest), |honest|, false));
            first.Ok? && second.Ok? && forall x :: x in after ==> after[x] != honest
  {
  }

  class EvidenceObjectStore {
    var objects: Objects
    // The part copies the provider has been asked for.
    var requests: seq<PartRequest>

    constructor ()
      ensures objects == map[] && requests == []
    {
      objects, requests := map[], [];
    }

    // stageStream; the provider shows an uploaded object whole or not at all.
    method StageStream(sha: Digest, tenant: string, uuid: string, body: Bytes) returns (key: Key, digest: string, size: nat)
      modifies this`objects
      ensures key == Staging(tenant, uuid) && objects == old(objects)[key := body]
      ensures digest == sha(objects[key]) && size == |objects[key]|
    {
      key := Staging(tenant, uuid);
      objects := objects[key := body];
      digest, size := sha(body), |body|;
    }

    method HeadOrNull(key: Key) returns (size: Option<nat>)
      ensures size == if key in objects then Some(|objects[key]|) else None
    {
      size := if key in objects then Some(|objects[key]|) else None;
    }

    method CopySized(source: Key, dest: Key, size: nat) returns (ok: bool)
      modifies this
      ensures ok == CopyContent(old(objects), source, size).Some?
      ensures objects == if ok then old(objects)[dest := CopyContent(old(objects), source, size).value] else old(objects)
      ensures ok && size > MAX_SINGLE_PART_COPY_BYTES ==>
                requests == old(requests) + PartRequests(0, size, CopyPartSize(size), 1)
      ensures ok && size <= MAX_SINGLE_PART_COPY_BYTES ==> requests == old(requests)
    {
      if size <= MAX_SINGLE_PART_COPY_BYTES {
        if source !in objects { return false; }
        objects := objects[dest := objects[source]];
        return true;
      }
      var upload, sent := CopyParts(objects, source, size, CopyPartSize(size));
      requests := requests + sent;
      if upload.None? { return false; }
      objects := objects[dest := upload.value];
      return true;
    }

    // The part loop: what it uploads and the requests it sends.
    static method CopyParts(objects: Objects, source: Key, size: nat, partSize: nat)
      returns (upload: Option<Bytes>, sent: seq<PartRequest>)
      requires size > 0 && partSize > 0
      ensures upload == if source in objects && size <= |objects[source]| then Some(objects[source][..size]) else None
      ensures upload.Some? ==> sent == PartRequests(0, size, partSize, 1)
    {
      hide PartRequests;
      var parts: Bytes := [];
      var partNumber, start := 1, 0;
      sent := [];
      ghost var content := if source in objects then objects[source] else [];
      while start < size
        invariant start > 0 ==> source in objects && Min(start, size) <= |content|
        invariant start == 0 ==> parts == []
        invariant start > 0 ==> parts == content[..Min(start, size)]
        invariant PartRequests(0, size, partSize, 1) == sent + PartRequests(start, size, partSize, partNumber)
        decreases size - start
      {
        var end := Min(start + partSize, size) - 1;
        NextRequest(start, size, partSize, partNumber);
        ghost var before, rest := sent, PartRequests(start + partSize, size, partSize, partNumber + 1);
        sent := sent + [PartRequest(partNumber, start, end)];
        assert before + ([PartRequest(partNumber, start, end)] + rest) == sent + rest;
        if source !in objects || end >= |objects[source]| { return None, sent; }
        assert content[..end + 1] == content[..start] + content[start..end + 1];
        parts := parts + objects[source][start..end + 1];
        partNumber := partNumber + 1;
        start := start + partSize;
      }
      NoRequests(start, size, partSize, partNumber);
      return Some(parts), sent;
    }

    method PromoteToOriginal(job: Job) returns (r: Result<Key, PromoteError>)
      modifies this
      ensures (r, objects) == Promote(old(objects), job)
    {
      if job.source.tenant != job.tenant || !job.source.Staging? || !IsSha256Hex(job.sha256) || job.size < 0 {
        return Err(KeyValidation);
      }
      var dest := Dest(job.tenant, job.sha256, job.quarantine);
      var existing := HeadOrNull(dest);
      if existing.Some? {
        if existing.value != job.size { return Err(DestinationDiffers); }
        objects := objects - {job.source};
        return Ok(dest);
      }
      var staged := HeadOrNull(job.source);
      if staged.None? { return Err(StagingMissing); }
      if staged.value != job.size { return Err(SizeMismatch); }
      assert objects[job.source][..job.size] == objects[job.source];
      var ok := CopySized(job.source, dest, job.size);
      if !ok { return Err(CopyFailed); }
      var copied := HeadOrNull(dest);
      if copied.None? || copied.value != job.size { return Err(CopyNotVerified); }
      objects := objects - {job.source};
      return Ok(dest);
    }
  }
}
