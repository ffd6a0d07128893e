/** Acquiring a published snapshot: the manifest at its pinned generation and digest,
    then every blob at the generation the manifest records. */
module SnapshotRestore {
  import opened Wrappers
  import opened Paths
  import opened InputScan
  import opened InventoryScan
  import opened SnapshotManifest
  import opened SnapshotPublication
  import B = ObjectBucket

  datatype Request = Request(bucket: string, name: string, generation: B.Generation, hash: string,
                             snapshotId: string, specId: string, session: string)

  datatype Blob = Blob(published: B.Published, content: Bytes)

  datatype Acquired = Acquired(request: Request, manifest: Manifest, blobs: seq<Blob>)

  predicate RequestOk(request: Request) {
    request.name == ManifestNameOf(request.session, request.specId, request.snapshotId)
  }

  predicate Matches(f: Format, m: Manifest, request: Request) {
    && m.bucket == request.bucket && m.specId == request.specId && m.session == request.session
    && SnapshotId(f, m) == request.snapshotId && ManifestName(f, m) == request.name
  }

  /** The pinned manifest bytes, when they are stored, answer and check out. */
  function PinnedManifest(objects: B.Objects, f: Format, request: Request, answers: string -> bool): Option<Manifest> {
    var payload := B.ReadGeneration(objects, request.name, request.generation);
    if answers(request.name) && payload.Some? && 0 < |payload.value| <= MAXIMUM_ENCODED_BYTES
       && f.digest(payload.value) == request.hash
       && f.decode(payload.value).Some? && Matches(f, f.decode(payload.value).value, request)
    then f.decode(payload.value) else None
  }

  /** Exactly when acquiring succeeds. */
  ghost predicate Acquirable(objects: B.Objects, f: Format, request: Request, answers: string -> bool) {
    && RequestOk(request)
    && PinnedManifest(objects, f, request, answers).Some?
    && forall p :: p in PinnedManifest(objects, f, request, answers).value.blobs ==>
         answers(p.name) && B.Pinned(objects, f.digest, p)
  }

  /** An acquired blob is what its published object says. */
  predicate BlobOk(f: Format, b: Blob) {
    && 0 < |b.content| <= MAXIMUM_FILE_BYTES
    && |b.content| == b.published.size && f.digest(b.content) == b.published.hash
  }

  /** A whole acquired snapshot: exactly the manifest's blobs, each with its content. */
  ghost predicate AcquiredOk(f: Format, a: Acquired) {
    && Accepted(a.manifest) && Matches(f, a.manifest, a.request)
    && |a.blobs| == |a.manifest.blobs|
    && forall k :: 0 <= k < |a.blobs| ==> a.blobs[k].published == a.manifest.blobs[k] && BlobOk(f, a.blobs[k])
  }

  /** An accepted manifest's blobs are as large as files may be. */
  lemma BlobSizes(m: Manifest, p: B.Published)
    requires ValidManifest(m) && p in m.blobs
    ensures 0 < p.size <= MAXIMUM_FILE_BYTES
  {
    assert HasEntry(m.inventory.entries, p);
    var e :| e in m.inventory.entries && e.hash == p.hash && e.size == p.size;
    var i :| 0 <= i < |m.inventory.entries| && m.inventory.entries[i] == e;
    assert EntryOk(m.inventory.entries[i]);
  }

  /** Every blob at its pinned generation, in the manifest's order. */
  method AcquireBlobs(objects: B.Objects, f: Format, listed: seq<B.Published>, answers: string -> bool)
    returns (r: Option<seq<Blob>>)
    requires forall p :: p in listed ==> 0 < p.size <= MAXIMUM_FILE_BYTES
    ensures r.Some? <==> forall p :: p in listed ==> answers(p.name) && B.Pinned(objects, f.digest, p)
    ensures r.Some? ==>
      |r.value| == |listed| && forall k :: 0 <= k < |listed| ==> r.value[k].published == listed[k] && BlobOk(f, r.value[k])
  {
    var blobs: seq<Blob> := [];
    for k := 0 to |listed|
      invariant |blobs| == k
      invariant forall j :: 0 <= j < k ==> blobs[j].published == listed[j] && BlobOk(f, blobs[j])
      invariant forall p :: p in listed[..k] ==> answers(p.name) && B.Pinned(objects, f.digest, p)
    {
      var p := listed[k];
      assert p in listed && listed[..k + 1] == listed[..k] + [p];
      var payload := B.ReadGeneration(objects, p.name, p.generation);
      if !answers(p.name) || payload.None? || !BlobOk(f, Blob(p, payload.value)) {
        return None;
      }
      blobs := blobs + [Blob(p, payload.value)];
    }
    assert listed[..|listed|] == listed;
    r := Some(blobs);
  }

  /** The whole acquisition succeeds exactly when the manifest is stored as pinned and
      every blob it names is stored as recorded. */
  method Acquire(objects: B.Objects, f: Format, request: Request, answers: string -> bool)
    returns (r: Option<Acquired>)
    requires Sound(f)
    ensures r.Some? <==> Acquirable(objects, f, request, answers)
    ensures r.Some? ==> AcquiredOk(f, r.value) && r.value.request == request
    ensures r.Some? ==> PinnedManifest(objects, f, request, answers) == Some(r.value.manifest)
  {
    var pinned := PinnedManifest(objects, f, request, answers);
    if !RequestOk(request) || pinned.None? {
      return None;
    }
    var m := pinned.value;
    forall p | p in m.blobs
      ensures 0 < p.size <= MAXIMUM_FILE_BYTES
    {
      BlobSizes(m, p);
    }
    var blobs := AcquireBlobs(objects, f, m.blobs, answers);
    r := if blobs.Some? then Some(Acquired(request, m, blobs.value)) else None;
  }

  /** The request that pins a completed publication. */
  function RequestFor(f: Format, c: Completed): Request {
    Request(c.manifest.bucket, c.stored.name, c.stored.generation, c.stored.hash,
            SnapshotId(f, c.manifest), c.manifest.specId, c.manifest.session)
  }

  /** A completed publication can be acquired ever after, as published. */
  lemma PublishedIsAcquirable(before: B.Objects, objects: B.Objects, f: Format, run: Run, inventory: Inventory,
                              c: Completed, answers: string -> bool)
    requires Sound(f) && Complete(before, f, run, inventory, c)
    requires B.Grows(before, objects)
    requires answers(c.stored.name) && forall p :: p in c.manifest.blobs ==> answers(p.name)
    ensures Acquirable(objects, f, RequestFor(f, c), answers)
    ensures PinnedManifest(objects, f, RequestFor(f, c), answers) == Some(c.manifest)
  {
    var request := RequestFor(f, c);
    var payload := B.ReadGeneration(objects, request.name, request.generation);
    assert payload == Some(f.encode(c.manifest));
    forall p | p in c.manifest.blobs
      ensures answers(p.name) && B.Pinned(objects, f.digest, p)
    {
      B.PinnedForever(before, objects, f.digest, p);
    }
  }

  /** The accepted manifest is stored under the request's name, at its generation and with
      its digest, and carries the IDs the request pins. */
  ghost predicate StoredManifest(objects: B.Objects, f: Format, request: Request, m: Manifest) {
    && request.name in objects && objects[request.name] == B.Stored(request.generation, f.encode(m))
    && f.digest(f.encode(m)) == request.hash && 0 < |f.encode(m)| <= 16_777_216 && Accepted(m)
    && m.bucket == request.bucket && m.session == request.session && m.specId == request.specId
    && f.digest(f.body(m)) == request.snapshotId
    && request.name == Join(["promoted-operational-input", "v1", m.session, m.specId, "manifests",
                             request.snapshotId + ".json"])
  }

  /** The blob is stored at the generation, size and digest recorded for it. */
  predicate StoredBlob(objects: B.Objects, f: Format, p: B.Published) {
    && p.name in objects && objects[p.name].generation == p.generation
    && |objects[p.name].content| == p.size && f.digest(objects[p.name].content) == p.hash
  }

  /** The one manifest a request can acquire, if any. */
  lemma PinnedIff(objects: B.Objects, f: Format, request: Request, answers: string -> bool, m: Manifest)
    requires Sound(f)
    ensures PinnedManifest(objects, f, request, answers) == Some(m)
       <==> answers(request.name) && StoredManifest(objects, f, request, m)
  {
    if StoredManifest(objects, f, request, m) {
      assert Encodable(f, m);
    }
  }

  /** Exactly what can be acquired: an accepted manifest stored as the request pins it, each
      of whose blobs is stored as the manifest records it, as long as these objects answer. */
  lemma AcquirableIff(objects: B.Objects, f: Format, request: Request, answers: string -> bool)
    requires Sound(f)
    ensures Acquirable(objects, f, request, answers) <==>
              && answers(request.name)
              && exists m :: (&& StoredManifest(objects, f, request, m)
                              && forall p :: p in m.blobs ==> answers(p.name) && StoredBlob(objects, f, p))
  {
    forall m
      ensures PinnedManifest(objects, f, request, answers) == Some(m)
         <==> answers(request.name) && StoredManifest(objects, f, request, m)
    {
      PinnedIff(objects, f, request, answers, m);
    }
    if Acquirable(objects, f, request, answers) {
      var m := PinnedManifest(objects, f, request, answers).value;
      assert StoredManifest(objects, f, request, m);
    }
  }
}
