/** The snapshot manifest: object names, validation, and the invariant a bucket of
    snapshots keeps. */
module SnapshotManifest {
  import opened Wrappers
  import opened Paths
  import opened StringOrder
  import opened InputScan
  import opened InventoryScan
  import B = ObjectBucket

  const MAXIMUM_ENCODED_BYTES: nat := 16 * 1024 * 1024

  datatype Manifest = Manifest(bucket: string, specId: string, session: string,
                               inventory: Inventory, blobs: seq<B.Published>)

  /** The digest and the manifest's codec; `body` is the encoding without the snapshot ID. */
  datatype Format = Format(digest: Digest, body: Manifest -> Bytes, encode: Manifest -> Bytes,
                           decode: Bytes -> Option<Manifest>)

  function BlobName(session: string, specId: string, hash: string): string {
    Join(["promoted-operational-input", "v1", session, specId, "blobs", hash])
  }

  function ManifestNameOf(session: string, specId: string, snapshotId: string): string {
    Join(["promoted-operational-input", "v1", session, specId, "manifests", snapshotId + ".json"])
  }

  function SnapshotId(f: Format, m: Manifest): string {
    f.digest(f.body(m))
  }

  function ManifestName(f: Format, m: Manifest): string {
    ManifestNameOf(m.session, m.specId, SnapshotId(f, m))
  }

  lemma BlobNameInjective(s: string, i: string, h: string, s': string, i': string, h': string)
    requires NoSlash(s) && NoSlash(i) && NoSlash(h) && NoSlash(s') && NoSlash(i') && NoSlash(h')
    ensures BlobName(s, i, h) == BlobName(s', i', h') ==> s == s' && i == i' && h == h'
  {
    var a := ["promoted-operational-input", "v1", s, i, "blobs", h];
    var b := ["promoted-operational-input", "v1", s', i', "blobs", h'];
    JoinInjective(a, b);
    if a == b {
      assert a[2] == b[2] && a[3] == b[3] && a[5] == b[5];
    }
  }

  lemma ManifestNameInjective(s: string, i: string, h: string, s': string, i': string, h': string)
    requires NoSlash(s) && NoSlash(i) && NoSlash(h) && NoSlash(s') && NoSlash(i') && NoSlash(h')
    ensures ManifestNameOf(s, i, h) == ManifestNameOf(s', i', h') ==> s == s' && i == i' && h == h'
  {
    var a := ["promoted-operational-input", "v1", s, i, "manifests", h + ".json"];
    var b := ["promoted-operational-input", "v1", s', i', "manifests", h' + ".json"];
    JoinInjective(a, b);
    if a == b {
      assert a[2] == b[2] && a[3] == b[3] && a[5] == b[5];
      assert h == (h + ".json")[..|h + ".json"| - 5] && h' == (h' + ".json")[..|h' + ".json"| - 5];
    }
  }

  /** No object name is both a blob's and a manifest's. */
  lemma BlobIsNoManifest(s: string, i: string, h: string, s': string, i': string, h': string)
    requires NoSlash(s) && NoSlash(i) && NoSlash(h) && NoSlash(s') && NoSlash(i') && NoSlash(h')
    ensures BlobName(s, i, h) != ManifestNameOf(s', i', h')
  {
    var a := ["promoted-operational-input", "v1", s, i, "blobs", h];
    var b := ["promoted-operational-input", "v1", s', i', "manifests", h' + ".json"];
    JoinInjective(a, b);
    assert a[4] != b[4];
  }

  // ---------------------------------------------------------------- validation

  ghost predicate ValidInventory(inventory: Inventory) {
    && ValidEntries(inventory.entries)
    && inventory.count == |inventory.entries| <= MAXIMUM_INCLUDED_FILES
    && inventory.total == TotalSize(inventory.entries) <= MAXIMUM_TOTAL_BYTES
  }

  ghost predicate SizesAgree(entries: seq<Entry>) {
    forall e, f :: e in entries && f in entries && e.hash == f.hash ==> e.size == f.size
  }

  predicate HashesAscend(blobs: seq<B.Published>) {
    forall i, j :: 0 <= i < j < |blobs| ==> StrLe(blobs[i].hash, blobs[j].hash) && blobs[i].hash != blobs[j].hash
  }

  ghost predicate HasEntry(entries: seq<Entry>, p: B.Published) {
    exists e :: e in entries && e.hash == p.hash && e.size == p.size
  }

  ghost predicate HasBlob(blobs: seq<B.Published>, e: Entry) {
    exists p :: p in blobs && p.hash == e.hash
  }

  /** The blobs are exactly those the entries need: ascending by hash, properly named,
      with the sizes recorded. */
  ghost predicate BlobsMatch(m: Manifest) {
    && HashesAscend(m.blobs)
    && (forall p :: p in m.blobs ==> p.name == BlobName(m.session, m.specId, p.hash))
    && (forall p {:trigger HasEntry(m.inventory.entries, p)} :: p in m.blobs ==> HasEntry(m.inventory.entries, p))
    && (forall e {:trigger HasBlob(m.blobs, e)} :: e in m.inventory.entries ==> HasBlob(m.blobs, e))
  }

  ghost predicate ValidManifest(m: Manifest) {
    ValidInventory(m.inventory) && SizesAgree(m.inventory.entries) && BlobsMatch(m)
  }

  /** Names and hashes are single path components, as a date and hexadecimal digests are. */
  predicate PlainNames(m: Manifest) {
    NoSlash(m.session) && NoSlash(m.specId)
  }

  ghost predicate Accepted(m: Manifest) {
    ValidManifest(m) && PlainNames(m)
  }

  /** What is asked of the format: different bytes have different digests, and decoding
      accepts exactly the encodings, within the size limit, of accepted manifests. */
  ghost predicate Sound(f: Format) {
    && (forall a, b :: f.digest(a) == f.digest(b) ==> a == b)
    && (forall b :: NoSlash(f.digest(b)))
    && (forall m, n :: Accepted(m) && Accepted(n) && f.body(m) == f.body(n) ==> m == n)
    && (forall m :: Accepted(m) && Encodable(f, m) ==> f.decode(f.encode(m)) == Some(m))
    && (forall b, m :: f.decode(b) == Some(m) ==> Accepted(m) && f.encode(m) == b)
  }

  predicate Encodable(f: Format, m: Manifest) {
    0 < |f.encode(m)| <= MAXIMUM_ENCODED_BYTES
  }

  // ---------------------------------------------------------------- the bucket's invariant

  /** Every blob of the manifest is stored at the generation, size and hash it records. */
  ghost predicate BlobsPinned(objects: B.Objects, f: Format, m: Manifest) {
    forall p :: p in m.blobs ==> B.Pinned(objects, f.digest, p)
  }

  /** Blobs are named by their content. */
  ghost predicate BlobsNamed(objects: B.Objects, f: Format) {
    forall s, i, h :: NoSlash(s) && NoSlash(i) && NoSlash(h) && BlobName(s, i, h) in objects ==>
      f.digest(objects[BlobName(s, i, h)].content) == h
  }

  /** A stored manifest is whole, and all its blobs are there. */
  ghost predicate ManifestsSealed(objects: B.Objects, f: Format) {
    forall m :: Accepted(m) && ManifestName(f, m) in objects ==>
      objects[ManifestName(f, m)].content == f.encode(m) && BlobsPinned(objects, f, m)
  }

  ghost predicate BucketInv(objects: B.Objects, f: Format) {
    BlobsNamed(objects, f) && ManifestsSealed(objects, f)
  }

  lemma EmptyBucketIsRight(f: Format)
    ensures BucketInv(map[], f)
  {
  }

  lemma BlobWriteKeepsNames(objects: B.Objects, f: Format, s: string, i: string, content: Bytes,
                            generation: B.Generation, fate: B.Fate)
    requires Sound(f) && BlobsNamed(objects, f) && NoSlash(s) && NoSlash(i)
    ensures BlobsNamed(B.Written(objects, BlobName(s, i, f.digest(content)), content, generation, fate), f)
  {
    var name := BlobName(s, i, f.digest(content));
    var after := B.Written(objects, name, content, generation, fate);
    forall s', i', h' | NoSlash(s') && NoSlash(i') && NoSlash(h') && BlobName(s', i', h') in after
      ensures f.digest(after[BlobName(s', i', h')].content) == h'
    {
      BlobNameInjective(s, i, f.digest(content), s', i', h');
    }
  }

  /** Writing a blob under its own hash keeps the invariant, however the write fares. */
  lemma BlobWriteKeepsInv(objects: B.Objects, f: Format, s: string, i: string, content: Bytes,
                          generation: B.Generation, fate: B.Fate)
    requires Sound(f) && BucketInv(objects, f) && NoSlash(s) && NoSlash(i)
    ensures BucketInv(B.Written(objects, BlobName(s, i, f.digest(content)), content, generation, fate), f)
  {
    BlobWriteKeepsNames(objects, f, s, i, content, generation, fate);
    var after := B.Written(objects, BlobName(s, i, f.digest(content)), content, generation, fate);
    forall m | Accepted(m) && ManifestName(f, m) in after
      ensures after[ManifestName(f, m)].content == f.encode(m) && BlobsPinned(after, f, m)
    {
      BlobIsNoManifest(s, i, f.digest(content), m.session, m.specId, SnapshotId(f, m));
      assert BlobsPinned(objects, f, m);
    }
  }

  lemma ManifestWriteKeepsNames(objects: B.Objects, f: Format, m: Manifest, generation: B.Generation, fate: B.Fate)
    requires Sound(f) && BlobsNamed(objects, f) && PlainNames(m)
    ensures BlobsNamed(B.Written(objects, ManifestName(f, m), f.encode(m), generation, fate), f)
  {
    var after := B.Written(objects, ManifestName(f, m), f.encode(m), generation, fate);
    forall s, i, h | NoSlash(s) && NoSlash(i) && NoSlash(h) && BlobName(s, i, h) in after
      ensures f.digest(after[BlobName(s, i, h)].content) == h
    {
      BlobIsNoManifest(s, i, h, m.session, m.specId, SnapshotId(f, m));
    }
  }

  /** Writing a manifest whose blobs are pinned keeps the invariant. */
  lemma ManifestWriteKeepsInv(objects: B.Objects, f: Format, m: Manifest, generation: B.Generation, fate: B.Fate)
    requires Sound(f) && BucketInv(objects, f) && Accepted(m) && BlobsPinned(objects, f, m)
    ensures BucketInv(B.Written(objects, ManifestName(f, m), f.encode(m), generation, fate), f)
  {
    ManifestWriteKeepsNames(objects, f, m, generation, fate);
    var after := B.Written(objects, ManifestName(f, m), f.encode(m), generation, fate);
    forall n | Accepted(n) && ManifestName(f, n) in after
      ensures after[ManifestName(f, n)].content == f.encode(n) && BlobsPinned(after, f, n)
    {
      ManifestNameInjective(m.session, m.specId, SnapshotId(f, m), n.session, n.specId, SnapshotId(f, n));
      assert ManifestName(f, n) in objects ==> BlobsPinned(objects, f, n);
    }
  }
}
