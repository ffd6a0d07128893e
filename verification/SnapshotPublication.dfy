/** Publishing a scanned snapshot: each distinct content hash once, the manifest last;
    and acquiring it again at the pinned generations. */
module SnapshotPublication {
  import opened Wrappers
  import opened Paths
  import opened StableSort
  import opened StringOrder
  import opened InputScan
  import opened InventoryScan
  import opened InventoryLookup
  import opened SnapshotManifest
  import B = ObjectBucket

  /** What a publisher knows of its run and what its environment decides: the destination
      bucket's name, the control's binding, whether the spec file's own binding matches it,
      what re-reading the i-th entry's file gives, how the write of each object fares and
      the generation it gets, and whether the control is still the same before the manifest
      is sealed. */
  datatype Run = Run(bucket: string, session: string, specId: string,
                     binds: Bytes -> bool, reread: nat -> Option<Bytes>,
                     fate: string -> B.Fate, generation: string -> B.Generation,
                     controlSame: bool)

  datatype Completed = Completed(manifest: Manifest, stored: B.Published)

  ghost function Hashes(entries: seq<Entry>): set<string> {
    set e | e in entries :: e.hash
  }

  /** The names of the blobs of these hashes, in order. */
  ghost function BlobNames(run: Run, hashes: seq<string>): (names: seq<string>)
    ensures |names| == |hashes|
    ensures forall k :: 0 <= k < |hashes| ==> names[k] == BlobName(run.session, run.specId, hashes[k])
  {
    if hashes == [] then []
    else BlobNames(run, hashes[..|hashes| - 1]) + [BlobName(run.session, run.specId, hashes[|hashes| - 1])]
  }

  /** Re-reading the i-th entry gives what was scanned. */
  predicate Rereads(f: Format, run: Run, entries: seq<Entry>, i: nat)
    requires i < |entries|
  {
    && run.reread(i).Some?
    && |run.reread(i).value| == entries[i].size
    && f.digest(run.reread(i).value) == entries[i].hash
  }

  /** The blob published for a hash. */
  ghost predicate PublishedFor(objects: B.Objects, f: Format, run: Run, hash: string, p: B.Published) {
    p.hash == hash && p.name == BlobName(run.session, run.specId, hash) && B.Pinned(objects, f.digest, p)
  }

  ghost predicate AllPublished(objects: B.Objects, f: Format, run: Run, published: map<string, B.Published>) {
    forall h :: h in published ==> PublishedFor(objects, f, run, h, published[h])
  }

  /** Content-named blobs leave nothing for a write to refuse. */
  lemma BlobWriteAnswers(objects: B.Objects, f: Format, s: string, i: string, content: Bytes,
                         generation: B.Generation, fate: B.Fate)
    requires Sound(f) && BlobsNamed(objects, f) && NoSlash(s) && NoSlash(i)
    ensures B.Answer(objects, f.digest, BlobName(s, i, f.digest(content)), content, generation, fate).Some?
       <==> fate.Answers?
  {
    var name := BlobName(s, i, f.digest(content));
    if name in objects {
      assert f.digest(objects[name].content) == f.digest(content);
    }
  }

  lemma AllPublishedGrows(before: B.Objects, after: B.Objects, f: Format, run: Run, published: map<string, B.Published>)
    requires AllPublished(before, f, run, published) && B.Grows(before, after)
    ensures AllPublished(after, f, run, published)
  {
  }

  /** One blob: re-read the file, check it against the scan, write it under its hash. */
  method PublishBlob(bucket: B.Bucket, f: Format, run: Run, entries: seq<Entry>, i: nat)
    returns (p: Option<B.Published>, ghost wrote: bool)
    requires Sound(f) && BucketInv(bucket.objects, f) && NoSlash(run.session) && NoSlash(run.specId)
    requires i < |entries|
    modifies bucket
    ensures BucketInv(bucket.objects, f) && B.Grows(old(bucket.objects), bucket.objects)
    ensures p.Some? <==> Rereads(f, run, entries, i)
                         && run.fate(BlobName(run.session, run.specId, entries[i].hash)).Answers?
    ensures p.Some? ==> wrote && p.value.size == entries[i].size
                        && PublishedFor(bucket.objects, f, run, entries[i].hash, p.value)
    ensures bucket.writes == old(bucket.writes)
              + if wrote then [BlobName(run.session, run.specId, entries[i].hash)] else []
  {
    wrote := false;
    if !Rereads(f, run, entries, i) {
      return None, false;
    }
    var payload := run.reread(i).value;
    var name := BlobName(run.session, run.specId, entries[i].hash);
    wrote := true;
    BlobWriteKeepsInv(bucket.objects, f, run.session, run.specId, payload, run.generation(name), run.fate(name));
    BlobWriteAnswers(bucket.objects, f, run.session, run.specId, payload, run.generation(name), run.fate(name));
    B.AnsweredIsPinned(bucket.objects, f.digest, name, payload, run.generation(name), run.fate(name));
    p := bucket.CreateOrVerify(f.digest, name, payload, run.generation(name), run.fate(name));
  }

  /** The first entry with its content; later ones are skipped. */
  predicate FirstOf(entries: seq<Entry>, i: nat)
    requires i < |entries|
  {
    forall k :: 0 <= k < i ==> entries[k].hash != entries[i].hash
  }

  /** If the i-th entry's blob has to be written, its file is still what was scanned and
      the write is answered. */
  predicate EntryGoesThrough(f: Format, run: Run, entries: seq<Entry>, i: nat)
    requires i < |entries|
  {
    FirstOf(entries, i) ==>
      Rereads(f, run, entries, i) && run.fate(BlobName(run.session, run.specId, entries[i].hash)).Answers?
  }

  /** Nothing interferes with the first `n` entries. */
  predicate Undisturbed(f: Format, run: Run, entries: seq<Entry>, n: nat)
    requires n <= |entries|
  {
    forall i :: 0 <= i < n ==> EntryGoesThrough(f, run, entries, i)
  }

  /** An entry's hash is already published exactly when an earlier entry has it. */
  lemma PublishedIffLater(entries: seq<Entry>, i: nat, published: map<string, B.Published>, attempted: seq<string>)
    requires i < |entries| && Progress(entries, i, published, attempted)
    ensures entries[i].hash in published <==> !FirstOf(entries, i)
  {
    var h := entries[i].hash;
    if h in published.Keys {
      var e :| e in entries[..i] && e.hash == h;
      var k :| 0 <= k < i && entries[..i][k] == e;
      assert entries[k].hash == h;
    }
    if !FirstOf(entries, i) {
      var k :| 0 <= k < i && entries[k].hash == h;
      assert entries[k] in entries[..i];
      assert h in published.Keys;
    }
  }

  /** What the loop has done for the first `i` entries. */
  ghost predicate Progress(entries: seq<Entry>, i: nat, published: map<string, B.Published>, attempted: seq<string>)
    requires i <= |entries|
  {
    && NoRepeats(attempted)
    && published.Keys == Hashes(entries[..i]) == (set h | h in attempted)
    && (forall k :: 0 <= k < i ==>
          entries[k].hash in published && published[entries[k].hash].size == entries[k].size)
  }

  lemma HashesOneMore(entries: seq<Entry>, i: nat)
    requires i < |entries|
    ensures Hashes(entries[..i + 1]) == Hashes(entries[..i]) + {entries[i].hash}
  {
    assert entries[..i + 1] == entries[..i] + [entries[i]];
  }

  /** A hash already published is skipped: its blob has this entry's size too. */
  lemma Skipped(entries: seq<Entry>, i: nat, published: map<string, B.Published>, attempted: seq<string>)
    requires i < |entries| && Progress(entries, i, published, attempted) && SizesAgree(entries)
    requires entries[i].hash in published
    ensures Progress(entries, i + 1, published, attempted)
  {
    HashesOneMore(entries, i);
    var e :| e in entries[..i] && e.hash == entries[i].hash;
    var k :| 0 <= k < i && entries[..i][k] == e;
    assert entries[k] in entries && entries[i] in entries;
  }

  lemma Recorded(entries: seq<Entry>, i: nat, published: map<string, B.Published>, attempted: seq<string>, p: B.Published)
    requires i < |entries| && Progress(entries, i, published, attempted)
    requires entries[i].hash !in published && p.size == entries[i].size
    ensures Progress(entries, i + 1, published[entries[i].hash := p], attempted + [entries[i].hash])
  {
    HashesOneMore(entries, i);
    var h := entries[i].hash;
    assert h !in attempted;
    assert (set x | x in attempted + [h]) == (set x | x in attempted) + {h};
  }

  /** What the loop keeps: the pure part, and every published blob still stored. */
  ghost predicate LoopInv(objects: B.Objects, f: Format, run: Run, entries: seq<Entry>, i: nat,
                          published: map<string, B.Published>, attempted: seq<string>)
  {
    i <= |entries| && Progress(entries, i, published, attempted) && AllPublished(objects, f, run, published)
  }

  lemma NextRecorded(before: B.Objects, after: B.Objects, f: Format, run: Run, entries: seq<Entry>, i: nat,
                     published: map<string, B.Published>, attempted: seq<string>, p: B.Published)
    requires i < |entries| && LoopInv(before, f, run, entries, i, published, attempted)
    requires entries[i].hash !in published && p.size == entries[i].size
    requires B.Grows(before, after) && PublishedFor(after, f, run, entries[i].hash, p)
    ensures LoopInv(after, f, run, entries, i + 1, published[entries[i].hash := p], attempted + [entries[i].hash])
  {
    Recorded(entries, i, published, attempted, p);
    AllPublishedGrows(before, after, f, run, published);
  }

  lemma NamesOneMore(run: Run, hashes: seq<string>, h: string)
    ensures BlobNames(run, hashes + [h]) == BlobNames(run, hashes) + [BlobName(run.session, run.specId, h)]
  {
    assert (hashes + [h])[..|hashes|] == hashes;
  }

  /** No hash twice, and only hashes of entries. */
  ghost predicate Fresh(entries: seq<Entry>, attempted: seq<string>) {
    NoRepeats(attempted) && forall h :: h in attempted ==> h in Hashes(entries)
  }

  lemma LoopIsFresh(objects: B.Objects, f: Format, run: Run, entries: seq<Entry>, i: nat,
                    published: map<string, B.Published>, attempted: seq<string>)
    requires LoopInv(objects, f, run, entries, i, published, attempted)
    ensures Fresh(entries, attempted)
    ensures i == |entries| ==> published.Keys == Hashes(entries) == set h | h in attempted
  {
    forall h | h in attempted
      ensures h in Hashes(entries)
    {
      assert h in (set x | x in attempted);
      assert h in Hashes(entries[..i]);
      var e :| e in entries[..i] && e.hash == h;
      assert e in entries;
    }
    assert entries[..|entries|] == entries;
  }

  lemma FreshOneMore(entries: seq<Entry>, i: nat, attempted: seq<string>)
    requires i < |entries| && Fresh(entries, attempted) && entries[i].hash !in attempted
    ensures Fresh(entries, attempted + [entries[i].hash])
  {
    assert entries[i] in entries;
  }

  /** One turn of the loop: an entry whose hash is already published is skipped. */
  method PublishNext(bucket: B.Bucket, f: Format, run: Run, entries: seq<Entry>, i: nat,
                     published: map<string, B.Published>, ghost attempted: seq<string>)
    returns (p: Option<B.Published>, ghost tried: seq<string>)
    requires Sound(f) && BucketInv(bucket.objects, f) && NoSlash(run.session) && NoSlash(run.specId)
    requires SizesAgree(entries) && i < |entries|
    requires LoopInv(bucket.objects, f, run, entries, i, published, attempted)
    modifies bucket
    ensures BucketInv(bucket.objects, f) && B.Grows(old(bucket.objects), bucket.objects)
    ensures bucket.writes == old(bucket.writes) + BlobNames(run, tried)
    ensures p.Some? == EntryGoesThrough(f, run, entries, i)
    ensures p.None? ==> Fresh(entries, attempted + tried)
    ensures p.Some? ==>
      LoopInv(bucket.objects, f, run, entries, i + 1, published[entries[i].hash := p.value], attempted + tried)
  {
    var h := entries[i].hash;
    tried := [];
    LoopIsFresh(bucket.objects, f, run, entries, i, published, attempted);
    PublishedIffLater(entries, i, published, attempted);
    assert attempted + [] == attempted && (h in attempted ==> h in published.Keys);
    if h in published {
      Skipped(entries, i, published, attempted);
      p := Some(published[h]);
      assert published[h := published[h]] == published;
    } else {
      ghost var before := bucket.objects;
      ghost var wrote;
      p, wrote := PublishBlob(bucket, f, run, entries, i);
      FreshOneMore(entries, i, attempted);
      if wrote {
        tried := [h];
        NamesOneMore(run, [], h);
      }
      if p.Some? {
        NextRecorded(before, bucket.objects, f, run, entries, i, published, attempted, p.value);
      }
    }
  }

  lemma NamesAppended(writes: seq<string>, run: Run, a: seq<string>, b: seq<string>)
    ensures (writes + BlobNames(run, a)) + BlobNames(run, b) == writes + BlobNames(run, a + b)
  {
    assert BlobNames(run, a + b) == BlobNames(run, a) + BlobNames(run, b);
  }

  /** The publication loop. */
  method PublishBlobs(bucket: B.Bucket, f: Format, run: Run, entries: seq<Entry>)
    returns (ok: bool, published: map<string, B.Published>, ghost attempted: seq<string>)
    requires Sound(f) && BucketInv(bucket.objects, f) && NoSlash(run.session) && NoSlash(run.specId)
    requires SizesAgree(entries)
    modifies bucket
    ensures BucketInv(bucket.objects, f) && B.Grows(old(bucket.objects), bucket.objects)
    ensures bucket.writes == old(bucket.writes) + BlobNames(run, attempted)
    ensures Fresh(entries, attempted)
    ensures ok == Undisturbed(f, run, entries, |entries|)
    ensures ok ==> LoopInv(bucket.objects, f, run, entries, |entries|, published, attempted)
  {
    published, attempted, ok := map[], [], true;
    var i := 0;
    while i < |entries| && ok
      invariant i <= |entries|
      invariant ok == Undisturbed(f, run, entries, i)
      invariant ok ==> LoopInv(bucket.objects, f, run, entries, i, published, attempted)
      invariant BucketInv(bucket.objects, f) && B.Grows(old(bucket.objects), bucket.objects)
      invariant bucket.writes == old(bucket.writes) + BlobNames(run, attempted)
      invariant Fresh(entries, attempted)
    {
      var p, tried := PublishNext(bucket, f, run, entries, i, published, attempted);
      NamesAppended(old(bucket.writes), run, attempted, tried);
      UndisturbedOneMore(f, run, entries, i);
      attempted := attempted + tried;
      ok := p.Some?;
      i := i + 1;
      if ok {
        published := published[entries[i - 1].hash := p.value];
        LoopIsFresh(bucket.objects, f, run, entries, i, published, attempted);
      }
    }
    UndisturbedUpTo(f, run, entries, i);
  }

  lemma UndisturbedOneMore(f: Format, run: Run, entries: seq<Entry>, i: nat)
    requires i < |entries|
    ensures Undisturbed(f, run, entries, i + 1) == (Undisturbed(f, run, entries, i) && EntryGoesThrough(f, run, entries, i))
  {
  }

  lemma UndisturbedUpTo(f: Format, run: Run, entries: seq<Entry>, i: nat)
    requires i <= |entries| && (i == |entries| || !Undisturbed(f, run, entries, i))
    ensures Undisturbed(f, run, entries, |entries|) == Undisturbed(f, run, entries, i)
  {
  }

  // ---------------------------------------------------------------- sealing

  /** The distinct hashes, in order of first appearance. */
  function Distinct(entries: seq<Entry>): seq<string> {
    if entries == [] then []
    else
      var before := Distinct(entries[..|entries| - 1]);
      var h := entries[|entries| - 1].hash;
      if h in before then before else before + [h]
  }

  lemma {:induction false} DistinctHashes(entries: seq<Entry>)
    ensures NoRepeats(Distinct(entries)) && Hashes(entries) == set h | h in Distinct(entries)
    decreases |entries|
  {
    if entries != [] {
      var n := |entries| - 1;
      DistinctHashes(entries[..n]);
      HashesOneMore(entries, n);
      assert entries[..n + 1] == entries;
    }
  }

  function BlobsInOrder(hashes: seq<string>, published: map<string, B.Published>): (blobs: seq<B.Published>)
    requires forall h :: h in hashes ==> h in published
    ensures |blobs| == |hashes|
    ensures forall k :: 0 <= k < |hashes| ==> blobs[k] == published[hashes[k]]
  {
    if hashes == [] then [] else [published[hashes[0]]] + BlobsInOrder(hashes[1..], published)
  }

  lemma SortedHashes(entries: seq<Entry>)
    ensures var sorted := Sort(Distinct(entries), StrLe);
            && (forall h :: h in sorted <==> h in Hashes(entries))
            && forall i, j :: 0 <= i < j < |sorted| ==> StrLe(sorted[i], sorted[j]) && sorted[i] != sorted[j]
  {
    var hashes := Distinct(entries);
    var sorted := Sort(hashes, StrLe);
    DistinctHashes(entries);
    StrLeIsTotalOrder();
    SortSorted(hashes, StrLe);
    SortPermutes(hashes, StrLe);
    forall h
      ensures h in sorted <==> h in Hashes(entries)
    {
      assert h in sorted <==> h in multiset(sorted);
      assert h in hashes <==> h in multiset(hashes);
    }
    NoRepeatsPermuted(hashes, sorted);
  }

  /** The blob a manifest lists for a hash. */
  ghost predicate ListedBlob(objects: B.Objects, f: Format, run: Run, entries: seq<Entry>, hash: string, p: B.Published) {
    PublishedFor(objects, f, run, hash, p) && HasEntry(entries, p)
  }

  lemma BlobsListed(objects: B.Objects, f: Format, run: Run, entries: seq<Entry>,
                    published: map<string, B.Published>, attempted: seq<string>, hashes: seq<string>)
    requires LoopInv(objects, f, run, entries, |entries|, published, attempted)
    requires hashes == Sort(Distinct(entries), StrLe) && forall h :: h in hashes ==> h in published
    ensures forall k :: 0 <= k < |hashes| ==>
              ListedBlob(objects, f, run, entries, hashes[k], BlobsInOrder(hashes, published)[k])
  {
    SortedHashes(entries);
    forall k | 0 <= k < |hashes|
      ensures ListedBlob(objects, f, run, entries, hashes[k], BlobsInOrder(hashes, published)[k])
    {
      EntryOfHash(entries, published, attempted, hashes[k]);
      assert PublishedFor(objects, f, run, hashes[k], published[hashes[k]]);
    }
  }

  /** A manifest over what was published is an accepted manifest, and all it names is
      stored. */
  lemma ManifestAccepted(objects: B.Objects, f: Format, run: Run, hashes: seq<string>, m: Manifest)
    requires NoSlash(m.session) && NoSlash(m.specId) && m.session == run.session && m.specId == run.specId
    requires ValidInventory(m.inventory) && SizesAgree(m.inventory.entries)
    requires hashes == Sort(Distinct(m.inventory.entries), StrLe) && |m.blobs| == |hashes|
    requires forall k :: 0 <= k < |hashes| ==>
               ListedBlob(objects, f, run, m.inventory.entries, hashes[k], m.blobs[k])
    ensures Accepted(m) && BlobsPinned(objects, f, m)
  {
    var entries := m.inventory.entries;
    SortedHashes(entries);
    assert forall k :: 0 <= k < |hashes| ==> m.blobs[k].hash == hashes[k];
    forall e | e in entries
      ensures HasBlob(m.blobs, e)
    {
      assert e.hash in hashes;
      var k :| 0 <= k < |hashes| && hashes[k] == e.hash;
      assert m.blobs[k] in m.blobs;
    }
    forall p | p in m.blobs
      ensures p.name == BlobName(m.session, m.specId, p.hash) && B.Pinned(objects, f.digest, p)
      ensures HasEntry(entries, p)
    {
      var k :| 0 <= k < |m.blobs| && m.blobs[k] == p;
      assert ListedBlob(objects, f, run, entries, hashes[k], m.blobs[k]);
    }
  }

  lemma EntryOfHash(entries: seq<Entry>, published: map<string, B.Published>, attempted: seq<string>, h: string)
    requires Progress(entries, |entries|, published, attempted) && h in Hashes(entries)
    ensures h in published && exists e :: e in entries && e.hash == h && e.size == published[h].size
  {
    var e :| e in entries && e.hash == h;
    var k :| 0 <= k < |entries| && entries[k] == e;
    assert published[entries[k].hash].size == entries[k].size;
  }

  /** Entries of one scan with equal digests have equal sizes. */
  lemma ScannedSizesAgree(inputs: Inputs, f: Format)
    requires Sound(f) && Scannable(inputs, f.digest)
    ensures SizesAgree(AllEntries(inputs, f.digest))
  {
    forall e, g | e in AllEntries(inputs, f.digest) && g in AllEntries(inputs, f.digest) && e.hash == g.hash
      ensures e.size == g.size
    {
      var c := EntryContent(inputs, f.digest, e);
      var d := EntryContent(inputs, f.digest, g);
      assert c == d;
    }
  }

  lemma EntryContent(inputs: Inputs, digest: Digest, e: Entry) returns (content: Bytes)
    requires Scannable(inputs, digest) && e in AllEntries(inputs, digest)
    ensures e.size == |content| && e.hash == digest(content)
  {
    if e in RootEntries(inputs.roots, 1, digest) {
      InRoot(inputs.roots, 1, digest, e);
      var segments;
      segments, content := EntryIsHeld(inputs.roots[e.index - 1].children, e.index, [], digest, e);
    } else {
      content := inputs.spec.content;
    }
  }

  lemma ScannedInventory(inputs: Inputs, f: Format)
    requires Sound(f) && ListedInputs(inputs) && Scannable(inputs, f.digest)
    ensures ValidInventory(InventoryOf(inputs, f.digest)) && SizesAgree(InventoryOf(inputs, f.digest).entries)
  {
    var all, entries := AllEntries(inputs, f.digest), InventoryOf(inputs, f.digest).entries;
    SortedEntriesValid(inputs, f.digest);
    ScannedSizesAgree(inputs, f);
    InventoryStrictlyOrdered(inputs, f.digest);
    SameMembers(entries, all);
    TotalSizePermuted(entries, all);
    assert |multiset(entries)| == |multiset(all)|;
  }

  method SealManifest(bucket: B.Bucket, f: Format, run: Run, m: Manifest) returns (sealed: Option<B.Published>)
    requires Sound(f) && BucketInv(bucket.objects, f) && Accepted(m) && BlobsPinned(bucket.objects, f, m)
    requires Encodable(f, m)
    modifies bucket
    ensures BucketInv(bucket.objects, f) && B.Grows(old(bucket.objects), bucket.objects)
    ensures bucket.writes == old(bucket.writes) + [ManifestName(f, m)]
    ensures sealed.Some? <==> run.fate(ManifestName(f, m)).Answers?
    ensures sealed.Some? ==>
      && sealed.value.name == ManifestName(f, m) && B.Pinned(bucket.objects, f.digest, sealed.value)
      && bucket.objects[ManifestName(f, m)].content == f.encode(m)
  {
    var name, fate := ManifestName(f, m), run.fate(ManifestName(f, m));
    ManifestWriteKeepsInv(bucket.objects, f, m, run.generation(name), fate);
    B.AnsweredIsPinned(bucket.objects, f.digest, name, f.encode(m), run.generation(name), fate);
    sealed := bucket.CreateOrVerify(f.digest, name, f.encode(m), run.generation(name), fate);
  }

  /** A completed publication: the accepted manifest of this inventory is stored, whole,
      and so is every blob it names. */
  ghost predicate Complete(objects: B.Objects, f: Format, run: Run, inventory: Inventory, c: Completed) {
    && Accepted(c.manifest) && Encodable(f, c.manifest) && c.manifest.inventory == inventory
    && c.manifest.bucket == run.bucket && c.manifest.session == run.session && c.manifest.specId == run.specId
    && c.stored.name == ManifestName(f, c.manifest) && B.Pinned(objects, f.digest, c.stored)
    && objects[c.stored.name].content == f.encode(c.manifest)
    && BlobsPinned(objects, f, c.manifest)
  }

  /** What was written: blobs of distinct hashes, and the manifest only after all. */
  ghost predicate WroteInOrder(before: seq<string>, after: seq<string>, f: Format, run: Run, entries: seq<Entry>,
                               attempted: seq<string>, sealing: Option<Manifest>)
  {
    && Fresh(entries, attempted)
    && match sealing
       case None => after == before + BlobNames(run, attempted)
       case Some(m) => Hashes(entries) == (set h | h in attempted)
                       && after == before + BlobNames(run, attempted) + [ManifestName(f, m)]
  }

  /** The manifest over all published blobs. */
  method BuildManifest(run: Run, f: Format, inventory: Inventory, published: map<string, B.Published>,
                       ghost attempted: seq<string>, ghost objects: B.Objects)
    returns (m: Manifest)
    requires NoSlash(run.session) && NoSlash(run.specId)
    requires ValidInventory(inventory) && SizesAgree(inventory.entries)
    requires LoopInv(objects, f, run, inventory.entries, |inventory.entries|, published, attempted)
    ensures Accepted(m) && m.inventory == inventory && BlobsPinned(objects, f, m)
    ensures m.bucket == run.bucket && m.session == run.session && m.specId == run.specId
    ensures |m.blobs| == |Distinct(inventory.entries)|
  {
    LoopIsFresh(objects, f, run, inventory.entries, |inventory.entries|, published, attempted);
    SortedHashes(inventory.entries);
    SortPermutes(Distinct(inventory.entries), StrLe);
    var hashes := Sort(Distinct(inventory.entries), StrLe);
    m := Manifest(run.bucket, run.specId, run.session, inventory, BlobsInOrder(hashes, published));
    BlobsListed(objects, f, run, inventory.entries, published, attempted, hashes);
    ManifestAccepted(objects, f, run, hashes, m);
  }

  /** The manifest this run seals: accepted, of this inventory and this run's destination,
      over blobs that are in this bucket. */
  ghost predicate BuiltFrom(objects: B.Objects, f: Format, run: Run, inventory: Inventory, m: Manifest) {
    && Accepted(m) && m.inventory == inventory && BlobsPinned(objects, f, m)
    && m.bucket == run.bucket && m.session == run.session && m.specId == run.specId
  }

  /** The manifest goes in: it can be encoded within its limit and its own write is
      answered. */
  predicate SealGoesThrough(f: Format, run: Run, m: Manifest) {
    Encodable(f, m) && run.fate(ManifestName(f, m)).Answers?
  }

  lemma StillPinned(before: B.Objects, after: B.Objects, f: Format, m: Manifest)
    requires BlobsPinned(before, f, m) && B.Grows(before, after)
    ensures BlobsPinned(after, f, m)
  {
  }

  /** All blobs, then the check of the control, then the manifest over them. */
  method BuildPublication(bucket: B.Bucket, f: Format, run: Run, inventory: Inventory)
    returns (built: Option<Manifest>, ghost attempted: seq<string>)
    requires Sound(f) && BucketInv(bucket.objects, f) && NoSlash(run.session) && NoSlash(run.specId)
    requires ValidInventory(inventory) && SizesAgree(inventory.entries)
    modifies bucket
    ensures BucketInv(bucket.objects, f) && B.Grows(old(bucket.objects), bucket.objects)
    ensures bucket.writes == old(bucket.writes) + BlobNames(run, attempted) && Fresh(inventory.entries, attempted)
    ensures built.Some? == (Undisturbed(f, run, inventory.entries, |inventory.entries|) && run.controlSame)
    ensures built.Some? ==> BuiltFrom(bucket.objects, f, run, inventory, built.value)
                            && Hashes(inventory.entries) == set h | h in attempted
  {
    built := None;
    var ok, published;
    ok, published, attempted := PublishBlobs(bucket, f, run, inventory.entries);
    if ok && run.controlSame {
      LoopIsFresh(bucket.objects, f, run, inventory.entries, |inventory.entries|, published, attempted);
      var m := BuildManifest(run, f, inventory, published, attempted, bucket.objects);
      built := Some(m);
    }
  }

  /** A publication of a scanned inventory completes exactly when nothing disturbed its
      blobs, the control is unchanged, and the very manifest built over those blobs goes
      in. */
  method PublishInventory(bucket: B.Bucket, f: Format, run: Run, inventory: Inventory)
    returns (r: Option<Completed>, built: Option<Manifest>, ghost attempted: seq<string>)
    requires Sound(f) && BucketInv(bucket.objects, f) && NoSlash(run.session) && NoSlash(run.specId)
    requires ValidInventory(inventory) && SizesAgree(inventory.entries)
    modifies bucket
    ensures BucketInv(bucket.objects, f) && B.Grows(old(bucket.objects), bucket.objects)
    ensures built.Some? == (Undisturbed(f, run, inventory.entries, |inventory.entries|) && run.controlSame)
    ensures built.Some? ==> BuiltFrom(bucket.objects, f, run, inventory, built.value)
    ensures r.Some? == (built.Some? && SealGoesThrough(f, run, built.value))
    ensures WroteInOrder(old(bucket.writes), bucket.writes, f, run, inventory.entries, attempted, Sealing(f, built))
    ensures r.Some? ==> r.value.manifest == built.value && Complete(bucket.objects, f, run, inventory, r.value)
  {
    r := None;
    built, attempted := BuildPublication(bucket, f, run, inventory);
    if built.Some? && Encodable(f, built.value) {
      ghost var before := bucket.objects;
      var sealed := SealManifest(bucket, f, run, built.value);
      StillPinned(before, bucket.objects, f, built.value);
      if sealed.Some? {
        r := Some(Completed(built.value, sealed.value));
      }
    }
  }

  /** The manifest whose write is attempted: the one built, when it fits its limit. */
  ghost function Sealing(f: Format, built: Option<Manifest>): Option<Manifest> {
    if built.Some? && Encodable(f, built.value) then built else None
  }

  /** Everything before the manifest goes in: the scan, the spec file's binding, every
      distinct blob, and the control's last check. */
  ghost predicate Prepared(f: Format, run: Run, inputs: Inputs)
    requires Scannable(inputs, f.digest)
  {
    var entries := InventoryOf(inputs, f.digest).entries;
    run.binds(inputs.spec.content) && run.controlSame && Undisturbed(f, run, entries, |entries|)
  }

  /** The whole publication: scan, check the spec file's binding, write every distinct
      blob, seal the manifest.  The bucket's invariant survives every outcome.  A manifest
      is built exactly when nothing disturbed the run up to it, and the publication
      completes exactly when that manifest then goes in. */
  method Publish(bucket: B.Bucket, f: Format, run: Run, inputs: Inputs)
    returns (r: Option<Completed>, built: Option<Manifest>, ghost attempted: seq<string>)
    requires Sound(f) && BucketInv(bucket.objects, f) && NoSlash(run.session) && NoSlash(run.specId)
    requires ListedInputs(inputs)
    modifies bucket
    ensures BucketInv(bucket.objects, f) && B.Grows(old(bucket.objects), bucket.objects)
    ensures built.Some? == (Scannable(inputs, f.digest) && Prepared(f, run, inputs))
    ensures built.Some? ==> BuiltFrom(bucket.objects, f, run, InventoryOf(inputs, f.digest), built.value)
    ensures r.Some? == (built.Some? && SealGoesThrough(f, run, built.value))
    ensures WroteInOrder(old(bucket.writes), bucket.writes, f, run, InventoryOf(inputs, f.digest).entries,
                         attempted, Sealing(f, built))
    ensures r.Some? ==>
      r.value.manifest == built.value && Complete(bucket.objects, f, run, InventoryOf(inputs, f.digest), r.value)
  {
    r, built, attempted := None, None, [];
    var scanned := BuildInventory(inputs, f.digest);
    if scanned.Some? && run.binds(inputs.spec.content) {
      ScannedInventory(inputs, f);
      r, built, attempted := PublishInventory(bucket, f, run, scanned.value);
    }
  }
}
