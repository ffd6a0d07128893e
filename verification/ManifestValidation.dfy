/** The checks of a snapshot manifest's constructor, loop by loop, decide exactly which
    manifests are valid. */
module ManifestValidation {
  import opened Wrappers
  import opened StringOrder
  import opened InputScan
  import opened InventoryScan
  import opened SnapshotManifest
  import B = ObjectBucket

  /** Each hash with the size its entries record. */
  ghost predicate SizesOf(entries: seq<Entry>, i: nat, sizes: map<string, nat>)
    requires i <= |entries|
  {
    && (forall k :: 0 <= k < i ==> entries[k].hash in sizes && sizes[entries[k].hash] == entries[k].size)
    && (forall h :: h in sizes ==> exists k :: 0 <= k < i && entries[k].hash == h)
  }

  method ExpectedSizes(entries: seq<Entry>) returns (r: Option<map<string, nat>>)
    ensures r.Some? <==> SizesAgree(entries)
    ensures r.Some? ==> SizesOf(entries, |entries|, r.value)
  {
    var sizes: map<string, nat> := map[];
    for i := 0 to |entries|
      invariant SizesOf(entries, i, sizes)
    {
      var e := entries[i];
      if e.hash in sizes && sizes[e.hash] != e.size {
        ghost var k :| 0 <= k < i && entries[k].hash == e.hash;
        assert entries[k] in entries && entries[i] in entries;
        return None;
      }
      sizes := sizes[e.hash := e.size];
    }
    r := Some(sizes);
  }

  predicate BlobFits(m: Manifest, sizes: map<string, nat>, p: B.Published) {
    p.name == BlobName(m.session, m.specId, p.hash) && p.hash in sizes && sizes[p.hash] == p.size
  }

  ghost predicate SeenSoFar(blobs: seq<B.Published>, i: nat, seen: set<string>)
    requires i <= |blobs|
  {
    && (forall k :: 0 <= k < i ==> blobs[k].hash in seen)
    && (forall h :: h in seen ==> exists k :: 0 <= k < i && blobs[k].hash == h)
    && HashesAscend(blobs[..i])
  }

  lemma AscendOneMore(blobs: seq<B.Published>, i: nat)
    requires i < |blobs| && HashesAscend(blobs[..i])
    ensures HashesAscend(blobs[..i + 1])
       <==> i == 0 || (StrLe(blobs[i - 1].hash, blobs[i].hash) && blobs[i - 1].hash != blobs[i].hash)
  {
    StrLeIsTotalOrder();
    if i > 0 {
      assert blobs[..i + 1][i - 1] == blobs[i - 1] && blobs[..i + 1][i] == blobs[i];
      if StrLe(blobs[i - 1].hash, blobs[i].hash) && blobs[i - 1].hash != blobs[i].hash {
        forall j, k | 0 <= j < k < i + 1
          ensures StrLe(blobs[j].hash, blobs[k].hash) && blobs[j].hash != blobs[k].hash
        {
          if k < i {
            assert blobs[..i][j] == blobs[j] && blobs[..i][k] == blobs[k];
          } else if j < i - 1 {
            assert blobs[..i][j] == blobs[j] && blobs[..i][i - 1] == blobs[i - 1];
          }
        }
      }
    }
  }

  lemma SeenOneMore(blobs: seq<B.Published>, i: nat, seen: set<string>)
    requires i < |blobs| && SeenSoFar(blobs, i, seen) && HashesAscend(blobs[..i + 1])
    ensures SeenSoFar(blobs, i + 1, seen + {blobs[i].hash})
  {
  }

  /** A hash met before is not above all earlier ones. */
  lemma SeenTwice(blobs: seq<B.Published>, i: nat, seen: set<string>)
    requires i < |blobs| && SeenSoFar(blobs, i, seen) && blobs[i].hash in seen
    ensures !HashesAscend(blobs)
  {
    var k :| 0 <= k < i && blobs[k].hash == blobs[i].hash;
  }

  predicate Above(blobs: seq<B.Published>, i: nat)
    requires i < |blobs|
  {
    i == 0 || (StrLe(blobs[i - 1].hash, blobs[i].hash) && blobs[i - 1].hash != blobs[i].hash)
  }

  /** The blob loop: no hash twice, strictly ascending, the right name and size. */
  method CheckBlobs(m: Manifest, sizes: map<string, nat>) returns (ok: bool, seen: set<string>)
    ensures ok <==> HashesAscend(m.blobs) && forall p :: p in m.blobs ==> BlobFits(m, sizes, p)
    ensures ok ==> SeenSoFar(m.blobs, |m.blobs|, seen)
  {
    seen := {};
    for i := 0 to |m.blobs|
      invariant SeenSoFar(m.blobs, i, seen)
      invariant forall p :: p in m.blobs[..i] ==> BlobFits(m, sizes, p)
    {
      var p := m.blobs[i];
      assert p in m.blobs && m.blobs[..i + 1] == m.blobs[..i] + [p];
      if p.hash in seen {
        SeenTwice(m.blobs, i, seen);
        return false, seen;
      }
      if !Above(m.blobs, i) {
        return false, seen;
      }
      if !BlobFits(m, sizes, p) {
        return false, seen;
      }
      AscendOneMore(m.blobs, i);
      SeenOneMore(m.blobs, i, seen);
      seen := seen + {p.hash};
    }
    assert m.blobs[..|m.blobs|] == m.blobs;
    ok := true;
  }

  lemma FitsHasEntry(m: Manifest, sizes: map<string, nat>, p: B.Published)
    requires SizesOf(m.inventory.entries, |m.inventory.entries|, sizes) && BlobFits(m, sizes, p)
    ensures HasEntry(m.inventory.entries, p)
  {
    var entries := m.inventory.entries;
    var k :| 0 <= k < |entries| && entries[k].hash == p.hash;
    assert entries[k] in entries;
  }

  /** Given fitting blobs, they match the entries exactly when no hash is left over. */
  lemma MatchGivenFits(m: Manifest, sizes: map<string, nat>, seen: set<string>)
    requires SizesOf(m.inventory.entries, |m.inventory.entries|, sizes)
    requires HashesAscend(m.blobs) && forall p :: p in m.blobs ==> BlobFits(m, sizes, p)
    requires SeenSoFar(m.blobs, |m.blobs|, seen)
    ensures BlobsMatch(m) <==> seen == sizes.Keys
  {
    forall p | p in m.blobs
      ensures HasEntry(m.inventory.entries, p)
    {
      FitsHasEntry(m, sizes, p);
    }
    if BlobsMatch(m) {
      EverySizeSeen(m, sizes, seen);
      assert seen <= sizes.Keys;
    }
    if seen == sizes.Keys {
      forall e | e in m.inventory.entries
        ensures HasBlob(m.blobs, e)
      {
        var j :| 0 <= j < |m.inventory.entries| && m.inventory.entries[j] == e;
        var k :| 0 <= k < |m.blobs| && m.blobs[k].hash == e.hash;
        assert m.blobs[k] in m.blobs;
      }
    }
  }

  lemma EverySizeSeen(m: Manifest, sizes: map<string, nat>, seen: set<string>)
    requires SizesOf(m.inventory.entries, |m.inventory.entries|, sizes)
    requires forall e {:trigger HasBlob(m.blobs, e)} :: e in m.inventory.entries ==> HasBlob(m.blobs, e)
    requires SeenSoFar(m.blobs, |m.blobs|, seen)
    ensures sizes.Keys <= seen
  {
    forall h | h in sizes
      ensures h in seen
    {
      var k :| 0 <= k < |m.inventory.entries| && m.inventory.entries[k].hash == h;
      assert HasBlob(m.blobs, m.inventory.entries[k]);
      var p :| p in m.blobs && p.hash == h;
    }
  }

  lemma MatchFits(m: Manifest, sizes: map<string, nat>, p: B.Published)
    requires BlobsMatch(m) && SizesOf(m.inventory.entries, |m.inventory.entries|, sizes) && p in m.blobs
    ensures BlobFits(m, sizes, p)
  {
    assert HasEntry(m.inventory.entries, p);
    var e :| e in m.inventory.entries && e.hash == p.hash && e.size == p.size;
    var k :| 0 <= k < |m.inventory.entries| && m.inventory.entries[k] == e;
  }

  method TotalOf(entries: seq<Entry>) returns (total: nat)
    ensures total == TotalSize(entries)
  {
    total := 0;
    var i := 0;
    while i < |entries|
      invariant i <= |entries| && total == TotalSize(entries[..i])
    {
      assert entries[..i + 1] == entries[..i] + [entries[i]];
      TotalSizeConcat(entries[..i], [entries[i]]);
      total := total + entries[i].size;
      i := i + 1;
    }
    assert entries[..i] == entries;
  }

  method ValidateInventory(inventory: Inventory) returns (ok: bool)
    ensures ok <==> ValidInventory(inventory)
  {
    ok := ValidateEntries(inventory.entries);
    var total := TotalOf(inventory.entries);
    ok := ok && |inventory.entries| <= MAXIMUM_INCLUDED_FILES && total <= MAXIMUM_TOTAL_BYTES
             && inventory.count == |inventory.entries| && inventory.total == total;
  }

  /** The whole constructor: it accepts exactly the valid manifests. */
  method ValidateManifest(m: Manifest) returns (ok: bool)
    ensures ok <==> ValidManifest(m)
  {
    ok := ValidateInventory(m.inventory);
    if ok {
      var sizes := ExpectedSizes(m.inventory.entries);
      if sizes.None? {
        return false;
      }
      var seen;
      ok, seen := CheckBlobs(m, sizes.value);
      if ok {
        MatchGivenFits(m, sizes.value, seen);
        ok := seen == sizes.value.Keys;
      } else if BlobsMatch(m) {
        forall p | p in m.blobs
          ensures BlobFits(m, sizes.value, p)
        {
          MatchFits(m, sizes.value, p);
        }
      }
    }
  }
}
