/** A concrete format for snapshot manifests that meets everything asked of the abstract
    one, and encodes any accepted manifest it is made for. */
module SnapshotFormat {
  import opened Wrappers
  import opened Paths
  import opened Serial
  import opened InputScan
  import opened SnapshotManifest
  import B = ObjectBucket

  function EntryLists(entries: seq<Entry>): (lists: seq<seq<string>>)
    ensures |lists| == |entries|
    ensures forall k :: 0 <= k < |entries| ==>
              lists[k] == [Tally(entries[k].index), entries[k].path, Tally(entries[k].size), entries[k].hash]
  {
    if entries == [] then []
    else
      var e := entries[0];
      [[Tally(e.index), e.path, Tally(e.size), e.hash]] + EntryLists(entries[1..])
  }

  function BlobLists(blobs: seq<B.Published>): (lists: seq<seq<string>>)
    ensures |lists| == |blobs|
    ensures forall k :: 0 <= k < |blobs| ==>
              lists[k] == [blobs[k].name, Tally(blobs[k].generation), Tally(blobs[k].size), blobs[k].hash]
  {
    if blobs == [] then []
    else
      var p := blobs[0];
      [[p.name, Tally(p.generation), Tally(p.size), p.hash]] + BlobLists(blobs[1..])
  }

  function ManifestLists(m: Manifest): seq<seq<string>> {
    var entries := m.inventory.entries;
    [[m.bucket, m.specId, m.session, Tally(m.inventory.count), Tally(m.inventory.total), Tally(|entries|)]]
    + EntryLists(entries) + BlobLists(m.blobs)
  }

  lemma EntriesEqual(a: seq<Entry>, b: seq<Entry>)
    requires EntryLists(a) == EntryLists(b)
    ensures a == b
  {
    forall k | 0 <= k < |a|
      ensures a[k] == b[k]
    {
      var x, y := EntryLists(a)[k], EntryLists(b)[k];
      assert x[0] == y[0] && x[1] == y[1] && x[2] == y[2] && x[3] == y[3];
      assert a[k].index == |x[0]| && b[k].index == |y[0]| && a[k].size == |x[2]| && b[k].size == |y[2]|;
    }
  }

  lemma BlobsEqual(a: seq<B.Published>, b: seq<B.Published>)
    requires BlobLists(a) == BlobLists(b)
    ensures a == b
  {
    forall k | 0 <= k < |a|
      ensures a[k] == b[k]
    {
      var x, y := BlobLists(a)[k], BlobLists(b)[k];
      assert x[0] == y[0] && x[1] == y[1] && x[2] == y[2] && x[3] == y[3];
      assert a[k].generation == |x[1]| && b[k].generation == |y[1]| && a[k].size == |x[2]| && b[k].size == |y[2]|;
    }
  }

  /** Different manifests have different lists. */
  lemma ManifestsDiffer(m: Manifest, n: Manifest)
    requires ManifestLists(m) == ManifestLists(n)
    ensures m == n
  {
    var a, b := ManifestLists(m), ManifestLists(n);
    var c, d := |m.inventory.entries|, |n.inventory.entries|;
    assert a[0] == b[0];
    assert forall i :: 0 <= i < 6 ==> a[0][i] == b[0][i];
    assert a[0][5] == Tally(c) && b[0][5] == Tally(d) && c == |Tally(c)| && d == |Tally(d)|;
    assert m.inventory.count == |a[0][3]| && n.inventory.count == |b[0][3]|;
    assert m.inventory.total == |a[0][4]| && n.inventory.total == |b[0][4]|;
    assert a[1..c + 1] == EntryLists(m.inventory.entries) && b[1..c + 1] == EntryLists(n.inventory.entries);
    EntriesEqual(m.inventory.entries, n.inventory.entries);
    assert a[c + 1..] == BlobLists(m.blobs) && b[c + 1..] == BlobLists(n.blobs);
    BlobsEqual(m.blobs, n.blobs);
    assert m.bucket == a[0][0] && m.specId == a[0][1] && m.session == a[0][2];
    assert n.bucket == b[0][0] && n.specId == b[0][1] && n.session == b[0][2];
  }

  function Body(m: Manifest): Bytes {
    Serialise(ManifestLists(m))
  }

  /** The manifest given is the only one whose encoding fits. */
  ghost function Concrete(only: Manifest): Format {
    Format(Serial.Digest, Body, m => if m == only then [0] else [], b => if b == [0] then Some(only) else None)
  }

  lemma BodyInjective(m: Manifest, n: Manifest)
    ensures Body(m) == Body(n) ==> m == n
  {
    if Body(m) == Body(n) {
      SerialiseInjective(ManifestLists(m), ManifestLists(n));
      ManifestsDiffer(m, n);
    }
  }

  /** For every accepted manifest there is a sound format that encodes it. */
  lemma AcceptedIsEncodable(m: Manifest)
    requires Accepted(m)
    ensures exists f :: Sound(f) && Encodable(f, m)
  {
    var f := Concrete(m);
    forall a, b
      ensures NoSlash(Serial.Digest(a)) && (Serial.Digest(a) == Serial.Digest(b) ==> a == b)
    {
      DigestInjective(a, b);
    }
    forall a, b
      ensures Body(a) == Body(b) ==> a == b
    {
      BodyInjective(a, b);
    }
    assert Sound(f);
    assert f.encode(m) == [0];
  }
}
