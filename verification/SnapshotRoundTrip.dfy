/** Hydration of a whole acquired snapshot, and the round trip: publish, acquire at the
    pinned generations, hydrate into any fresh matching control. */
module SnapshotRoundTrip {
  import opened Wrappers
  import opened Paths
  import opened InputScan
  import opened InventoryScan
  import opened InventoryLookup
  import opened StagedTree
  import opened StagedEntries
  import opened HydratedInventory
  import opened CloudControl
  import opened Hydration
  import opened SnapshotManifest
  import opened SnapshotPublication
  import opened SnapshotRestore
  import B = ObjectBucket

  datatype Restored = Restored(request: Request, manifest: Manifest)

  /** No staged path may touch the state root. */
  predicate StagingClear(c: Control, stagingName: string)
    requires ControlOk(c) && c.spec != []
  {
    forall j :: 0 <= j <= ROOT_COUNT ==> !Overlap(Parent(c.spec) + [stagingName, BaseNames(c)[j]], c.stateRoot)
  }

  predicate SameBinding(c: Control, m: Manifest) {
    m.specId == c.specId && m.session == c.session && m.bucket == c.bucket
  }

  predicate Absent(c: Control, names: Names)
    requires ControlOk(c)
  {
    forall j :: 0 <= j <= ROOT_COUNT ==> BaseNames(c)[j] !in names
  }

  /** The checks before anything is written. */
  predicate PreflightOk(c: Control, m: Manifest, names: Names, stagingName: string, works: Works)
    requires ControlOk(c)
  {
    SameBinding(c, m) && ShareParent(c) && Absent(c, names) && works(Staging) && StagingClear(c, stagingName)
  }

  /** The acquired bytes of the spec file are bound to this control. */
  ghost predicate SpecBound(c: Control, f: Format, a: Acquired) {
    a.manifest.inventory.entries != [] &&
    forall b :: b in a.blobs && b.published.hash == a.manifest.inventory.entries[0].hash ==> c.binds(b.content)
  }

  ghost predicate StagingOk(c: Control, f: Format, a: Acquired, works: Works) {
    var entries := a.manifest.inventory.entries;
    && Stageable(entries, works, |entries|)
    && (forall j :: 1 <= j <= ROOT_COUNT ==> works(Root(j)))
    && SpecBound(c, f, a)
  }

  ghost predicate MovesOk(works: Works) {
    forall j :: 0 <= j <= ROOT_COUNT ==> works(Move(j))
  }

  /** Exactly when hydration completes. */
  ghost predicate Hydratable(c: Control, f: Format, a: Acquired, names: Names, stagingName: string, works: Works)
    requires ControlOk(c)
  {
    PreflightOk(c, a.manifest, names, stagingName, works) && StagingOk(c, f, a, works) && MovesOk(works)
  }

  // ---------------------------------------------------------------- when hydration completes

  /** All destinations lie beside the spec file's, under names not yet taken there, and no
      path lies both under a staged object and in the state root. */
  ghost predicate Placed(c: Control, names: Names, stagingName: string) {
    && |c.spec| > 1
    && var parent := c.spec[..|c.spec| - 1];
       forall d {:trigger d in Destinations(c)} :: d in Destinations(c) ==>
         && |d| > 1 && d[..|d| - 1] == parent && d[|d| - 1] !in names
         && forall q :: !(Covers(parent + [stagingName, d[|d| - 1]], q) && Covers(c.stateRoot, q))
  }

  /** No call of the file system fails. */
  ghost predicate Faultless(entries: seq<Entry>, works: Works) {
    && works(Staging) && (forall j :: 1 <= j <= ROOT_COUNT ==> works(Root(j)))
    && (forall k :: 0 <= k < |entries| ==> works(WriteEntry(k)))
    && (forall j :: 0 <= j <= ROOT_COUNT ==> works(Move(j)))
  }

  /** No path lies at or below two entries of one root. */
  ghost predicate EntriesApart(entries: seq<Entry>) {
    forall i, j, q :: 0 <= i < j < |entries| && entries[i].index == entries[j].index != 0 ==>
      !(Covers(Split(entries[i].path), q) && Covers(Split(entries[j].path), q))
  }

  lemma ApartIff(entries: seq<Entry>)
    ensures EntriesApart(entries) <==> Writable(entries)
  {
    forall i, j | 0 <= i < j < |entries|
      ensures Overlap(Split(entries[i].path), Split(entries[j].path)) <==>
                exists q :: Covers(Split(entries[i].path), q) && Covers(Split(entries[j].path), q)
    {
      OverlapIffSharedPath(Split(entries[i].path), Split(entries[j].path));
    }
  }

  lemma DestinationNames(c: Control, j: nat)
    requires ControlOk(c) && ShareParent(c) && j <= ROOT_COUNT
    ensures var d := Destinations(c)[j];
            |d| > 1 && d[..|d| - 1] == c.spec[..|c.spec| - 1] && d[|d| - 1] == BaseNames(c)[j]
  {
    NotRoot(c, j);
    assert AllPaths(c)[j] == Destinations(c)[j];
  }

  lemma PlacedIff(c: Control, names: Names, stagingName: string)
    requires ControlOk(c)
    ensures Placed(c, names, stagingName) <==> ShareParent(c) && Absent(c, names) && StagingClear(c, stagingName)
  {
    var paths := Destinations(c);
    if |c.spec| > 1 {
      var parent := c.spec[..|c.spec| - 1];
      forall j | 0 <= j <= ROOT_COUNT
        ensures AllPaths(c)[j] == paths[j] && paths[j] in paths
        ensures var staged := parent + [stagingName, BaseNames(c)[j]];
                Overlap(staged, c.stateRoot) <==> exists q :: Covers(staged, q) && Covers(c.stateRoot, q)
      {
        OverlapIffSharedPath(parent + [stagingName, BaseNames(c)[j]], c.stateRoot);
      }
      if ShareParent(c) {
        forall j | 0 <= j <= ROOT_COUNT
          ensures var d := paths[j]; |d| > 1 && d[..|d| - 1] == parent && d[|d| - 1] == BaseNames(c)[j]
        {
          DestinationNames(c, j);
        }
        forall d | d in paths
          ensures exists j :: 0 <= j <= ROOT_COUNT && paths[j] == d
        {
        }
      }
    }
  }

  /** Exactly when a hydration completes: manifest and control are bound to the same things,
      the destinations are free and well placed, the entries can lie side by side, the
      acquired spec file belongs to the control, and no call fails. */
  lemma HydratableIff(c: Control, f: Format, a: Acquired, names: Names, stagingName: string, works: Works)
    requires ControlOk(c) && AcquiredOk(f, a)
    ensures Hydratable(c, f, a, names, stagingName, works) <==>
      var m := a.manifest;
      && m.specId == c.specId && m.session == c.session && m.bucket == c.bucket
      && Placed(c, names, stagingName) && EntriesApart(m.inventory.entries) && Faultless(m.inventory.entries, works)
      && forall b, e :: b in a.blobs && e in m.inventory.entries && e.index == 0 && b.published.hash == e.hash ==>
           c.binds(b.content)
  {
    var entries := a.manifest.inventory.entries;
    PlacedIff(c, names, stagingName);
    ApartIff(entries);
    SpecFirst(entries);
    assert entries[0] in entries;
    assert forall e :: e in entries && e.index == 0 ==> e == entries[0];
  }

  // ---------------------------------------------------------------- binding contents

  lemma BlobFor(f: Format, a: Acquired, i: nat) returns (k: nat)
    requires AcquiredOk(f, a) && i < |a.manifest.inventory.entries|
    ensures k < |a.blobs| && a.blobs[k].published.hash == a.manifest.inventory.entries[i].hash
    ensures a.blobs[k].published.size == a.manifest.inventory.entries[i].size
  {
    var e := a.manifest.inventory.entries[i];
    assert HasBlob(a.manifest.blobs, e);
    var p :| p in a.manifest.blobs && p.hash == e.hash;
    k :| 0 <= k < |a.manifest.blobs| && a.manifest.blobs[k] == p;
    assert HasEntry(a.manifest.inventory.entries, p);
    var g :| g in a.manifest.inventory.entries && g.hash == p.hash && g.size == p.size;
  }

  method ContentsByHash(blobs: seq<Blob>) returns (contents: map<string, Bytes>)
    requires forall j, k :: 0 <= j < k < |blobs| ==> blobs[j].published.hash != blobs[k].published.hash
    ensures forall b :: b in blobs ==> b.published.hash in contents && contents[b.published.hash] == b.content
  {
    contents := map[];
    for k := 0 to |blobs|
      invariant forall j :: 0 <= j < k ==>
        blobs[j].published.hash in contents && contents[blobs[j].published.hash] == blobs[j].content
      invariant forall h :: h in contents ==> exists j :: 0 <= j < k && blobs[j].published.hash == h
    {
      contents := contents[blobs[k].published.hash := blobs[k].content];
    }
  }

  lemma BlobHashesDiffer(f: Format, a: Acquired)
    requires AcquiredOk(f, a)
    ensures forall j, k :: 0 <= j < k < |a.blobs| ==> a.blobs[j].published.hash != a.blobs[k].published.hash
  {
  }

  /** Contents by hash: never a repeated hash, and one for every entry, so that both
      checks of this step always pass. */
  method BindContents(f: Format, a: Acquired) returns (contents: map<string, Bytes>)
    requires AcquiredOk(f, a)
    ensures ContentsFor(f.digest, contents, a.manifest.inventory.entries)
  {
    BlobHashesDiffer(f, a);
    contents := ContentsByHash(a.blobs);
    AllBound(f, a, contents);
  }

  lemma AllBound(f: Format, a: Acquired, contents: map<string, Bytes>)
    requires AcquiredOk(f, a)
    requires forall b :: b in a.blobs ==> b.published.hash in contents && contents[b.published.hash] == b.content
    ensures ContentsFor(f.digest, contents, a.manifest.inventory.entries)
  {
    forall i | 0 <= i < |a.manifest.inventory.entries|
      ensures ContentFor(f.digest, contents, a.manifest.inventory.entries[i])
    {
      var j := BlobFor(f, a, i);
      assert a.blobs[j] in a.blobs && BlobOk(f, a.blobs[j]);
    }
  }

  // ---------------------------------------------------------------- hydration

  lemma NothingMoved(names: Names, history: seq<Names>, bases: seq<string>, full: Names)
    ensures PublishedStates(names, names, history, history, bases, full, 0)
  {
    assert history[..|history|] == history;
  }

  /** What a completed hydration leaves at the twelve destinations. */
  ghost predicate Hydrated(c: Control, f: Format, m: Manifest, names: Names)
    requires ControlOk(c)
  {
    && (forall j :: 0 <= j <= ROOT_COUNT ==> BaseNames(c)[j] in names)
    && var inputs := HeldInputs(names, BaseNames(c));
       ListedInputs(inputs) && Scannable(inputs, f.digest) && InventoryOf(inputs, f.digest) == m.inventory
  }

  lemma AllInPlace(held: Names, c: Control, f: Format, m: Manifest)
    requires ControlOk(c) && NamesOk(BaseNames(c)) && ValidManifest(m)
    requires Staged(held, BaseNames(c), m.inventory.entries, |m.inventory.entries|, f.digest)
    ensures Hydrated(c, f, m, held)
  {
    StagedInventory(held, BaseNames(c), m.inventory, f.digest);
  }

  /** Renaming all twelve leaves them as they were staged. */
  lemma AllMoved(before: Names, bases: seq<string>, full: Names, c: Control, f: Format, m: Manifest)
    requires ControlOk(c) && bases == BaseNames(c) && NamesOk(bases) && Hydrated(c, f, m, full)
    requires forall j :: 0 <= j < |bases| ==> bases[j] !in before
    ensures Hydrated(c, f, m, WithFirst(before, bases, full, |bases|))
  {
    var after := WithFirst(before, bases, full, |bases|);
    EveryStateSafe(before, bases, full, |bases|);
    assert HeldInputs(after, bases).roots == HeldInputs(full, bases).roots;
    assert HeldInputs(after, bases) == HeldInputs(full, bases);
  }

  /** The spec file's staged bytes are the acquired ones. */
  lemma StagedSpec(c: Control, f: Format, a: Acquired, held: Names, bases: seq<string>)
    requires Sound(f) && AcquiredOk(f, a) && NamesOk(bases)
    requires Staged(held, bases, a.manifest.inventory.entries, |a.manifest.inventory.entries|, f.digest)
    ensures a.manifest.inventory.entries != []
    ensures bases[0] in held && held[bases[0]].File? && (c.binds(held[bases[0]].content) <==> SpecBound(c, f, a))
  {
    var entries := a.manifest.inventory.entries;
    SpecFirst(entries);
    var k := BlobFor(f, a, 0);
    assert a.blobs[k] in a.blobs && BlobOk(f, a.blobs[k]);
    forall b | b in a.blobs && b.published.hash == entries[0].hash
      ensures b.content == held[bases[0]].content
    {
      var j :| 0 <= j < |a.blobs| && a.blobs[j] == b;
      assert BlobOk(f, a.blobs[j]);
    }
  }

  /** Stage everything and verify what was staged. */
  method StageSnapshot(dir: ParentDirectory, c: Control, f: Format, a: Acquired, works: Works) returns (ok: bool)
    requires Sound(f) && ControlOk(c) && AcquiredOk(f, a) && dir.staging == map[]
    requires NamesOk(BaseNames(c))
    modifies dir`staging
    ensures ok == StagingOk(c, f, a, works)
    ensures ok ==> Staged(dir.staging, BaseNames(c), a.manifest.inventory.entries,
                          |a.manifest.inventory.entries|, f.digest)
  {
    var entries, bases := a.manifest.inventory.entries, BaseNames(c);
    var contents := BindContents(f, a);
    ok := dir.CreateStagedTree(bases, entries, contents, works, f.digest);
    if ok {
      AllInPlace(dir.staging, c, f, a.manifest);
      StagedSpec(c, f, a, dir.staging, bases);
      var scanned := BuildInventory(HeldInputs(dir.staging, bases), f.digest);
      ok := scanned == Some(a.manifest.inventory) && c.binds(dir.staging[bases[0]].content);
    }
  }

  lemma AfterMoves(before: Names, full: Names, c: Control, f: Format, a: Acquired)
    requires Sound(f) && ControlOk(c) && AcquiredOk(f, a) && NamesOk(BaseNames(c)) && Absent(c, before)
    requires Staged(full, BaseNames(c), a.manifest.inventory.entries, |a.manifest.inventory.entries|, f.digest)
    requires SpecBound(c, f, a)
    ensures Hydrated(c, f, a.manifest, full)
    ensures var after := WithFirst(before, BaseNames(c), full, ROOT_COUNT + 1);
            Hydrated(c, f, a.manifest, after) && after[BaseNames(c)[0]].File? && c.binds(after[BaseNames(c)[0]].content)
  {
    AllInPlace(full, c, f, a.manifest);
    AllMoved(before, BaseNames(c), full, c, f, a.manifest);
    EveryStateSafe(before, BaseNames(c), full, ROOT_COUNT + 1);
    StagedSpec(c, f, a, full, BaseNames(c));
  }

  /** `verify_hydrated_input_inventory` and the final check of the spec file. */
  method VerifyHydrated(c: Control, f: Format, m: Manifest, names: Names) returns (ok: bool)
    requires ControlOk(c) && Hydrated(c, f, m, names)
    ensures ok == c.binds(HeldInputs(names, BaseNames(c)).spec.content)
  {
    var inputs := HeldInputs(names, BaseNames(c));
    var rebuilt := BuildInventory(inputs, f.digest);
    ok := rebuilt == Some(m.inventory) && c.binds(inputs.spec.content);
  }

  /** The renames, and the verification of what they left. */
  method PublishSnapshot(dir: ParentDirectory, c: Control, f: Format, a: Acquired, works: Works)
    returns (ok: bool, ghost moved: nat)
    requires Sound(f) && ControlOk(c) && AcquiredOk(f, a) && NamesOk(BaseNames(c)) && Absent(c, dir.names)
    requires Staged(dir.staging, BaseNames(c), a.manifest.inventory.entries,
                    |a.manifest.inventory.entries|, f.digest)
    requires SpecBound(c, f, a)
    modifies dir
    ensures ok == MovesOk(works)
    ensures ok ==> Hydrated(c, f, a.manifest, dir.names)
    ensures PublishedStates(old(dir.names), dir.names, old(dir.history), dir.history, BaseNames(c), old(dir.staging), moved)
  {
    AfterMoves(dir.names, dir.staging, c, f, a);
    ok, moved := dir.Publish(BaseNames(c), works);
    if ok {
      ok := VerifyHydrated(c, f, a.manifest, dir.names);
    }
  }

  /** The whole hydration.  It completes exactly when nothing stands in its way; every
      state of the parent directory on the way holds each destination either not at all or
      complete; and a completed result means the final tree has the acquired inventory. */
  method Hydrate(dir: ParentDirectory, c: Control, f: Format, a: Acquired, stagingName: string, works: Works)
    returns (r: Option<Restored>, ghost moved: nat, ghost full: Names)
    requires Sound(f) && ControlOk(c) && AcquiredOk(f, a) && dir.staging == map[]
    modifies dir
    ensures r.Some? == Hydratable(c, f, a, old(dir.names), stagingName, works)
    ensures r.Some? ==> r.value == Restored(a.request, a.manifest) && Hydrated(c, f, a.manifest, dir.names)
    ensures PublishedStates(old(dir.names), dir.names, old(dir.history), dir.history, BaseNames(c), full, moved)
    ensures moved > 0 ==> Hydrated(c, f, a.manifest, full)
  {
    r, moved, full := None, 0, map[];
    NothingMoved(dir.names, dir.history, BaseNames(c), full);
    if PreflightOk(c, a.manifest, dir.names, stagingName, works) {
      BaseNamesDistinct(c);
      var staged := StageSnapshot(dir, c, f, a, works);
      if staged {
        full := dir.staging;
        AllInPlace(full, c, f, a.manifest);
        var ok;
        ok, moved := PublishSnapshot(dir, c, f, a, works);
        r := if ok then Some(Restored(a.request, a.manifest)) else None;
      }
    }
  }

  // ---------------------------------------------------------------- the round trip

  /** Two scans with the same inventory saw the same files: the same bytes at the same
      path under the same input. */
  lemma SameInventorySameFiles(inputs: Inputs, others: Inputs, f: Format)
    requires Sound(f) && ListedInputs(inputs) && ListedInputs(others)
    requires Scannable(inputs, f.digest) && Scannable(others, f.digest)
    requires InventoryOf(inputs, f.digest) == InventoryOf(others, f.digest)
    ensures forall j, segments, content :: 0 <= j < ROOT_COUNT ==>
      (Holds(inputs.roots[j].children, segments, content) <==> Holds(others.roots[j].children, segments, content))
    ensures inputs.spec.content == others.spec.content
  {
    forall j, segments, content | 0 <= j < ROOT_COUNT && Holds(inputs.roots[j].children, segments, content)
      ensures Holds(others.roots[j].children, segments, content)
    {
      FileCarried(inputs, others, f, j, segments, content);
    }
    forall j, segments, content | 0 <= j < ROOT_COUNT && Holds(others.roots[j].children, segments, content)
      ensures Holds(inputs.roots[j].children, segments, content)
    {
      FileCarried(others, inputs, f, j, segments, content);
    }
    SpecCarried(inputs, others, f);
  }

  lemma FileCarried(inputs: Inputs, others: Inputs, f: Format, j: nat, segments: Path, content: Bytes)
    requires Sound(f) && ListedInputs(inputs) && ListedInputs(others)
    requires Scannable(inputs, f.digest) && Scannable(others, f.digest)
    requires InventoryOf(inputs, f.digest) == InventoryOf(others, f.digest)
    requires j < ROOT_COUNT && Holds(inputs.roots[j].children, segments, content)
    ensures Holds(others.roots[j].children, segments, content)
  {
    var e := EntryOf(f.digest, j + 1, segments, content);
    assert Found(inputs.roots, f.digest, e);
    InventoryListsFiles(inputs, f.digest, e);
    InventoryListsFiles(others, f.digest, e);
    var p, c :| Holds(others.roots[j].children, p, c) && e == EntryOf(f.digest, j + 1, p, c);
    HeldSegmentsClean(inputs.roots[j].children, segments, content);
    HeldSegmentsClean(others.roots[j].children, p, c);
    JoinInjective(segments, p);
    assert f.digest(content) == f.digest(c);
  }

  lemma SpecCarried(inputs: Inputs, others: Inputs, f: Format)
    requires Sound(f) && ListedInputs(inputs) && ListedInputs(others)
    requires Scannable(inputs, f.digest) && Scannable(others, f.digest)
    requires InventoryOf(inputs, f.digest) == InventoryOf(others, f.digest)
    ensures inputs.spec.content == others.spec.content
  {
    var e := SpecEntry(inputs, f.digest);
    var g := SpecEntry(others, f.digest);
    ScannedInventory(inputs, f);
    OnlySpec(InventoryOf(inputs, f.digest).entries, e);
    OnlySpec(InventoryOf(inputs, f.digest).entries, g);
    assert f.digest(inputs.spec.content) == f.digest(others.spec.content);
  }

  lemma OnlySpec(entries: seq<Entry>, e: Entry)
    requires ValidEntries(entries) && e in entries && e.index == 0
    ensures entries[0] == e
  {
    SpecFirst(entries);
    var i :| 0 <= i < |entries| && entries[i] == e;
    assert i == 0;
  }

  lemma SpecEntry(inputs: Inputs, digest: Digest) returns (e: Entry)
    requires ListedInputs(inputs) && Scannable(inputs, digest)
    ensures e == Entry(0, "", |inputs.spec.content|, digest(inputs.spec.content))
    ensures e in InventoryOf(inputs, digest).entries
  {
    e := Entry(0, "", |inputs.spec.content|, digest(inputs.spec.content));
    InventoryStrictlyOrdered(inputs, digest);
    SameMembers(InventoryOf(inputs, digest).entries, AllEntries(inputs, digest));
    assert AllEntries(inputs, digest)[0] == e;
  }

  /** The acquired spec bytes are the published ones. */
  lemma PublishedSpecBound(inputs: Inputs, f: Format, a: Acquired, c: Control)
    requires Sound(f) && ListedInputs(inputs) && Scannable(inputs, f.digest) && c.binds(inputs.spec.content)
    requires AcquiredOk(f, a) && a.manifest.inventory == InventoryOf(inputs, f.digest)
    ensures SpecBound(c, f, a)
  {
    var e := SpecEntry(inputs, f.digest);
    OnlySpec(a.manifest.inventory.entries, e);
    forall b | b in a.blobs && b.published.hash == e.hash
      ensures c.binds(b.content)
    {
      var k :| 0 <= k < |a.blobs| && a.blobs[k] == b;
      assert BlobOk(f, a.blobs[k]) && f.digest(b.content) == f.digest(inputs.spec.content);
    }
  }

  /** A published snapshot, acquired as pinned, can be hydrated into every fresh control
      with the same binding. */
  lemma PublishedIsHydratable(inputs: Inputs, f: Format, a: Acquired, c: Control, names: Names,
                              stagingName: string, works: Works)
    requires Sound(f) && ListedInputs(inputs) && Scannable(inputs, f.digest) && c.binds(inputs.spec.content)
    requires AcquiredOk(f, a) && a.manifest.inventory == InventoryOf(inputs, f.digest)
    requires ControlOk(c) && ShareParent(c) && SameBinding(c, a.manifest)
    requires Absent(c, names) && StagingClear(c, stagingName) && forall p :: works(p)
    ensures Hydratable(c, f, a, names, stagingName, works)
  {
    ScannedIsWritable(inputs, f.digest);
    PublishedSpecBound(inputs, f, a, c);
  }

  /** Publish, acquire at the pinned generations, hydrate: the hydrated files are exactly
      the published ones, byte for byte, path for path, input for input. */
  lemma RoundTrip(inputs: Inputs, objects: B.Objects, f: Format, run: Run, published: Completed, a: Acquired,
                  c: Control, after: Names)
    requires Sound(f) && ListedInputs(inputs) && Scannable(inputs, f.digest)
    requires Complete(objects, f, run, InventoryOf(inputs, f.digest), published)
    requires a.manifest == published.manifest
    requires ControlOk(c) && Hydrated(c, f, a.manifest, after)
    ensures HeldInputs(after, BaseNames(c)).spec.content == inputs.spec.content
    ensures forall j, segments, content :: 0 <= j < ROOT_COUNT ==>
      (Holds(HeldInputs(after, BaseNames(c)).roots[j].children, segments, content)
       <==> Holds(inputs.roots[j].children, segments, content))
  {
    SameInventorySameFiles(HeldInputs(after, BaseNames(c)), inputs, f);
  }
}
