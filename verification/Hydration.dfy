/** Hydrating an acquired snapshot: stage everything privately, verify, then publish by
    twelve renames, each after an absence check. */
module Hydration {
  import opened Wrappers
  import opened Paths
  import opened InputScan
  import opened InventoryScan
  import opened StagedTree
  import opened StagedEntries
  import opened HydratedInventory
  import opened CloudControl

  /** The points at which the file system may fail: making the staging directory, making
      the j-th staged root, writing the k-th entry, the j-th rename. */
  datatype Point = Staging | Root(j: nat) | WriteEntry(k: nat) | Move(j: nat)

  type Works = Point -> bool

  /** The parent directory once the first `k` staged objects are renamed into it. */
  ghost function WithFirst(before: Names, bases: seq<string>, full: Names, k: nat): Names
    requires NamesOk(bases) && k <= |bases| && forall j :: 0 <= j < |bases| ==> bases[j] in full
  {
    if k == 0 then before else WithFirst(before, bases, full, k - 1)[bases[k - 1] := full[bases[k - 1]]]
  }

  /** In every state of the publication each destination is absent or the complete staged
      object, destinations appear in order, and no other name is touched. */
  lemma {:induction false} EveryStateSafe(before: Names, bases: seq<string>, full: Names, k: nat)
    requires NamesOk(bases) && k <= |bases| && forall j :: 0 <= j < |bases| ==> bases[j] in full && bases[j] !in before
    ensures forall j :: 0 <= j < |bases| ==> (bases[j] in WithFirst(before, bases, full, k) <==> j < k)
    ensures forall j :: 0 <= j < k ==> WithFirst(before, bases, full, k)[bases[j]] == full[bases[j]]
    ensures forall n :: n !in bases ==>
      (n in WithFirst(before, bases, full, k) <==> n in before)
      && (n in before ==> WithFirst(before, bases, full, k)[n] == before[n])
  {
    if k > 0 {
      EveryStateSafe(before, bases, full, k - 1);
    }
  }

  /** The first recorded states of one hydration, and where it ended. */
  ghost predicate PublishedStates(before: Names, after: Names, history0: seq<Names>, history: seq<Names>,
                                  bases: seq<string>, full: Names, moved: nat)
  {
    && |history| == |history0| + moved && history[..|history0|] == history0
    && (moved == 0 ==> after == before)
    && (moved > 0 ==>
          && NamesOk(bases) && moved <= |bases|
          && (forall j :: 0 <= j < |bases| ==> bases[j] in full && bases[j] !in before)
          && after == WithFirst(before, bases, full, moved)
          && forall k :: 1 <= k <= moved ==> history[|history0| + k - 1] == WithFirst(before, bases, full, k))
  }

  /** One rename more. */
  lemma MovedOne(before: Names, current: Names, history0: seq<Names>, history: seq<Names>,
                 bases: seq<string>, full: Names, moved: nat)
    requires NamesOk(bases) && moved < |bases|
    requires forall j :: 0 <= j < |bases| ==> bases[j] in full && bases[j] !in before
    requires PublishedStates(before, current, history0, history, bases, full, moved)
    requires current == WithFirst(before, bases, full, moved)
    ensures var next := current[bases[moved] := full[bases[moved]]];
            && next == WithFirst(before, bases, full, moved + 1)
            && PublishedStates(before, next, history0, history + [next], bases, full, moved + 1)
  {
    var next := current[bases[moved] := full[bases[moved]]];
    assert (history + [next])[..|history0|] == history[..|history0|];
  }

  ghost predicate ContentsFor(digest: Digest, contents: map<string, Bytes>, entries: seq<Entry>) {
    forall i :: 0 <= i < |entries| ==> ContentFor(digest, contents, entries[i])
  }

  /** The first `i` entries can be written: no fault, and no clash among them. */
  ghost predicate Stageable(entries: seq<Entry>, works: Works, i: nat)
    requires i <= |entries|
  {
    && (forall k :: 0 <= k < i ==> works(WriteEntry(k)))
    && (forall j, k :: 0 <= j < k < i ==> !Clash(entries[j], entries[k]))
  }

  lemma StageableStep(entries: seq<Entry>, works: Works, i: nat)
    requires i < |entries| && Stageable(entries, works, i)
    ensures Stageable(entries, works, i + 1)
       <==> works(WriteEntry(i)) && forall k :: 0 <= k < i ==> !Clash(entries[k], entries[i])
    ensures Stageable(entries, works, |entries|) ==> Stageable(entries, works, i + 1)
  {
  }

  /** Changing one root by its entry leaves the other roots in place. */
  lemma OthersInPlace(held: Names, bases: seq<string>, entries: seq<Entry>, i: nat, digest: Digest,
                      index: nat, n: Node)
    requires NamesOk(bases) && i < |entries| && Staged(held, bases, entries, i, digest)
    requires index <= ROOT_COUNT && entries[i].index == index
    ensures forall j :: 1 <= j <= ROOT_COUNT && j != index ==>
              RootInPlace(held[bases[index] := n], bases[j], j, entries[..i + 1], digest)
  {
    forall j | 1 <= j <= ROOT_COUNT && j != index
      ensures RootInPlace(held[bases[index] := n], bases[j], j, entries[..i + 1], digest)
    {
      assert bases[j] != bases[index];
      assert RootInPlace(held, bases[j], j, entries[..i], digest);
      OtherRootUntouched(held[bases[j]].children, j, entries, i, digest);
    }
  }

  /** The first `i` entries could be written, and are in place. */
  ghost predicate WrittenUpTo(held: Names, bases: seq<string>, entries: seq<Entry>, i: nat, works: Works, digest: Digest)
    requires NamesOk(bases)
  {
    i <= |entries| && Stageable(entries, works, i) && Staged(held, bases, entries, i, digest)
  }

  lemma NoneWritten(held: Names, bases: seq<string>, entries: seq<Entry>, works: Works, digest: Digest)
    requires NamesOk(bases) && Staged(held, bases, entries, 0, digest)
    ensures WrittenUpTo(held, bases, entries, 0, works, digest)
  {
  }

  class ParentDirectory {
    var names: Names
    var staging: Names
    ghost var history: seq<Names>

    /** One entry: missing parents, then the file, created exclusively. */
    method StageEntry(bases: seq<string>, entries: seq<Entry>, i: nat, contents: map<string, Bytes>, digest: Digest)
      returns (ok: bool)
      requires NamesOk(bases) && ValidEntries(entries) && ContentsFor(digest, contents, entries)
      requires i < |entries| && Staged(staging, bases, entries, i, digest)
      modifies this`staging
      ensures ok <==> forall k :: 0 <= k < i ==> !Clash(entries[k], entries[i])
      ensures ok ==> Staged(staging, bases, entries, i + 1, digest)
    {
      SpecFirst(entries);
      assert ContentFor(digest, contents, entries[i]) && EntryOk(entries[i]);
      var e, content := entries[i], contents[entries[i].hash];
      if e.index == 0 {
        OthersInPlace(staging, bases, entries, i, digest, 0, File(bases[0], content));
        staging := staging[bases[0] := File(bases[0], content)];
        return true;
      }
      assert RootInPlace(staging, bases[e.index], e.index, entries[..i], digest);
      var children, segments := staging[bases[e.index]].children, Split(e.path);
      EntrySegments(e);
      WriteSucceedsIff(children, segments, content);
      BlockedIffClash(children, entries, i, digest);
      var written := WriteFile(children, segments, content);
      if written.None? {
        return false;
      }
      EntryStaged(children, entries, i, digest, content);
      OthersInPlace(staging, bases, entries, i, digest, e.index, Dir(bases[e.index], written.value));
      staging := staging[bases[e.index] := Dir(bases[e.index], written.value)];
      ok := true;
    }

    /** The eleven empty roots. */
    method MakeRoots(bases: seq<string>, works: Works, ghost entries: seq<Entry>, ghost digest: Digest)
      returns (ok: bool)
      requires NamesOk(bases) && staging == map[]
      modifies this`staging
      ensures ok <==> forall j :: 1 <= j <= ROOT_COUNT ==> works(Root(j))
      ensures ok ==> Staged(staging, bases, entries, 0, digest)
    {
      var j := 1;
      while j <= ROOT_COUNT
        invariant 1 <= j <= ROOT_COUNT + 1
        invariant forall k :: 1 <= k < j ==> works(Root(k))
        invariant forall k :: 1 <= k < j ==> bases[k] in staging && staging[bases[k]] == Dir(bases[k], [])
        invariant bases[0] !in staging
      {
        if !works(Root(j)) {
          return false;
        }
        staging := staging[bases[j] := Dir(bases[j], [])];
        j := j + 1;
      }
      assert entries[..0] == [];
      ok := true;
    }

    method WriteNext(bases: seq<string>, entries: seq<Entry>, i: nat, contents: map<string, Bytes>,
                     works: Works, digest: Digest)
      returns (ok: bool)
      requires NamesOk(bases) && ValidEntries(entries) && ContentsFor(digest, contents, entries)
      requires i < |entries| && WrittenUpTo(staging, bases, entries, i, works, digest)
      modifies this`staging
      ensures ok ==> WrittenUpTo(staging, bases, entries, i + 1, works, digest)
      ensures !ok ==> !Stageable(entries, works, |entries|)
    {
      StageableStep(entries, works, i);
      ok := works(WriteEntry(i));
      if ok {
        ok := StageEntry(bases, entries, i, contents, digest);
      }
    }

    method WriteEntries(bases: seq<string>, entries: seq<Entry>, contents: map<string, Bytes>,
                        works: Works, digest: Digest)
      returns (ok: bool)
      requires NamesOk(bases) && ValidEntries(entries) && ContentsFor(digest, contents, entries)
      requires Staged(staging, bases, entries, 0, digest)
      modifies this`staging
      ensures ok == Stageable(entries, works, |entries|)
      ensures ok ==> Staged(staging, bases, entries, |entries|, digest)
    {
      ok := true;
      NoneWritten(staging, bases, entries, works, digest);
      for i := 0 to |entries|
        invariant ok && ok == WrittenUpTo(staging, bases, entries, i, works, digest)
      {
        ok := WriteNext(bases, entries, i, contents, works, digest);
        if !ok {
          return;
        }
      }
    }

    /** The whole staged tree. */
    method CreateStagedTree(bases: seq<string>, entries: seq<Entry>, contents: map<string, Bytes>,
                            works: Works, digest: Digest)
      returns (ok: bool)
      requires NamesOk(bases) && ValidEntries(entries) && ContentsFor(digest, contents, entries)
      requires staging == map[]
      modifies this`staging
      ensures ok <==> Stageable(entries, works, |entries|) && forall j :: 1 <= j <= ROOT_COUNT ==> works(Root(j))
      ensures ok ==> Staged(staging, bases, entries, |entries|, digest)
    {
      ok := MakeRoots(bases, works, entries, digest);
      if ok {
        ok := WriteEntries(bases, entries, contents, works, digest);
      }
    }

    /** The twelve renames, each after checking that its destination is absent. */
    method Publish(bases: seq<string>, works: Works) returns (ok: bool, ghost moved: nat)
      requires NamesOk(bases)
      requires forall j :: 0 <= j < |bases| ==> bases[j] in staging && bases[j] !in names
      modifies this
      ensures ok <==> forall j :: 0 <= j < |bases| ==> works(Move(j))
      ensures ok ==> names == WithFirst(old(names), bases, old(staging), |bases|)
      ensures PublishedStates(old(names), names, old(history), history, bases, old(staging), moved)
    {
      ghost var full := staging;
      var j := 0;
      while j < |bases|
        invariant j <= |bases|
        invariant forall k :: 0 <= k < j ==> works(Move(k))
        invariant names == WithFirst(old(names), bases, full, j)
        invariant forall k :: j <= k < |bases| ==> bases[k] in staging && staging[bases[k]] == full[bases[k]]
        invariant PublishedStates(old(names), names, old(history), history, bases, full, j)
      {
        EveryStateSafe(old(names), bases, full, j);
        if !works(Move(j)) || bases[j] in names {
          return false, j;
        }
        MovedOne(old(names), names, old(history), history, bases, full, j);
        names := names[bases[j] := staging[bases[j]]];
        staging := staging - {bases[j]};
        history := history + [names];
        j := j + 1;
      }
      return true, j;
    }
  }
}
