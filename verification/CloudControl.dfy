/** The launch control's thirteen paths: pairwise non-overlapping, so that every entry of
    an inventory has a destination of its own. */
module CloudControl {
  import opened Paths
  import opened InputScan
  import opened InventoryScan
  import opened HydratedInventory

  /** The launch control: what it expects, and its thirteen absolute paths.  `binds` says
      whether a spec file's content carries the control's own spec, session and bucket. */
  datatype Control = Control(specId: string, session: string, bucket: string,
                             spec: Path, roots: seq<Path>, stateRoot: Path, binds: Bytes -> bool)

  function Destinations(c: Control): seq<Path> {
    [c.spec] + c.roots
  }

  function AllPaths(c: Control): seq<Path> {
    Destinations(c) + [c.stateRoot]
  }

  /** What the control's constructor enforces. */
  predicate ControlOk(c: Control) {
    && |c.roots| == ROOT_COUNT
    && (forall i :: 0 <= i < |AllPaths(c)| ==> AllPaths(c)[i] != [])
    && (forall i, j :: 0 <= i < j < |AllPaths(c)| ==> !Overlap(AllPaths(c)[i], AllPaths(c)[j]))
  }

  function DestinationOf(c: Control, e: Entry): Path
    requires |c.roots| == ROOT_COUNT && EntryOk(e)
  {
    if e.index == 0 then c.spec else c.roots[e.index - 1] + Split(e.path)
  }

  lemma Apart(c: Control, i: nat, j: nat)
    requires ControlOk(c) && i < |AllPaths(c)| && j < |AllPaths(c)| && i != j
    ensures !Overlap(AllPaths(c)[i], AllPaths(c)[j])
  {
    assert !Overlap(AllPaths(c)[if i < j then i else j], AllPaths(c)[if i < j then j else i]);
  }

  /** Different entries go to different places, none of them in the state root. */
  lemma DestinationsDistinct(c: Control, e: Entry, f: Entry)
    requires ControlOk(c) && EntryOk(e) && EntryOk(f)
    ensures DestinationOf(c, e) == DestinationOf(c, f) <==> e.index == f.index && e.path == f.path
    ensures !Overlap(DestinationOf(c, e), c.stateRoot)
  {
    InsideRoot(c, e);
    InsideRoot(c, f);
    if e.index != f.index {
      Apart(c, e.index, f.index);
      OverlapIffSharedPath(AllPaths(c)[e.index], AllPaths(c)[f.index]);
    } else if e.index != 0 {
      JoinSplit(e.path);
      JoinSplit(f.path);
      var root := c.roots[e.index - 1];
      assert Split(e.path) == (root + Split(e.path))[|root|..] && Split(f.path) == (root + Split(f.path))[|root|..];
    }
    Apart(c, e.index, ROOT_COUNT + 1);
    if Overlap(DestinationOf(c, e), c.stateRoot) {
      OverlapWiden(AllPaths(c)[e.index], DestinationOf(c, e), c.stateRoot);
    }
  }

  lemma InsideRoot(c: Control, e: Entry)
    requires |c.roots| == ROOT_COUNT && EntryOk(e)
    ensures AllPaths(c)[e.index] == Destinations(c)[e.index] && Covers(Destinations(c)[e.index], DestinationOf(c, e))
  {
    if e.index != 0 {
      assert Destinations(c)[e.index] == c.roots[e.index - 1];
    }
  }

  // ---------------------------------------------------------------- the common parent

  function Basename(p: Path): string
    requires p != []
  {
    p[|p| - 1]
  }

  function Parent(p: Path): Path
    requires p != []
  {
    if |p| == 1 then p else p[..|p| - 1]
  }

  function BaseNames(c: Control): (names: seq<string>)
    requires ControlOk(c)
    ensures |names| == ROOT_COUNT + 1
    ensures forall j :: 0 <= j <= ROOT_COUNT ==> names[j] == Basename(AllPaths(c)[j])
  {
    seq(ROOT_COUNT + 1, j requires 0 <= j <= ROOT_COUNT => Basename(AllPaths(c)[j]))
  }

  /** All twelve destinations share one parent that is not the file system's root. */
  predicate ShareParent(c: Control)
    requires ControlOk(c)
  {
    |c.spec| > 1 && forall i :: 0 <= i <= ROOT_COUNT ==> Parent(AllPaths(c)[i]) == Parent(c.spec)
  }

  lemma SameParentAndName(p: Path, q: Path)
    requires |p| > 1 && |q| > 1 && Parent(p) == Parent(q) && Basename(p) == Basename(q)
    ensures p == q
  {
    assert p == Parent(p) + [Basename(p)] && q == Parent(q) + [Basename(q)];
  }

  lemma NotRoot(c: Control, i: nat)
    requires ControlOk(c) && ShareParent(c) && i <= ROOT_COUNT
    ensures |AllPaths(c)[i]| > 1
  {
    assert AllPaths(c)[0] == c.spec;
    if |AllPaths(c)[i]| == 1 {
      assert Parent(c.spec) == AllPaths(c)[i];
      Apart(c, 0, i);
    }
  }

  /** Non-overlapping destinations of one parent have distinct names, so the check for
      that never fails. */
  lemma BaseNamesDistinct(c: Control)
    requires ControlOk(c) && ShareParent(c)
    ensures NamesOk(BaseNames(c))
  {
    forall i, j | 0 <= i < j <= ROOT_COUNT
      ensures BaseNames(c)[i] != BaseNames(c)[j]
    {
      Apart(c, i, j);
      NotRoot(c, i);
      NotRoot(c, j);
      if Basename(AllPaths(c)[i]) == Basename(AllPaths(c)[j]) {
        SameParentAndName(AllPaths(c)[i], AllPaths(c)[j]);
      }
    }
  }
}
