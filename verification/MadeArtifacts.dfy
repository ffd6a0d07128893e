/** What a read and a put mean in terms of artifacts alone: of the sources an artifact
    retains, of the service that made it, and of the record that names them. */
module MadeArtifacts {
  import opened Wrappers
  import opened ReplayGraph

  /** The request that a service was given for this artifact. */
  function RequestOf(a: Artifact): Request {
    var dated := a.stage.IdentityIntake? || a.stage.IdentitySessionUniverse?;
    Request(a.stage, a.primary, a.secondary, a.tertiary, a.partition, if dated then a.dates else [], a.cutoff)
  }

  ghost predicate AllOf(stage: Stage, group: seq<Artifact>) {
    forall i :: 0 <= i < |group| ==> group[i].stage == stage
  }

  /** The sources of each kind of artifact: how many, and of which kinds. */
  ghost predicate SourcesFit(a: Artifact) {
    match a.stage
    case IdentityIntake =>
      && a.primary != [] && AllOf(ReferencePromotion, a.primary) && a.secondary == [] && a.tertiary == []
      && a.dates != []
    case IdentityAdjudication =>
      && |a.primary| == 1 && a.primary[0].stage == IdentityIntake
      && AllOf(IdentityEvidence, a.secondary) && AllOf(IdentityReview, a.tertiary)
    case IdentitySessionUniverse =>
      && |a.primary| == 2 && a.primary[0].stage == IdentityAdjudication
      && a.primary[1].stage == CalendarMaterialization && a.secondary == [] && a.tertiary == []
      && |a.dates| == 1
    case SessionMarketDataFrame =>
      && |a.primary| == 2 && a.primary[0].stage == IdentitySessionUniverse
      && a.primary[1].stage == HistoricalCorpus && a.secondary == [] && a.tertiary == []
    case SessionTickSnapshot =>
      |a.primary| == 1 && a.primary[0].stage == SessionMarketDataFrame && a.secondary == [] && a.tertiary == []
    case StableListingHistory =>
      && a.primary != [] && AllOf(SessionTickSnapshot, a.primary)
      && |a.secondary| == 1 && a.secondary[0].stage == CalendarMaterialization && a.tertiary == []
    case CorporateActionAdjustment =>
      && |a.primary| == 2 && a.primary[0].stage == StableListingHistory
      && a.primary[1].stage == CorporateActionSnapshot && a.secondary == [] && a.tertiary == []
    case EffectiveSessionTick =>
      |a.primary| == 1 && a.primary[0].stage == StableListingHistory && a.secondary == [] && a.tertiary == []
    case _ => false
  }

  /** The ID stands at this place of the list and at no other. */
  ghost predicate OnlyAt(id: Id, ids: seq<Id>, i: nat) {
    i < |ids| && ids[i] == id && forall j :: 0 <= j < |ids| && j != i ==> ids[j] != id
  }

  ghost predicate OnceIn(id: Id, ids: seq<Id>) {
    exists i: nat :: OnlyAt(id, ids, i)
  }

  /** A frame's partition is one of its corpus, named once and indexed; nothing else has a
      partition. */
  ghost predicate PartitionFits(a: Artifact) {
    if a.stage.SessionMarketDataFrame?
    then |a.primary| == 2 && OnceIn(a.partition, a.primary[1].partitions) && a.partition in a.primary[1].indexed
    else a.partition == ""
  }

  /** Each source is what its own store, or its resolver, returns. */
  ghost predicate SourcesHeld(w: World, a: Artifact) {
    forall s :: s in a.primary + a.secondary + a.tertiary ==> Get(w, KeyOf(s)) == Some(s)
  }

  /** The artifact is what its service makes, at its own cutoff and for its own dates, of
      fitting sources that are all held. */
  ghost predicate WellMade(w: World, a: Artifact) {
    && SourcesFit(a) && PartitionFits(a) && SourcesHeld(w, a)
    && Build(w.services, RequestOf(a)) == Some(a)
  }

  // ---------------------------------------------------------------- replay

  lemma {:induction false} NoOccurrences(id: Id, ids: seq<Id>)
    ensures Occurrences(id, ids) == 0 <==> id !in ids
  {
    if ids != [] {
      NoOccurrences(id, ids[1..]);
    }
  }

  lemma OnlyAtShifts(id: Id, ids: seq<Id>, i: nat)
    requires ids != [] && ids[0] != id
    ensures OnlyAt(id, ids, i + 1) <==> OnlyAt(id, ids[1..], i)
  {
    if OnlyAt(id, ids[1..], i) {
      forall j | 0 <= j < |ids| && j != i + 1
        ensures ids[j] != id
      {
        assert j > 0 ==> ids[1..][j - 1] == ids[j];
      }
    }
  }

  lemma {:induction false} OccurrencesOnce(id: Id, ids: seq<Id>)
    ensures Occurrences(id, ids) == 1 <==> OnceIn(id, ids)
  {
    if ids != [] {
      var rest := ids[1..];
      NoOccurrences(id, rest);
      if ids[0] == id {
        assert id in rest <==> exists k :: 0 < k < |ids| && ids[k] == id by {
          assert forall k :: 0 < k < |ids| ==> rest[k - 1] == ids[k];
        }
        assert OnlyAt(id, ids, 0) <==> id !in rest;
      } else {
        OccurrencesOnce(id, rest);
        if i: nat :| OnlyAt(id, rest, i) {
          OnlyAtShifts(id, ids, i);
          assert OnlyAt(id, ids, i + 1);
        }
        if i: nat :| OnlyAt(id, ids, i) {
          OnlyAtShifts(id, ids, i - 1);
          assert OnlyAt(id, rest, i - 1);
        }
      }
    }
  }

  /** The keys under which these sources are stored. */
  function KeysOf(group: seq<Artifact>): (keys: seq<Key>)
    ensures |keys| == |group| && forall i :: 0 <= i < |keys| ==> keys[i] == KeyOf(group[i])
  {
    seq(|group|, i requires 0 <= i < |group| => KeyOf(group[i]))
  }

  lemma GroupHeld(w: World, keys: seq<Key>, bound: nat, group: seq<Artifact>)
    requires (forall k :: k in keys ==> Rank(k.stage) < bound) && keys == KeysOf(group)
    ensures GetAll(w, keys, bound) == Some(group) <==> forall s :: s in group ==> Get(w, KeyOf(s)) == Some(s)
  {
    GetAllPointwise(w, keys, bound);
    if forall s :: s in group ==> Get(w, KeyOf(s)) == Some(s) {
      forall i | 0 <= i < |keys|
        ensures Get(w, keys[i]) == Some(group[i])
      {
        assert group[i] in group;
      }
      var all := GetAll(w, keys, bound).value;
      assert forall i :: 0 <= i < |keys| ==> Some(all[i]) == Some(group[i]);
      assert all == group;
    }
    if GetAll(w, keys, bound) == Some(group) {
      forall s | s in group
        ensures Get(w, KeyOf(s)) == Some(s)
      {
        var i :| 0 <= i < |group| && group[i] == s;
        assert Get(w, keys[i]) == Some(group[i]);
      }
    }
  }

  lemma KeysAtAre(stage: Stage, group: seq<Artifact>)
    ensures AllOf(stage, group) <==> KeysAt(stage, Ids(group)) == KeysOf(group)
  {
    if AllOf(stage, group) {
      assert forall i :: 0 <= i < |group| ==> KeysAt(stage, Ids(group))[i] == KeysOf(group)[i];
    }
    if KeysAt(stage, Ids(group)) == KeysOf(group) {
      forall i | 0 <= i < |group|
        ensures group[i].stage == stage
      {
        assert KeysAt(stage, Ids(group))[i] == KeysOf(group)[i];
      }
    }
  }

  lemma KeysMatch(keys: seq<Key>, group: seq<Artifact>)
    ensures SourcesMatch(keys, group) <==> keys == KeysOf(group)
  {
  }

  /** The record of an artifact has the right shape, and its keys are those of the sources
      retained, exactly when the sources fit. */
  lemma FitIffKeys(a: Artifact)
    ensures SourcesFit(a)
       <==> && ShapeOk(RecordOf(a)) && PrimaryKeys(RecordOf(a)) == KeysOf(a.primary)
            && SecondaryKeys(RecordOf(a)) == KeysOf(a.secondary) && TertiaryKeys(RecordOf(a)) == KeysOf(a.tertiary)
  {
    var rec := RecordOf(a);
    match a.stage
    case IdentityIntake =>
      KeysAtAre(ReferencePromotion, a.primary);
    case IdentityAdjudication =>
      KeysAtAre(IdentityEvidence, a.secondary);
      KeysAtAre(IdentityReview, a.tertiary);
      TwoKeys(a);
    case StableListingHistory =>
      KeysAtAre(SessionTickSnapshot, a.primary);
      KeysAtAre(CalendarMaterialization, a.secondary);
    case _ =>
      TwoKeys(a);
  }

  /** Short groups, spelled out. */
  lemma TwoKeys(a: Artifact)
    ensures |a.primary| == 1 ==> KeysOf(a.primary) == [KeyOf(a.primary[0])]
    ensures |a.primary| == 2 ==> KeysOf(a.primary) == [KeyOf(a.primary[0]), KeyOf(a.primary[1])]
    ensures |a.secondary| == 0 <==> KeysOf(a.secondary) == []
    ensures |a.tertiary| == 0 <==> KeysOf(a.tertiary) == []
  {
  }

  lemma GroupsHeld(w: World, a: Artifact)
    requires SourcesFit(a)
    ensures SourcesHeld(w, a)
       <==> var rec := RecordOf(a);
            && GetAll(w, PrimaryKeys(rec), Rank(a.stage)) == Some(a.primary)
            && GetAll(w, SecondaryKeys(rec), Rank(a.stage)) == Some(a.secondary)
            && GetAll(w, TertiaryKeys(rec), Rank(a.stage)) == Some(a.tertiary)
  {
    var rec := RecordOf(a);
    FitIffKeys(a);
    GroupHeld(w, PrimaryKeys(rec), Rank(a.stage), a.primary);
    GroupHeld(w, SecondaryKeys(rec), Rank(a.stage), a.secondary);
    GroupHeld(w, TertiaryKeys(rec), Rank(a.stage), a.tertiary);
    if SourcesHeld(w, a) {
      assert forall s :: s in a.primary ==> s in a.primary + a.secondary + a.tertiary;
      assert forall s :: s in a.secondary ==> s in a.primary + a.secondary + a.tertiary;
      assert forall s :: s in a.tertiary ==> s in a.primary + a.secondary + a.tertiary;
    }
  }

  /** A frame's record names its two sources and its partition. */
  lemma PartitionRecorded(a: Artifact)
    requires SourcesFit(a)
    ensures PartitionFits(a)
       <==> && PartitionOk(RecordOf(a), a.primary)
            && a.partition == if a.stage.SessionMarketDataFrame? then RecordOf(a).primary[2] else ""
  {
    if a.stage.SessionMarketDataFrame? {
      assert RecordOf(a).primary[2] == a.partition;
      OccurrencesOnce(a.partition, a.primary[1].partitions);
    }
  }

  /** What a store materialises from the record and the sources of a fitting artifact. */
  lemma MaterializedIs(services: Services, a: Artifact)
    requires SourcesFit(a)
    ensures Materialize(services, RecordOf(a), Resolved(a.primary, a.secondary, a.tertiary)) == Some(a)
       <==> PartitionFits(a) && Build(services, RequestOf(a)) == Some(a)
  {
    var rec := RecordOf(a);
    FitIffKeys(a);
    KeysMatch(PrimaryKeys(rec), a.primary);
    KeysMatch(SecondaryKeys(rec), a.secondary);
    KeysMatch(TertiaryKeys(rec), a.tertiary);
    PartitionRecorded(a);
    var partition := if a.stage.SessionMarketDataFrame? then rec.primary[2] else "";
    var asked := Request(a.stage, a.primary, a.secondary, a.tertiary, partition, rec.dates, rec.cutoff);
    assert partition == a.partition ==> asked == RequestOf(a);
  }

  /** Replaying an artifact's own record returns it exactly when it is made, at its own
      cutoff, of fitting sources that are held. */
  lemma ReplayIffMade(w: World, a: Artifact)
    ensures Replay(w, RecordOf(a)) == Some(a) <==> WellMade(w, a)
  {
    FitIffKeys(a);
    if Replay(w, RecordOf(a)) == Some(a) {
      ReplayRetains(w, a);
    }
    if SourcesFit(a) {
      GroupsHeld(w, a);
      MaterializedIs(w.services, a);
    }
  }

  /** A replay retains the sources it resolved. */
  lemma ReplayRetains(w: World, a: Artifact)
    requires Replay(w, RecordOf(a)) == Some(a)
    ensures var rec := RecordOf(a);
            && ShapeOk(rec)
            && GetAll(w, PrimaryKeys(rec), Rank(rec.kind)) == Some(a.primary)
            && GetAll(w, SecondaryKeys(rec), Rank(rec.kind)) == Some(a.secondary)
            && GetAll(w, TertiaryKeys(rec), Rank(rec.kind)) == Some(a.tertiary)
            && PrimaryKeys(rec) == KeysOf(a.primary) && SecondaryKeys(rec) == KeysOf(a.secondary)
            && TertiaryKeys(rec) == KeysOf(a.tertiary)
  {
    var rec := RecordOf(a);
    KeysMatch(PrimaryKeys(rec), a.primary);
    KeysMatch(SecondaryKeys(rec), a.secondary);
    KeysMatch(TertiaryKeys(rec), a.tertiary);
  }

  // ---------------------------------------------------------------- reads

  /** A read returns an artifact exactly when its own record is stored under its name, can
      be read, and the artifact is made of sources that are held. */
  lemma GetIffMade(w: World, a: Artifact)
    requires !IsLeaf(a.stage)
    ensures Get(w, KeyOf(a)) == Some(a)
       <==> && KeyOf(a) in w.files && w.files[KeyOf(a)] == RecordOf(a) && Readable(w.services, RecordOf(a))
            && WellMade(w, a)
  {
    ReplayIffMade(w, a);
  }

  /** Nothing else is ever returned under a name. */
  lemma GetOnlyMade(w: World, key: Key)
    requires !IsLeaf(key.stage) && Get(w, key).Some?
    ensures KeyOf(Get(w, key).value) == key && WellMade(w, Get(w, key).value)
  {
    GetReturnsKey(w, key);
    GetIffMade(w, Get(w, key).value);
  }
}
