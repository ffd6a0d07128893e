/** Publication manifests of the promoted graph.  `WalkAccepts` is what the
    publication store checks: it replays the two terminal roots and walks the
    reconstructed objects once.  `RereadAccepts` is the check it replaced: every
    listed ID is read again through its own store and compared by pinned IDs. */
module GraphPublication {
  import opened Wrappers
  import opened ReplayGraph

  datatype PromotionBinding = PromotionBinding(promotionId: Id, reportDate: Date)

  datatype SessionBinding = SessionBinding(session: Date, corpusId: Id)

  datatype SessionArtifacts = SessionArtifacts(session: Date, universeId: Id, frameId: Id, tickId: Id)

  datatype Manifest = Manifest(
    promotions: seq<PromotionBinding>,
    evidenceIds: seq<Id>,
    reviewIds: seq<Id>,
    calendarId: Id,
    sessions: seq<SessionBinding>,
    actionsId: Id,
    cutoff: Instant,
    intakeId: Id,
    adjudicationId: Id,
    artifacts: seq<SessionArtifacts>,
    historyId: Id,
    adjustmentId: Id,
    effectiveId: Id,
    adjustmentFacts: (string, bool),
    effectiveFacts: (string, bool))

  /** The shape a manifest object enforces when it is constructed. */
  predicate Valid(m: Manifest) {
    && m.promotions != []
    && m.sessions != []
    && |m.artifacts| == |m.sessions|
    && forall i :: 0 <= i < |m.sessions| ==> m.artifacts[i].session == m.sessions[i].session
  }

  function PromotionIds(m: Manifest): seq<Id> {
    seq(|m.promotions|, i requires 0 <= i < |m.promotions| => m.promotions[i].promotionId)
  }

  function ReportDates(m: Manifest): seq<Date> {
    seq(|m.promotions|, i requires 0 <= i < |m.promotions| => m.promotions[i].reportDate)
  }

  function TickIds(m: Manifest): seq<Id> {
    seq(|m.artifacts|, i requires 0 <= i < |m.artifacts| => m.artifacts[i].tickId)
  }

  function Status(a: Artifact): (string, bool) {
    (a.facts.readiness, a.facts.actionable)
  }

  /** An object of the exact type of its stage, holding the fields that type has. */
  predicate Typed(a: Artifact, stage: Stage) {
    && a.stage == stage
    && (match stage
        case IdentityAdjudication => |a.primary| == 1
        case IdentitySessionUniverse => |a.primary| == 2 && |a.dates| == 1
        case SessionMarketDataFrame => |a.primary| == 2
        case SessionTickSnapshot => |a.primary| == 1
        case StableListingHistory => |a.secondary| == 1
        case CorporateActionAdjustment => |a.primary| == 2
        case EffectiveSessionTick => |a.primary| == 1
        case _ => true)
  }

  /** Checks on the two terminal objects. */
  predicate TerminalsMatch(m: Manifest, adjustment: Artifact, effective: Artifact) {
    && Typed(adjustment, CorporateActionAdjustment)
    && adjustment.id == m.adjustmentId
    && adjustment.primary[0].id == m.historyId
    && adjustment.primary[1].id == m.actionsId
    && Status(adjustment) == m.adjustmentFacts
    && Typed(effective, EffectiveSessionTick)
    && effective.id == m.effectiveId
    && effective.primary[0].id == m.historyId
    && Status(effective) == m.effectiveFacts
    && effective.primary[0] == adjustment.primary[0]
  }

  predicate HistoryMatches(m: Manifest, history: Artifact) {
    && Typed(history, StableListingHistory)
    && history.id == m.historyId
    && history.secondary[0].stage == CalendarMaterialization
    && history.secondary[0].id == m.calendarId
    && |history.primary| == |m.sessions|
  }

  /** Checks on one walked tick snapshot, its frame and its universe. */
  predicate SessionMatches(m: Manifest, binding: SessionBinding, listed: SessionArtifacts, tick: Artifact) {
    && Typed(tick, SessionTickSnapshot)
    && Typed(tick.primary[0], SessionMarketDataFrame)
    && Typed(tick.primary[0].primary[0], IdentitySessionUniverse)
    && var frame := tick.primary[0];
    var universe := frame.primary[0];
    && listed.session == binding.session
    && universe.id == listed.universeId
    && universe.dates[0] == binding.session
    && universe.primary[1].id == m.calendarId
    && frame.id == listed.frameId
    && frame.primary[1].id == binding.corpusId
    && tick.id == listed.tickId
  }

  /** The adjudication object retained below a walked tick snapshot. */
  function AdjudicationOf(tick: Artifact): Artifact
    requires Typed(tick, SessionTickSnapshot)
    requires Typed(tick.primary[0], SessionMarketDataFrame)
    requires Typed(tick.primary[0].primary[0], IdentitySessionUniverse)
  {
    tick.primary[0].primary[0].primary[0]
  }

  predicate IdentityMatches(m: Manifest, adjudication: Artifact) {
    && Typed(adjudication, IdentityAdjudication)
    && adjudication.id == m.adjudicationId
    && var intake := adjudication.primary[0];
    && Typed(intake, IdentityIntake)
    && intake.id == m.intakeId
    && intake.dates == ReportDates(m)
    && Ids(intake.primary) == PromotionIds(m)
    && Ids(adjudication.secondary) == m.evidenceIds
    && Ids(adjudication.tertiary) == m.reviewIds
  }

  /** All walked sessions match and share one adjudication object. */
  predicate SessionsMatch(m: Manifest, ticks: seq<Artifact>)
    requires Valid(m) && |ticks| == |m.sessions|
  {
    && (forall i :: 0 <= i < |ticks| ==> SessionMatches(m, m.sessions[i], m.artifacts[i], ticks[i]))
    && (forall i :: 0 <= i < |ticks| ==> AdjudicationOf(ticks[i]) == AdjudicationOf(ticks[0]))
  }

  /** The walk over two replayed terminal objects. */
  predicate WalkAcceptsObjects(m: Manifest, adjustment: Artifact, effective: Artifact)
    requires Valid(m)
  {
    && TerminalsMatch(m, adjustment, effective)
    && HistoryMatches(m, adjustment.primary[0])
    && SessionsMatch(m, adjustment.primary[0].primary)
    && IdentityMatches(m, AdjudicationOf(adjustment.primary[0].primary[0]))
  }

  /** How the walk reads a terminal object or any listed ancestor. */
  type Reader = Key -> Option<Artifact>

  function ReaderOf(w: World): Reader {
    k => Get(w, k)
  }

  predicate WalkAccepts(read: Reader, m: Manifest)
    requires Valid(m)
  {
    var adjustment := read(Key(CorporateActionAdjustment, m.adjustmentId));
    var effective := read(Key(EffectiveSessionTick, m.effectiveId));
    adjustment.Some? && effective.Some? && WalkAcceptsObjects(m, adjustment.value, effective.value)
  }

  /** `key` reads back an artifact whose record pins exactly the given IDs. */
  predicate Pins(read: Reader, key: Key, primary: seq<Id>, secondary: seq<Id>, tertiary: seq<Id>) {
    var a := read(key);
    && a.Some?
    && Ids(a.value.primary) == primary
    && Ids(a.value.secondary) == secondary
    && Ids(a.value.tertiary) == tertiary
  }

  /** Every ancestor of one session read again through its own store. */
  predicate RereadSession(read: Reader, m: Manifest, binding: SessionBinding, listed: SessionArtifacts) {
    && listed.session == binding.session
    && Pins(read, Key(SessionTickSnapshot, listed.tickId), [listed.frameId], [], [])
    && Pins(read, Key(SessionMarketDataFrame, listed.frameId), [listed.universeId, binding.corpusId], [], [])
    && Pins(read, Key(IdentitySessionUniverse, listed.universeId), [m.adjudicationId, m.calendarId], [], [])
    && read(Key(IdentitySessionUniverse, listed.universeId)).value.dates == [binding.session]
  }

  /** The slow check: every listed ID through its own store, compared by ID only. */
  predicate RereadAccepts(read: Reader, m: Manifest)
    requires Valid(m)
  {
    && Pins(read, Key(CorporateActionAdjustment, m.adjustmentId), [m.historyId, m.actionsId], [], [])
    && Status(read(Key(CorporateActionAdjustment, m.adjustmentId)).value) == m.adjustmentFacts
    && Pins(read, Key(EffectiveSessionTick, m.effectiveId), [m.historyId], [], [])
    && Status(read(Key(EffectiveSessionTick, m.effectiveId)).value) == m.effectiveFacts
    && Pins(read, Key(StableListingHistory, m.historyId), TickIds(m), [m.calendarId], [])
    && (forall i :: 0 <= i < |m.sessions| ==> RereadSession(read, m, m.sessions[i], m.artifacts[i]))
    && Pins(read, Key(IdentityAdjudication, m.adjudicationId), [m.intakeId], m.evidenceIds, m.reviewIds)
    && Pins(read, Key(IdentityIntake, m.intakeId), PromotionIds(m), [], [])
    && read(Key(IdentityIntake, m.intakeId)).value.dates == ReportDates(m)
  }

  /** What a faithful reader guarantees of one non-leaf object it returns: its type and
      ID, the types of its retained sources, and that each resolves to itself. */
  ghost predicate FaithfulRead(read: Reader, key: Key) {
    IsLeaf(key.stage) || read(key).None? || FaithfulObject(read, key, read(key).value)
  }

  ghost predicate FaithfulObject(read: Reader, key: Key, a: Artifact) {
    && Typed(a, key.stage)
    && a.id == key.id
    && (!key.stage.IdentityAdjudication? ==> a.tertiary == [])
    && (!key.stage.IdentityAdjudication? && !key.stage.StableListingHistory? ==> a.secondary == [])
    && (key.stage.StableListingHistory? ==> a.secondary[0].stage == CalendarMaterialization)
    && forall i :: 0 <= i < |a.primary| ==>
         && a.primary[i].stage == PrimaryStage(key.stage, i)
         && read(KeyOf(a.primary[i])) == Some(a.primary[i])
  }

  ghost predicate Faithful(read: Reader) {
    forall key :: FaithfulRead(read, key)
  }

  /** Plain recursive replay of any world is a faithful reader. */
  lemma PlainReplayIsFaithful(w: World)
    ensures Faithful(ReaderOf(w))
  {
    forall key
      ensures FaithfulRead(ReaderOf(w), key)
    {
      if !IsLeaf(key.stage) && Get(w, key).Some? {
        PlainReadIsFaithful(w, key);
      }
    }
  }

  lemma PlainReadIsFaithful(w: World, key: Key)
    requires !IsLeaf(key.stage) && Get(w, key).Some?
    ensures FaithfulObject(ReaderOf(w), key, Get(w, key).value)
  {
    RetainedSourcesResolve(w, key);
    var a := Get(w, key).value;
    var keys := PrimaryKeys(w.files[key]);
    assert Sources(a) == a.primary + a.secondary + a.tertiary;
    forall i | 0 <= i < |a.primary|
      ensures a.primary[i].stage == PrimaryStage(key.stage, i)
      ensures Get(w, KeyOf(a.primary[i])) == Some(a.primary[i])
    {
      assert KeyOf(a.primary[i]) == keys[i];
      assert a.primary[i] in Sources(a);
    }
  }

  /** The source of a stored artifact at one position of its primary group. */
  lemma SourceIsStored(read: Reader, a: Artifact, i: nat)
    requires Faithful(read)
    requires !IsLeaf(a.stage) && read(KeyOf(a)) == Some(a)
    requires i < |a.primary| && !IsLeaf(PrimaryStage(a.stage, i))
    ensures FaithfulObject(read, KeyOf(a), a)
    ensures read(KeyOf(a.primary[i])) == Some(a.primary[i])
    ensures FaithfulObject(read, Key(PrimaryStage(a.stage, i), a.primary[i].id), a.primary[i])
  {
    assert FaithfulRead(read, KeyOf(a));
    assert FaithfulRead(read, KeyOf(a.primary[i]));
  }

  /** The stage of the source a store resolves at one position of its primary group. */
  function PrimaryStage(stage: Stage, i: nat): Stage {
    match stage
    case IdentityIntake => ReferencePromotion
    case IdentityAdjudication => IdentityIntake
    case IdentitySessionUniverse => if i == 0 then IdentityAdjudication else CalendarMaterialization
    case SessionMarketDataFrame => if i == 0 then IdentitySessionUniverse else HistoricalCorpus
    case SessionTickSnapshot => SessionMarketDataFrame
    case StableListingHistory => SessionTickSnapshot
    case CorporateActionAdjustment => if i == 0 then StableListingHistory else CorporateActionSnapshot
    case EffectiveSessionTick => StableListingHistory
    case _ => stage
  }

  lemma StoredIsFaithful(read: Reader, key: Key)
    requires Faithful(read) && !IsLeaf(key.stage) && read(key).Some?
    ensures FaithfulObject(read, key, read(key).value)
  {
    assert FaithfulRead(read, key);
  }

  /** The frame, universe and adjudication below a stored tick snapshot are stored. */
  lemma SessionResolves(read: Reader, tick: Artifact)
    requires Faithful(read) && tick.stage == SessionTickSnapshot && read(KeyOf(tick)) == Some(tick)
    ensures FaithfulObject(read, Key(SessionTickSnapshot, tick.id), tick)
    ensures var frame := tick.primary[0];
            && read(KeyOf(frame)) == Some(frame)
            && FaithfulObject(read, Key(SessionMarketDataFrame, frame.id), frame)
    ensures var universe := tick.primary[0].primary[0];
            && read(KeyOf(universe)) == Some(universe)
            && FaithfulObject(read, Key(IdentitySessionUniverse, universe.id), universe)
    ensures var adjudication := AdjudicationOf(tick);
            && read(KeyOf(adjudication)) == Some(adjudication)
            && FaithfulObject(read, Key(IdentityAdjudication, adjudication.id), adjudication)
  {
    StoredIsFaithful(read, KeyOf(tick));
    SourceIsStored(read, tick, 0);
    SourceIsStored(read, tick.primary[0], 0);
    SourceIsStored(read, tick.primary[0].primary[0], 0);
  }

  /** A session the walk accepts is accepted by re-reading its three ancestors. */
  lemma WalkedSessionRereads(read: Reader, m: Manifest, i: nat, tick: Artifact)
    requires Faithful(read) && Valid(m) && i < |m.sessions|
    requires tick.stage == SessionTickSnapshot && read(KeyOf(tick)) == Some(tick)
    requires SessionMatches(m, m.sessions[i], m.artifacts[i], tick)
    requires AdjudicationOf(tick).id == m.adjudicationId
    ensures RereadSession(read, m, m.sessions[i], m.artifacts[i])
  {
    SessionResolves(read, tick);
    var frame := tick.primary[0];
    var universe := frame.primary[0];
    assert Ids(tick.primary) == [m.artifacts[i].frameId];
    assert Ids(frame.primary) == [m.artifacts[i].universeId, m.sessions[i].corpusId];
    assert Ids(universe.primary) == [m.adjudicationId, m.calendarId];
    assert universe.dates == [m.sessions[i].session];
  }

  /** Conversely, re-reading a session's ancestors makes the walked object match. */
  lemma RereadSessionWalks(read: Reader, m: Manifest, i: nat, tick: Artifact)
    requires Faithful(read) && Valid(m) && i < |m.sessions|
    requires tick.stage == SessionTickSnapshot && tick.id == m.artifacts[i].tickId
    requires read(KeyOf(tick)) == Some(tick)
    requires RereadSession(read, m, m.sessions[i], m.artifacts[i])
    ensures SessionMatches(m, m.sessions[i], m.artifacts[i], tick)
    ensures read(Key(IdentityAdjudication, m.adjudicationId)) == Some(AdjudicationOf(tick))
  {
    SessionResolves(read, tick);
    var frame := tick.primary[0];
    var universe := frame.primary[0];
    assert Ids(tick.primary)[0] == m.artifacts[i].frameId;
    assert Ids(frame.primary)[0] == m.artifacts[i].universeId;
    assert Ids(frame.primary)[1] == m.sessions[i].corpusId;
    assert Ids(universe.primary)[0] == m.adjudicationId;
    assert Ids(universe.primary)[1] == m.calendarId;
  }

  /** One walked session: each object is what its store returns for the listed ID. */
  ghost predicate SessionMeetsStores(read: Reader, m: Manifest, listed: SessionArtifacts, tick: Artifact) {
    && Typed(tick, SessionTickSnapshot)
    && Typed(tick.primary[0], SessionMarketDataFrame)
    && Typed(tick.primary[0].primary[0], IdentitySessionUniverse)
    && Typed(AdjudicationOf(tick), IdentityAdjudication)
    && read(Key(SessionTickSnapshot, listed.tickId)) == Some(tick)
    && read(Key(SessionMarketDataFrame, listed.frameId)) == Some(tick.primary[0])
    && read(Key(IdentitySessionUniverse, listed.universeId)) == Some(tick.primary[0].primary[0])
    && read(Key(IdentityAdjudication, m.adjudicationId)) == Some(AdjudicationOf(tick))
    && read(Key(IdentityIntake, m.intakeId)) == Some(AdjudicationOf(tick).primary[0])
  }

  lemma WalkedSessionMeetsStores(read: Reader, m: Manifest, i: nat, history: Artifact)
    requires Faithful(read) && Valid(m) && i < |m.sessions|
    requires HistoryMatches(m, history) && read(KeyOf(history)) == Some(history)
    requires SessionsMatch(m, history.primary) && IdentityMatches(m, AdjudicationOf(history.primary[0]))
    ensures read(KeyOf(history.primary[i])) == Some(history.primary[i])
    ensures SessionMeetsStores(read, m, m.artifacts[i], history.primary[i])
  {
    SourceIsStored(read, history, i);
    SessionResolves(read, history.primary[i]);
    SourceIsStored(read, AdjudicationOf(history.primary[i]), 0);
  }

  /** The history shared by the two walked terminals. */
  function HistoryOf(read: Reader, m: Manifest): Artifact
    requires Valid(m) && WalkAccepts(read, m)
  {
    read(Key(CorporateActionAdjustment, m.adjustmentId)).value.primary[0]
  }

  lemma WalkedHistoryIsStored(read: Reader, m: Manifest)
    requires Faithful(read) && Valid(m) && WalkAccepts(read, m)
    ensures read(KeyOf(HistoryOf(read, m))) == Some(HistoryOf(read, m))
    ensures FaithfulObject(read, Key(StableListingHistory, m.historyId), HistoryOf(read, m))
  {
    SourceIsStored(read, read(Key(CorporateActionAdjustment, m.adjustmentId)).value, 0);
  }

  /** The history and every per-session ancestor an accepting walk met are exactly what
      their own stores return for the IDs the manifest lists. */
  lemma WalkMeetsStores(read: Reader, m: Manifest)
    requires Faithful(read) && Valid(m) && WalkAccepts(read, m)
    ensures read(Key(StableListingHistory, m.historyId)) == Some(HistoryOf(read, m))
    ensures read(Key(EffectiveSessionTick, m.effectiveId)).value.primary[0] == HistoryOf(read, m)
    ensures |HistoryOf(read, m).primary| == |m.artifacts|
    ensures forall i :: 0 <= i < |m.artifacts| ==>
              SessionMeetsStores(read, m, m.artifacts[i], HistoryOf(read, m).primary[i])
  {
    WalkedHistoryIsStored(read, m);
    var history := HistoryOf(read, m);
    forall i | 0 <= i < |m.artifacts|
      ensures SessionMeetsStores(read, m, m.artifacts[i], history.primary[i])
    {
      WalkedSessionMeetsStores(read, m, i, history);
    }
  }

  lemma WalkPinsHistory(read: Reader, m: Manifest, history: Artifact)
    requires Faithful(read) && Valid(m)
    requires HistoryMatches(m, history) && SessionsMatch(m, history.primary)
    requires read(KeyOf(history)) == Some(history)
    ensures Pins(read, Key(StableListingHistory, m.historyId), TickIds(m), [m.calendarId], [])
  {
    StoredIsFaithful(read, KeyOf(history));
    forall i | 0 <= i < |m.artifacts|
      ensures history.primary[i].id == m.artifacts[i].tickId
    {
      assert SessionMatches(m, m.sessions[i], m.artifacts[i], history.primary[i]);
    }
    assert Ids(history.primary) == TickIds(m);
    assert Ids(history.secondary) == [m.calendarId];
  }

  lemma WalkPinsTerminals(read: Reader, m: Manifest, adjustment: Artifact, effective: Artifact)
    requires Faithful(read) && TerminalsMatch(m, adjustment, effective)
    requires read(Key(CorporateActionAdjustment, m.adjustmentId)) == Some(adjustment)
    requires read(Key(EffectiveSessionTick, m.effectiveId)) == Some(effective)
    ensures Pins(read, Key(CorporateActionAdjustment, m.adjustmentId), [m.historyId, m.actionsId], [], [])
    ensures Pins(read, Key(EffectiveSessionTick, m.effectiveId), [m.historyId], [], [])
  {
    StoredIsFaithful(read, Key(CorporateActionAdjustment, m.adjustmentId));
    StoredIsFaithful(read, Key(EffectiveSessionTick, m.effectiveId));
    assert Ids(adjustment.primary) == [m.historyId, m.actionsId];
    assert Ids(effective.primary) == [m.historyId];
  }

  lemma WalkPinsIdentity(read: Reader, m: Manifest, adjudication: Artifact)
    requires Faithful(read) && IdentityMatches(m, adjudication)
    requires read(KeyOf(adjudication)) == Some(adjudication)
    ensures Pins(read, Key(IdentityAdjudication, m.adjudicationId), [m.intakeId], m.evidenceIds, m.reviewIds)
    ensures Pins(read, Key(IdentityIntake, m.intakeId), PromotionIds(m), [], [])
    ensures read(Key(IdentityIntake, m.intakeId)).value.dates == ReportDates(m)
  {
    SourceIsStored(read, adjudication, 0);
    assert Ids(adjudication.primary) == [m.intakeId];
  }

  lemma WalkImpliesReread(read: Reader, m: Manifest)
    requires Faithful(read) && Valid(m) && WalkAccepts(read, m)
    ensures RereadAccepts(read, m)
  {
    WalkPinsTerminals(
      read, m,
      read(Key(CorporateActionAdjustment, m.adjustmentId)).value,
      read(Key(EffectiveSessionTick, m.effectiveId)).value);
    WalkedHistoryIsStored(read, m);
    var history := HistoryOf(read, m);
    WalkPinsHistory(read, m, history);
    WalkedSessionMeetsStores(read, m, 0, history);
    WalkPinsIdentity(read, m, AdjudicationOf(history.primary[0]));
    forall i | 0 <= i < |m.sessions|
      ensures RereadSession(read, m, m.sessions[i], m.artifacts[i])
    {
      WalkedSessionMeetsStores(read, m, i, history);
      WalkedSessionRereads(read, m, i, history.primary[i]);
    }
  }

  lemma RereadTerminalsWalk(read: Reader, m: Manifest)
    requires Faithful(read) && Valid(m) && RereadAccepts(read, m)
    ensures var adjustment := read(Key(CorporateActionAdjustment, m.adjustmentId)).value;
            var effective := read(Key(EffectiveSessionTick, m.effectiveId)).value;
            && TerminalsMatch(m, adjustment, effective)
            && HistoryMatches(m, adjustment.primary[0])
            && read(KeyOf(adjustment.primary[0])) == Some(adjustment.primary[0])
            && Ids(adjustment.primary[0].primary) == TickIds(m)
  {
    var adjustment := read(Key(CorporateActionAdjustment, m.adjustmentId)).value;
    var effective := read(Key(EffectiveSessionTick, m.effectiveId)).value;
    StoredIsFaithful(read, Key(CorporateActionAdjustment, m.adjustmentId));
    StoredIsFaithful(read, Key(EffectiveSessionTick, m.effectiveId));
    SourceIsStored(read, adjustment, 0);
    SourceIsStored(read, effective, 0);
    var history := adjustment.primary[0];
    assert Ids(adjustment.primary)[0] == m.historyId && Ids(adjustment.primary)[1] == m.actionsId;
    assert Ids(effective.primary)[0] == m.historyId;
    assert Ids(history.secondary)[0] == m.calendarId;
  }

  lemma RereadSessionsWalk(read: Reader, m: Manifest, history: Artifact)
    requires Faithful(read) && Valid(m)
    requires history.stage == StableListingHistory && read(KeyOf(history)) == Some(history)
    requires Ids(history.primary) == TickIds(m)
    requires forall i :: 0 <= i < |m.sessions| ==> RereadSession(read, m, m.sessions[i], m.artifacts[i])
    ensures SessionsMatch(m, history.primary)
    ensures read(Key(IdentityAdjudication, m.adjudicationId)) == Some(AdjudicationOf(history.primary[0]))
  {
    assert |Ids(history.primary)| == |m.artifacts|;
    forall i | 0 <= i < |m.sessions|
      ensures SessionMatches(m, m.sessions[i], m.artifacts[i], history.primary[i])
      ensures read(Key(IdentityAdjudication, m.adjudicationId)) == Some(AdjudicationOf(history.primary[i]))
    {
      SourceIsStored(read, history, i);
      assert Ids(history.primary)[i] == TickIds(m)[i];
      RereadSessionWalks(read, m, i, history.primary[i]);
    }
  }

  lemma RereadIdentityWalks(read: Reader, m: Manifest)
    requires Faithful(read) && Valid(m) && RereadAccepts(read, m)
    ensures IdentityMatches(m, read(Key(IdentityAdjudication, m.adjudicationId)).value)
  {
    var adjudication := read(Key(IdentityAdjudication, m.adjudicationId)).value;
    StoredIsFaithful(read, Key(IdentityAdjudication, m.adjudicationId));
    SourceIsStored(read, adjudication, 0);
    assert Ids(adjudication.primary)[0] == m.intakeId;
  }

  lemma RereadImpliesWalk(read: Reader, m: Manifest)
    requires Faithful(read) && Valid(m) && RereadAccepts(read, m)
    ensures WalkAccepts(read, m)
  {
    RereadTerminalsWalk(read, m);
    RereadSessionsWalk(read, m, read(Key(CorporateActionAdjustment, m.adjustmentId)).value.primary[0]);
    RereadIdentityWalks(read, m);
  }

  /** Over any stored world, walking two replayed objects and re-reading every listed
      ancestor through its own store accept exactly the same manifests. */
  lemma WalkAgreesWithReread(w: World, m: Manifest)
    requires Valid(m)
    ensures WalkAccepts(ReaderOf(w), m) <==> RereadAccepts(ReaderOf(w), m)
  {
    PlainReplayIsFaithful(w);
    if WalkAccepts(ReaderOf(w), m) { WalkImpliesReread(ReaderOf(w), m); }
    if RereadAccepts(ReaderOf(w), m) { RereadImpliesWalk(ReaderOf(w), m); }
  }

  /** Every listed session artifact, the history, the adjudication and the intake of an
      accepted manifest resolve to exactly the objects met in the walk. */
  lemma AcceptedManifestResolves(w: World, m: Manifest)
    requires Valid(m) && WalkAccepts(ReaderOf(w), m)
    ensures Get(w, Key(StableListingHistory, m.historyId)) == Some(HistoryOf(ReaderOf(w), m))
    ensures |HistoryOf(ReaderOf(w), m).primary| == |m.artifacts|
    ensures forall i :: 0 <= i < |m.artifacts| ==>
              SessionMeetsStores(ReaderOf(w), m, m.artifacts[i], HistoryOf(ReaderOf(w), m).primary[i])
  {
    PlainReplayIsFaithful(w);
    WalkMeetsStores(ReaderOf(w), m);
  }
}
