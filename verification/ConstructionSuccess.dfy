/** When the construction succeeds: for every ready specification whose services answer,
    whatever the stores hold already under other names. */
module ConstructionSuccess {
  import opened Wrappers
  import opened StableSort
  import opened ReplayGraph
  import opened MadeArtifacts
  import opened ReplayScope
  import opened Serial
  import opened GraphPublication
  import opened GraphPublisher
  import opened ConstructedGraph

  // ---------------------------------------------------------------- services that answer

  /** A request as the artifact it asks for, nothing derived yet. */
  function Shell(q: Request): Artifact {
    Artifact(q.stage, "", q.primary, q.secondary, q.tertiary, q.partition, [], [], q.dates, q.cutoff, Facts("", false, ""))
  }

  /** A record refuses a source named twice; IDs of different kinds never coincide. */
  ghost predicate DistinctSources(q: Request) {
    match q.stage
    case IdentityIntake => NoRepeats(Ids(q.primary))
    case IdentityAdjudication => NoRepeats(Ids(q.secondary)) && NoRepeats(Ids(q.tertiary))
    case StableListingHistory => NoRepeats(Ids(q.primary))
    case _ => true
  }

  /** A request with the sources, the partition and the dates that its kind takes. */
  ghost predicate WellFormed(q: Request) {
    && SourcesFit(Shell(q)) && PartitionFits(Shell(q)) && DistinctSources(q)
    && (q.stage.IdentityIntake? || q.stage.IdentitySessionUniverse? || q.dates == [])
  }

  /** At this cutoff every well-formed request is answered, by an artifact whose record can
      be read. */
  ghost predicate Answers(services: Services, cutoff: Instant) {
    forall q: Request :: q.cutoff == cutoff && WellFormed(q) ==>
      Build(services, q).Some? && Readable(services, RecordOf(Build(services, q).value))
  }

  /** An ID stands for one record. */
  ghost predicate Distinguishes(services: Services) {
    forall p, q :: Build(services, p).Some? && Build(services, q).Some?
                   && KeyOf(Build(services, p).value) == KeyOf(Build(services, q).value) ==>
                     RecordOf(Build(services, p).value) == RecordOf(Build(services, q).value)
  }

  /** Nothing different is stored under the name of anything the services make. */
  ghost predicate Unclaimed(services: Services, files: Files) {
    forall q :: Build(services, q).Some? && KeyOf(Build(services, q).value) in files ==>
      files[KeyOf(Build(services, q).value)] == RecordOf(Build(services, q).value)
  }

  ghost predicate Willing(x: Sources, cutoff: Instant, files: Files) {
    && Regular(x.services) && Answers(x.services, cutoff) && Distinguishes(x.services)
    && Unclaimed(x.services, files)
  }

  ghost predicate AllHeld(x: Sources, files: Files, group: seq<Artifact>) {
    forall s :: s in group ==> Held(x, files, s)
  }

  /** What a willing service makes of held sources is made as its own record says. */
  lemma BuiltIsMade(x: Sources, files: Files, q: Request)
    requires Regular(x.services) && WellFormed(q) && Build(x.services, q).Some?
    requires AllHeld(x, files, q.primary + q.secondary + q.tertiary)
    ensures WellMade(World(x.services, files), Build(x.services, q).value)
  {
    var a := Build(x.services, q).value;
    assert KeepsRequest(x.services, q);
    assert SourcesFit(a) && PartitionFits(a);
    assert RequestOf(a) == q;
    forall s | s in a.primary + a.secondary + a.tertiary
      ensures Get(World(x.services, files), KeyOf(s)) == Some(s)
    {
      assert Held(x, files, s);
    }
  }

  /** One step of the construction goes through, and leaves the services as willing. */
  lemma StoredAnswers(x: Sources, files: Files, q: Request)
    requires Willing(x, q.cutoff, files) && WellFormed(q)
    requires AllHeld(x, files, q.primary + q.secondary + q.tertiary)
    ensures Stored(x, files, q).value.Some? && Willing(x, q.cutoff, Stored(x, files, q).files)
  {
    var a := Build(x.services, q).value;
    BuiltIsMade(x, files, q);
    assert CanPut(World(x.services, files), a);
    var after := Stored(x, files, q).files;
    forall p | Build(x.services, p).Some? && KeyOf(Build(x.services, p).value) in after
      ensures after[KeyOf(Build(x.services, p).value)] == RecordOf(Build(x.services, p).value)
    {
      assert KeyOf(Build(x.services, p).value) == KeyOf(a) ==> RecordOf(Build(x.services, p).value) == RecordOf(a);
    }
  }

  // ---------------------------------------------------------------- leaves

  ghost predicate Resolved(x: Sources, stage: Stage, ids: seq<Id>) {
    forall i :: 0 <= i < |ids| ==> x.services.leaf(Key(stage, ids[i])).Some?
  }

  lemma {:induction false} LeavesExist(x: Sources, stage: Stage, ids: seq<Id>)
    requires Regular(x.services) && Resolved(x, stage, ids)
    ensures LeavesOf(x, stage, ids).Some?
  {
    if ids != [] {
      assert forall i :: 0 <= i < |ids[1..]| ==> ids[1..][i] == ids[i + 1];
      LeavesExist(x, stage, ids[1..]);
      assert x.services.leaf(Key(stage, ids[0])).Some?;
    }
  }

  lemma LeafHeld(x: Sources, files: Files, k: Key)
    requires Regular(x.services) && IsLeaf(k.stage) && x.services.leaf(k).Some?
    ensures Held(x, files, x.services.leaf(k).value) && KeyOf(x.services.leaf(k).value) == k
  {
  }

  lemma LeavesHeld(x: Sources, files: Files, stage: Stage, ids: seq<Id>, group: seq<Artifact>)
    requires Regular(x.services) && IsLeaf(stage) && LeavesRight(x, stage, ids, group)
    ensures AllHeld(x, files, group) && AllOf(stage, group) && Ids(group) == ids
  {
    LeavesNamed(x, stage, ids, group);
    forall s | s in group
      ensures Held(x, files, s)
    {
      var i :| 0 <= i < |group| && group[i] == s;
      LeafHeld(x, files, Key(stage, ids[i]));
    }
  }

  lemma HeldTogether(x: Sources, files: Files, a: seq<Artifact>, b: seq<Artifact>, c: seq<Artifact>)
    requires AllHeld(x, files, a) && AllHeld(x, files, b) && AllHeld(x, files, c)
    ensures AllHeld(x, files, a + b + c)
  {
  }

  lemma AllStillHeld(x: Sources, before: Files, after: Files, group: seq<Artifact>)
    requires AllHeld(x, before, group) && Grows(before, after)
    ensures AllHeld(x, after, group)
  {
    forall s | s in group
      ensures Held(x, after, s)
    {
      StillHeld(x, before, after, s);
    }
  }

  // ---------------------------------------------------------------- a ready specification

  /** Every source of the identity resolves, none is listed twice, and each promotion is of
      the report date it is bound to. */
  ghost predicate IdentityReady(x: Sources, spec: Spec) {
    && spec.promotions != [] && NoRepeats(BoundIds(spec)) && Resolved(x, ReferencePromotion, BoundIds(spec))
    && NoRepeats(spec.evidenceIds) && Resolved(x, IdentityEvidence, spec.evidenceIds)
    && NoRepeats(spec.reviewIds) && Resolved(x, IdentityReview, spec.reviewIds)
    && forall i :: 0 <= i < |spec.promotions| ==>
         x.services.leaf(Key(ReferencePromotion, spec.promotions[i].promotionId)).Some?
         && x.reportDate(x.services.leaf(Key(ReferencePromotion, spec.promotions[i].promotionId)).value)
            == spec.promotions[i].reportDate
  }

  /** The session's corpus resolves, and exactly one place of it is of the session, with a
      partition that the corpus indexes. */
  ghost predicate SessionReady(x: Sources, binding: SessionBinding) {
    var corpus := x.services.leaf(Key(HistoricalCorpus, binding.corpusId));
    && corpus.Some?
    && exists i: nat :: OnlySessionAt(x, corpus.value.partitions, binding.session, i)
                        && corpus.value.partitions[i] in corpus.value.indexed
  }

  ghost predicate Ready(x: Sources, spec: Spec) {
    && IdentityReady(x, spec)
    && x.services.leaf(Key(CalendarMaterialization, spec.calendarId)).Some?
    && spec.sessions != [] && (forall i :: 0 <= i < |spec.sessions| ==> SessionReady(x, spec.sessions[i]))
    && (forall i, j :: 0 <= i < j < |spec.sessions| ==> spec.sessions[i].session != spec.sessions[j].session)
    && x.services.leaf(Key(CorporateActionSnapshot, spec.actionsId)).Some?
  }

  // ---------------------------------------------------------------- the identity

  lemma IntakeSucceeds(x: Sources, files: Files, spec: Spec)
    requires Willing(x, spec.cutoff, files) && IdentityReady(x, spec)
    ensures var promotions := LeavesOf(x, ReferencePromotion, BoundIds(spec));
            && promotions.Some? && DatesMatch(x, promotions.value, BoundDates(spec))
            && var made := Stored(x, files, Request(IdentityIntake, promotions.value, [], [], "", BoundDates(spec),
                                                    spec.cutoff));
            && made.value.Some? && Willing(x, spec.cutoff, made.files) && Held(x, made.files, made.value.value)
            && made.value.value.stage == IdentityIntake
  {
    var ids := BoundIds(spec);
    LeavesExist(x, ReferencePromotion, ids);
    var promotions := LeavesOf(x, ReferencePromotion, ids).value;
    LeavesAre(x, ReferencePromotion, ids);
    LeavesHeld(x, files, ReferencePromotion, ids, promotions);
    forall i | 0 <= i < |promotions|
      ensures x.reportDate(promotions[i]) == BoundDates(spec)[i]
    {
      assert x.services.leaf(Key(ReferencePromotion, ids[i])) == Some(promotions[i]);
    }
    var q := Request(IdentityIntake, promotions, [], [], "", BoundDates(spec), spec.cutoff);
    HeldTogether(x, files, promotions, [], []);
    StoredAnswers(x, files, q);
    StoredIs(x, files, q);
  }

  lemma AdjudicationSucceeds(x: Sources, files: Files, spec: Spec, intake: Artifact)
    requires Willing(x, spec.cutoff, files) && IdentityReady(x, spec)
    requires intake.stage == IdentityIntake && Held(x, files, intake)
    ensures var made := IntakeUsed(x, files, spec, intake);
            && made.value.Some? && Willing(x, spec.cutoff, made.files)
            && made.value.value.adjudication.stage == IdentityAdjudication
            && Held(x, made.files, made.value.value.adjudication)
  {
    LeavesExist(x, IdentityEvidence, spec.evidenceIds);
    LeavesExist(x, IdentityReview, spec.reviewIds);
    var evidence := LeavesOf(x, IdentityEvidence, spec.evidenceIds).value;
    var reviews := LeavesOf(x, IdentityReview, spec.reviewIds).value;
    LeavesAre(x, IdentityEvidence, spec.evidenceIds);
    LeavesAre(x, IdentityReview, spec.reviewIds);
    LeavesHeld(x, files, IdentityEvidence, spec.evidenceIds, evidence);
    LeavesHeld(x, files, IdentityReview, spec.reviewIds, reviews);
    var q := Request(IdentityAdjudication, [intake], evidence, reviews, "", [], spec.cutoff);
    HeldTogether(x, files, [intake], evidence, reviews);
    StoredAnswers(x, files, q);
    StoredIs(x, files, q);
  }

  // ---------------------------------------------------------------- the sessions

  /** The partition that the selection finds is named once in its corpus. */
  lemma SelectedOnce(x: Sources, partitions: seq<Id>, session: Date, i: nat)
    requires OnlySessionAt(x, partitions, session, i)
    ensures PartitionsAt(x, partitions, session) == [partitions[i]] && OnceIn(partitions[i], partitions)
  {
    SelectionIff(x, partitions, session, partitions[i]);
    assert OnlyAt(partitions[i], partitions, i);
  }

  lemma FrameSucceeds(x: Sources, files: Files, spec: Spec, binding: SessionBinding, universe: Artifact)
    requires Willing(x, spec.cutoff, files) && SessionReady(x, binding)
    requires universe.stage == IdentitySessionUniverse && Held(x, files, universe)
    ensures var made := FrameStored(x, files, spec, binding, universe);
            && made.value.Some? && Willing(x, spec.cutoff, made.files) && Grows(files, made.files)
            && made.value.value.stage == SessionMarketDataFrame && Held(x, made.files, made.value.value)
  {
    var corpus := x.services.leaf(Key(HistoricalCorpus, binding.corpusId)).value;
    var i: nat :| OnlySessionAt(x, corpus.partitions, binding.session, i) && corpus.partitions[i] in corpus.indexed;
    SelectedOnce(x, corpus.partitions, binding.session, i);
    LeafHeld(x, files, Key(HistoricalCorpus, binding.corpusId));
    var q := Request(SessionMarketDataFrame, [universe, corpus], [], [], corpus.partitions[i], [], spec.cutoff);
    HeldTogether(x, files, [universe, corpus], [], []);
    StoredAnswers(x, files, q);
    StoredIs(x, files, q);
  }

  lemma OverUniverseSucceeds(x: Sources, files: Files, spec: Spec, binding: SessionBinding, universe: Artifact)
    requires Willing(x, spec.cutoff, files) && SessionReady(x, binding)
    requires universe.stage == IdentitySessionUniverse && Held(x, files, universe)
    ensures var made := UniverseUsed(x, files, spec, binding, universe);
            && made.value.Some? && Willing(x, spec.cutoff, made.files) && Grows(files, made.files)
            && Held(x, made.files, made.value.value.tick)
  {
    FrameSucceeds(x, files, spec, binding, universe);
    var frame := FrameStored(x, files, spec, binding, universe);
    var q := Request(SessionTickSnapshot, [frame.value.value], [], [], "", [], spec.cutoff);
    HeldTogether(x, frame.files, [frame.value.value], [], []);
    StoredAnswers(x, frame.files, q);
    StoredIs(x, frame.files, q);
  }

  /** What the sessions stand on. */
  ghost predicate Grounded(x: Sources, files: Files, spec: Spec, adjudication: Artifact, calendar: Artifact) {
    && Willing(x, spec.cutoff, files)
    && adjudication.stage == IdentityAdjudication && Held(x, files, adjudication)
    && calendar.stage == CalendarMaterialization && Held(x, files, calendar)
  }

  lemma SessionSucceeds(x: Sources, files: Files, spec: Spec, binding: SessionBinding, adjudication: Artifact,
                        calendar: Artifact)
    requires Grounded(x, files, spec, adjudication, calendar) && SessionReady(x, binding)
    ensures var made := SessionStored(x, files, spec, binding, adjudication, calendar);
            && made.value.Some? && Grows(files, made.files) && Held(x, made.files, made.value.value.tick)
            && Grounded(x, made.files, spec, adjudication, calendar)
  {
    var q := Request(IdentitySessionUniverse, [adjudication, calendar], [], [], "", [binding.session], spec.cutoff);
    HeldTogether(x, files, [adjudication, calendar], [], []);
    StoredAnswers(x, files, q);
    StoredIs(x, files, q);
    var universe := Stored(x, files, q);
    OverUniverseSucceeds(x, universe.files, spec, binding, universe.value.value);
    var after := SessionStored(x, files, spec, binding, adjudication, calendar).files;
    StillHeld(x, files, after, adjudication);
    StillHeld(x, files, after, calendar);
  }

  lemma NextSucceeds(x: Sources, before: Made<Sessions>, spec: Spec, binding: SessionBinding, adjudication: Artifact,
                     calendar: Artifact)
    requires before.value.Some? && Grounded(x, before.files, spec, adjudication, calendar) && SessionReady(x, binding)
    requires AllHeld(x, before.files, before.value.value.ticks)
    ensures var made := NextSession(x, before, spec, binding, adjudication, calendar);
            && made.value.Some? && Grounded(x, made.files, spec, adjudication, calendar)
            && AllHeld(x, made.files, made.value.value.ticks)
  {
    SessionSucceeds(x, before.files, spec, binding, adjudication, calendar);
    var session := SessionStored(x, before.files, spec, binding, adjudication, calendar);
    AllStillHeld(x, before.files, session.files, before.value.value.ticks);
  }

  lemma {:induction false} SessionsSucceed(x: Sources, before: Made<Sessions>, spec: Spec, left: seq<SessionBinding>,
                                           adjudication: Artifact, calendar: Artifact)
    requires before.value.Some? && Grounded(x, before.files, spec, adjudication, calendar)
    requires AllHeld(x, before.files, before.value.value.ticks)
    requires forall i :: 0 <= i < |left| ==> SessionReady(x, left[i])
    ensures var made := SessionsFrom(x, before, spec, left, adjudication, calendar);
            && made.value.Some? && Grounded(x, made.files, spec, adjudication, calendar)
            && AllHeld(x, made.files, made.value.value.ticks)
    decreases |left|
  {
    if left != [] {
      NextSucceeds(x, before, spec, left[0], adjudication, calendar);
      SessionsSucceed(x, NextSession(x, before, spec, left[0], adjudication, calendar), spec, left[1..],
                      adjudication, calendar);
    }
  }

  /** Ticks of different sessions have different IDs: one ID reads back as one object, and
      that is over the universe of one session. */
  lemma TicksDiffer(x: Sources, files: Files, spec: Spec, adjudication: Artifact, calendar: Artifact, s: Sessions)
    requires SessionsRight(x, spec, spec.sessions, adjudication, calendar, s) && AllHeld(x, files, s.ticks)
    requires forall i, j :: 0 <= i < j < |spec.sessions| ==> spec.sessions[i].session != spec.sessions[j].session
    ensures NoRepeats(Ids(s.ticks))
  {
    forall i, j | 0 <= i < j < |s.ticks|
      ensures s.ticks[i].id != s.ticks[j].id
    {
      var a, b := s.ticks[i], s.ticks[j];
      assert SessionRight(x, spec, spec.sessions[i], adjudication, calendar, s.listed[i], a);
      assert SessionRight(x, spec, spec.sessions[j], adjudication, calendar, s.listed[j], b);
      assert Held(x, files, a) && Held(x, files, b);
      assert a.primary[0].primary[0].dates == [spec.sessions[i].session];
      assert b.primary[0].primary[0].dates == [spec.sessions[j].session];
      assert [spec.sessions[i].session][0] != [spec.sessions[j].session][0];
      assert KeyOf(a) == KeyOf(b) ==> a == b;
    }
  }

  // ---------------------------------------------------------------- the terminals

  lemma TerminalsSucceed(x: Sources, files: Files, spec: Spec, identity: Identity, listed: seq<SessionArtifacts>,
                         history: Artifact)
    requires Willing(x, spec.cutoff, files) && history.stage == StableListingHistory && Held(x, files, history)
    requires x.services.leaf(Key(CorporateActionSnapshot, spec.actionsId)).Some?
    ensures TerminalsStored(x, files, spec, identity, listed, history).value.Some?
  {
    var ids := [spec.actionsId];
    LeavesExist(x, CorporateActionSnapshot, ids);
    var actions := LeavesOf(x, CorporateActionSnapshot, ids).value;
    LeavesAre(x, CorporateActionSnapshot, ids);
    LeavesHeld(x, files, CorporateActionSnapshot, ids, actions);
    var first := Request(CorporateActionAdjustment, [history, actions[0]], [], [], "", [], spec.cutoff);
    HeldTogether(x, files, [history, actions[0]], [], []);
    StoredAnswers(x, files, first);
    StoredIs(x, files, first);
    var after := Stored(x, files, first).files;
    StillHeld(x, files, after, history);
    HeldTogether(x, after, [history], [], []);
    StoredAnswers(x, after, Request(EffectiveSessionTick, [history], [], [], "", [], spec.cutoff));
  }

  lemma HistorySucceeds(x: Sources, files: Files, spec: Spec, identity: Identity, calendars: seq<Artifact>, s: Sessions)
    requires Ready(x, spec) && |calendars| == 1 && Grounded(x, files, spec, identity.adjudication, calendars[0])
    requires SessionsRight(x, spec, spec.sessions, identity.adjudication, calendars[0], s) && AllHeld(x, files, s.ticks)
    ensures SessionsUsed(x, files, spec, identity, calendars, s).value.Some?
  {
    TicksDiffer(x, files, spec, identity.adjudication, calendars[0], s);
    var q := Request(StableListingHistory, s.ticks, calendars, [], "", [], spec.cutoff);
    forall i | 0 <= i < |s.ticks|
      ensures s.ticks[i].stage == SessionTickSnapshot
    {
      assert SessionRight(x, spec, spec.sessions[i], identity.adjudication, calendars[0], s.listed[i], s.ticks[i]);
    }
    HeldTogether(x, files, s.ticks, calendars, []);
    StoredAnswers(x, files, q);
    StoredIs(x, files, q);
    var history := Stored(x, files, q);
    TerminalsSucceed(x, history.files, spec, identity, s.listed, history.value.value);
  }

  /** A ready specification whose services answer is constructed. */
  lemma ConstructionSucceeds(x: Sources, files: Files, spec: Spec)
    requires Willing(x, spec.cutoff, files) && Ready(x, spec)
    ensures Constructed(x, files, spec).value.Some?
  {
    var ids := [spec.calendarId];
    LeavesExist(x, CalendarMaterialization, ids);
    var calendars := LeavesOf(x, CalendarMaterialization, ids).value;
    LeavesAre(x, CalendarMaterialization, ids);
    IdentitySucceeds(x, files, spec);
    var identity := IdentityStored(x, files, spec);
    LeavesHeld(x, identity.files, CalendarMaterialization, ids, calendars);
    SessionsBuilt(x, identity.files, spec, identity.value.value, calendars);
  }

  lemma IdentitySucceeds(x: Sources, files: Files, spec: Spec)
    requires Willing(x, spec.cutoff, files) && IdentityReady(x, spec)
    ensures var made := IdentityStored(x, files, spec);
            && made.value.Some? && Willing(x, spec.cutoff, made.files)
            && made.value.value.adjudication.stage == IdentityAdjudication
            && Held(x, made.files, made.value.value.adjudication)
  {
    IntakeSucceeds(x, files, spec);
    var promotions := LeavesOf(x, ReferencePromotion, BoundIds(spec)).value;
    var intake := Stored(x, files, Request(IdentityIntake, promotions, [], [], "", BoundDates(spec), spec.cutoff));
    AdjudicationSucceeds(x, intake.files, spec, intake.value.value);
  }

  lemma SessionsBuilt(x: Sources, files: Files, spec: Spec, identity: Identity, calendars: seq<Artifact>)
    requires Ready(x, spec) && |calendars| == 1 && Grounded(x, files, spec, identity.adjudication, calendars[0])
    ensures IdentityUsed(x, files, spec, identity, calendars).value.Some?
  {
    var none := Made(files, Some(Sessions([], [])));
    SessionsSucceed(x, none, spec, spec.sessions, identity.adjudication, calendars[0]);
    SessionsAreRight(x, none, spec, [], spec.sessions, identity.adjudication, calendars[0]);
    assert [] + spec.sessions == spec.sessions;
    var sessions := SessionsStored(x, files, spec, identity.adjudication, calendars[0]);
    HistorySucceeds(x, sessions.files, spec, identity, calendars, sessions.value.value);
  }

  // ---------------------------------------------------------------- services there are

  function Number(n: int): seq<string> {
    if n >= 0 then [Tally(n)] else ["", Tally(-n)]
  }

  function Numbers(ns: seq<int>): (lists: seq<seq<string>>)
    ensures |lists| == |ns| && forall i :: 0 <= i < |ns| ==> lists[i] == Number(ns[i])
  {
    if ns == [] then [] else [Number(ns[0])] + Numbers(ns[1..])
  }

  lemma NumberInjective(m: int, n: int)
    ensures Number(m) == Number(n) <==> m == n
  {
    if Number(m) == Number(n) {
      assert |Number(m)| == |Number(n)|;
      assert |Number(m)[|Number(m)| - 1]| == |Number(n)[|Number(n)| - 1]|;
    }
  }

  /** Everything of a record but its ID. */
  function RecordLists(r: Record): seq<seq<string>> {
    [r.primary, r.secondary, r.tertiary, Number(r.cutoff)] + Numbers(r.dates)
  }

  lemma RecordsDiffer(r: Record, s: Record)
    requires r.kind == s.kind && r.artifactId == s.artifactId && RecordLists(r) == RecordLists(s)
    ensures r == s
  {
    var a, b := RecordLists(r), RecordLists(s);
    assert a[0] == b[0] && a[1] == b[1] && a[2] == b[2] && a[3] == b[3];
    NumberInjective(r.cutoff, s.cutoff);
    assert a[4..] == Numbers(r.dates) && b[4..] == Numbers(s.dates);
    forall i | 0 <= i < |r.dates|
      ensures r.dates[i] == s.dates[i]
    {
      NumberInjective(r.dates[i], s.dates[i]);
    }
  }

  /** The ID of what a request asks for: a digest of the record to come. */
  function IdOf(q: Request): Id {
    Digest(Serialise(RecordLists(RecordOf(Shell(q)))))
  }

  function LeafAt(k: Key): Option<Artifact> {
    Some(Artifact(k.stage, k.id, [], [], [], "", ["p"], ["p"], [], 0, Facts("", false, "")))
  }

  function Derived(q: Request): Option<Derivation> {
    Some(Derivation(IdOf(q), q.dates, q.cutoff, Facts("", false, "")))
  }

  function PlainServices(): Services {
    Services(LeafAt, Derived, _ => true, _ => true)
  }

  function PlainSources(): Sources {
    Sources(PlainServices(), _ => 0, _ => 0)
  }

  function PlainSpec(): Spec {
    Spec([PromotionBinding("", 0)], [], [], "", [SessionBinding(0, "")], "", 0)
  }

  lemma PlainBuilt(q: Request)
    ensures Build(PlainServices(), q).Some?
    ensures var a := Build(PlainServices(), q).value;
            && a.stage == q.stage && a.id == IdOf(q)
            && RecordOf(a) == RecordOf(Shell(q)).(artifactId := IdOf(q))
  {
  }

  lemma PlainDistinguishes(p: Request, q: Request)
    requires p.stage == q.stage && IdOf(p) == IdOf(q)
    ensures RecordOf(Build(PlainServices(), p).value) == RecordOf(Build(PlainServices(), q).value)
  {
    var r, s := RecordOf(Shell(p)), RecordOf(Shell(q));
    DigestInjective(Serialise(RecordLists(r)), Serialise(RecordLists(s)));
    SerialiseInjective(RecordLists(r), RecordLists(s));
    PlainBuilt(p);
    PlainBuilt(q);
    RecordsDiffer(r.(artifactId := ""), s.(artifactId := ""));
  }

  lemma PlainIsWilling()
    ensures Willing(PlainSources(), 0, map[])
  {
    forall p, q | KeyOf(Build(PlainServices(), p).value) == KeyOf(Build(PlainServices(), q).value)
      ensures RecordOf(Build(PlainServices(), p).value) == RecordOf(Build(PlainServices(), q).value)
    {
      PlainBuilt(p);
      PlainBuilt(q);
      PlainDistinguishes(p, q);
    }
  }

  lemma PlainIsReady()
    ensures Ready(PlainSources(), PlainSpec())
  {
    var x, spec := PlainSources(), PlainSpec();
    assert BoundIds(spec) == [""];
    assert OnlySessionAt(x, ["p"], 0, 0) && ["p"][0] in ["p"];
    assert SessionReady(x, spec.sessions[0]);
  }

  /** There are services and a specification of which all this holds. */
  lemma SomethingIsConstructed()
    ensures exists x, files, spec: Spec :: Willing(x, spec.cutoff, files) && Ready(x, spec)
  {
    PlainIsWilling();
    PlainIsReady();
    assert PlainSpec().cutoff == 0;
  }
}
