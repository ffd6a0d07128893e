/** What the publisher constructs: which objects, over which sources, of which cutoff and
    dates; and that it passes the very checks its manifest is then put through, so that a
    publication fails after its construction only on a size or over a different manifest of
    the same ID. */
module ConstructedGraph {
  import opened Wrappers
  import opened ReplayGraph
  import opened MadeArtifacts
  import opened GraphPublication
  import opened ReplayScope
  import opened PublicationStore
  import opened GraphPublisher

  /** Resolvers answer under the key they were asked for, and the owning services keep the
      cutoff and the dates they were given. */
  ghost predicate Regular(services: Services) {
    && (forall k :: services.leaf(k).Some? ==> KeyOf(services.leaf(k).value) == k)
    && (forall q :: KeepsRequest(services, q))
  }

  predicate KeepsRequest(services: Services, q: Request) {
    services.derive(q).Some? ==>
      && services.derive(q).value.cutoff == q.cutoff
      && (q.stage.IdentityIntake? || q.stage.IdentitySessionUniverse? ==> services.derive(q).value.dates == q.dates)
  }

  /** The artifact's store returns it. */
  ghost predicate Held(x: Sources, files: Files, a: Artifact) {
    Get(World(x.services, files), KeyOf(a)) == Some(a)
  }

  /** The artifact is of this kind, over these sources, at this cutoff. */
  ghost predicate Over(a: Artifact, stage: Stage, primary: seq<Artifact>, secondary: seq<Artifact>,
                       tertiary: seq<Artifact>, cutoff: Instant)
  {
    && a.stage == stage && a.primary == primary && a.secondary == secondary && a.tertiary == tertiary
    && a.cutoff == cutoff
  }

  /** An artifact stored from a request is over the request's sources, at its cutoff and
      with its partition and dates, and reads back. */
  lemma StoredIs(x: Sources, files: Files, q: Request)
    requires Regular(x.services) && !IsLeaf(q.stage)
    ensures var made := Stored(x, files, q);
            && Grows(files, made.files)
            && (made.value.Some? ==>
                  var a := made.value.value;
                  && Over(a, q.stage, q.primary, q.secondary, q.tertiary, q.cutoff) && a.partition == q.partition
                  && (q.stage.IdentityIntake? || q.stage.IdentitySessionUniverse? ==> a.dates == q.dates)
                  && Held(x, made.files, a) && SourcesFit(a))
  {
    assert KeepsRequest(x.services, q);
    var built := Build(x.services, q);
    if built.Some? && CanPut(World(x.services, files), built.value) {
      StoredReadsBack(x.services, files, Stored(x, files, q).files, built.value);
    }
  }

  lemma StillHeld(x: Sources, before: Files, after: Files, a: Artifact)
    requires Held(x, before, a) && Grows(before, after)
    ensures Held(x, after, a)
  {
    GetMonotone(x.services, before, after, KeyOf(a));
  }

  /** Each object is its own resolver's answer for the ID at its place. */
  ghost predicate LeavesRight(x: Sources, stage: Stage, ids: seq<Id>, group: seq<Artifact>) {
    |group| == |ids| && forall i :: 0 <= i < |ids| ==> x.services.leaf(Key(stage, ids[i])) == Some(group[i])
  }

  lemma {:induction false} LeavesAre(x: Sources, stage: Stage, ids: seq<Id>)
    requires LeavesOf(x, stage, ids).Some?
    ensures LeavesRight(x, stage, ids, LeavesOf(x, stage, ids).value)
  {
    if ids != [] {
      LeavesAre(x, stage, ids[1..]);
    }
  }

  /** Under regular resolvers the objects carry the IDs. */
  lemma LeavesNamed(x: Sources, stage: Stage, ids: seq<Id>, group: seq<Artifact>)
    requires Regular(x.services) && LeavesRight(x, stage, ids, group)
    ensures Ids(group) == ids && AllOf(stage, group)
  {
    forall i | 0 <= i < |ids|
      ensures KeyOf(group[i]) == Key(stage, ids[i])
    {
      assert x.services.leaf(Key(stage, ids[i])) == Some(group[i]);
    }
  }

  // ---------------------------------------------------------------- the partition of a session

  /** The one place of a corpus whose partition is of the session. */
  ghost predicate OnlySessionAt(x: Sources, partitions: seq<Id>, session: Date, i: nat) {
    && i < |partitions| && x.partitionSession(partitions[i]) == session
    && forall j :: 0 <= j < |partitions| && j != i ==> x.partitionSession(partitions[j]) != session
  }

  ghost predicate OnlyPartition(x: Sources, partitions: seq<Id>, session: Date, partition: Id) {
    exists i: nat :: OnlySessionAt(x, partitions, session, i) && partitions[i] == partition
  }

  lemma {:induction false} NoPartitions(x: Sources, partitions: seq<Id>, session: Date)
    ensures PartitionsAt(x, partitions, session) == []
       <==> forall j :: 0 <= j < |partitions| ==> x.partitionSession(partitions[j]) != session
  {
    if partitions != [] {
      NoPartitions(x, partitions[1..], session);
      assert forall j :: 0 < j < |partitions| ==> partitions[j] == partitions[1..][j - 1];
    }
  }

  lemma OnlySessionShifts(x: Sources, partitions: seq<Id>, session: Date, i: nat)
    requires partitions != [] && x.partitionSession(partitions[0]) != session
    ensures OnlySessionAt(x, partitions, session, i + 1) <==> OnlySessionAt(x, partitions[1..], session, i)
  {
    if OnlySessionAt(x, partitions[1..], session, i) {
      forall j | 0 <= j < |partitions| && j != i + 1
        ensures x.partitionSession(partitions[j]) != session
      {
        assert j > 0 ==> partitions[1..][j - 1] == partitions[j];
      }
    }
  }

  lemma FirstSelected(x: Sources, partitions: seq<Id>, session: Date)
    requires partitions != [] && x.partitionSession(partitions[0]) == session
    ensures OnlySessionAt(x, partitions, session, 0) <==> PartitionsAt(x, partitions[1..], session) == []
  {
    var rest := partitions[1..];
    NoPartitions(x, rest, session);
    assert forall j :: 0 < j < |partitions| ==> partitions[j] == rest[j - 1];
    if OnlySessionAt(x, partitions, session, 0) {
      assert forall j :: 0 <= j < |rest| ==> rest[j] == partitions[j + 1];
    }
  }

  /** The selection finds one partition exactly when one place of the corpus, and no other,
      is of the session, and then it finds that place's. */
  lemma {:induction false} SelectionIff(x: Sources, partitions: seq<Id>, session: Date, partition: Id)
    ensures PartitionsAt(x, partitions, session) == [partition] <==> OnlyPartition(x, partitions, session, partition)
  {
    if partitions != [] {
      var rest := partitions[1..];
      if x.partitionSession(partitions[0]) == session {
        FirstSelected(x, partitions, session);
        var found := PartitionsAt(x, rest, session);
        assert PartitionsAt(x, partitions, session) == [partitions[0]] + found;
        assert ([partitions[0]] + found)[1..] == found;
        if PartitionsAt(x, partitions, session) == [partition] {
          assert |[partitions[0]] + found| == 1 + |found|;
          assert ([partitions[0]] + found)[0] == partition;
        }
        if i: nat :| OnlySessionAt(x, partitions, session, i) && partitions[i] == partition {
          assert i == 0;
        }
      } else {
        SelectionIff(x, rest, session, partition);
        assert PartitionsAt(x, partitions, session) == PartitionsAt(x, rest, session);
        if i: nat :| OnlySessionAt(x, rest, session, i) && rest[i] == partition {
          OnlySessionShifts(x, partitions, session, i);
          assert OnlySessionAt(x, partitions, session, i + 1) && partitions[i + 1] == partition;
        }
        if i: nat :| OnlySessionAt(x, partitions, session, i) && partitions[i] == partition {
          OnlySessionShifts(x, partitions, session, i - 1);
          assert OnlySessionAt(x, rest, session, i - 1) && rest[i - 1] == partition;
        }
      }
    }
  }

  // ---------------------------------------------------------------- the identity

  /** The adjudication over the intake over the bound promotions, each promotion of the
      report date it is bound to. */
  ghost predicate IdentityRight(x: Sources, spec: Spec, identity: Identity) {
    var intake, adjudication := identity.intake, identity.adjudication;
    && Over(adjudication, IdentityAdjudication, [intake], adjudication.secondary, adjudication.tertiary, spec.cutoff)
    && LeavesRight(x, IdentityEvidence, spec.evidenceIds, adjudication.secondary)
    && LeavesRight(x, IdentityReview, spec.reviewIds, adjudication.tertiary)
    && IntakeRight(x, spec, intake)
  }

  ghost predicate IntakeRight(x: Sources, spec: Spec, intake: Artifact) {
    && spec.promotions != [] && Over(intake, IdentityIntake, intake.primary, [], [], spec.cutoff)
    && LeavesRight(x, ReferencePromotion, BoundIds(spec), intake.primary)
    && intake.dates == BoundDates(spec)
    && forall i :: 0 <= i < |spec.promotions| ==> x.reportDate(intake.primary[i]) == spec.promotions[i].reportDate
  }

  lemma IntakeIsRight(x: Sources, files: Files, spec: Spec, promotions: seq<Artifact>)
    requires Regular(x.services) && LeavesOf(x, ReferencePromotion, BoundIds(spec)) == Some(promotions)
    requires DatesMatch(x, promotions, BoundDates(spec))
    ensures var made := Stored(x, files, Request(IdentityIntake, promotions, [], [], "", BoundDates(spec), spec.cutoff));
            made.value.Some? ==> IntakeRight(x, spec, made.value.value)
  {
    LeavesAre(x, ReferencePromotion, BoundIds(spec));
    StoredIs(x, files, Request(IdentityIntake, promotions, [], [], "", BoundDates(spec), spec.cutoff));
    assert forall i :: 0 <= i < |spec.promotions| ==> BoundDates(spec)[i] == spec.promotions[i].reportDate;
  }

  lemma AdjudicationIsRight(x: Sources, files: Files, spec: Spec, intake: Artifact)
    requires Regular(x.services) && IntakeRight(x, spec, intake)
    ensures var made := IntakeUsed(x, files, spec, intake);
            made.value.Some? ==> IdentityRight(x, spec, made.value.value)
  {
    var evidence, reviews := LeavesOf(x, IdentityEvidence, spec.evidenceIds), LeavesOf(x, IdentityReview, spec.reviewIds);
    if evidence.Some? && reviews.Some? {
      LeavesAre(x, IdentityEvidence, spec.evidenceIds);
      LeavesAre(x, IdentityReview, spec.reviewIds);
      StoredIs(x, files, Request(IdentityAdjudication, [intake], evidence.value, reviews.value, "", [], spec.cutoff));
    }
  }

  lemma IdentityIsRight(x: Sources, files: Files, spec: Spec)
    requires Regular(x.services) && IdentityStored(x, files, spec).value.Some?
    ensures IdentityRight(x, spec, IdentityStored(x, files, spec).value.value)
  {
    var promotions := LeavesOf(x, ReferencePromotion, BoundIds(spec)).value;
    var intake := Stored(x, files, Request(IdentityIntake, promotions, [], [], "", BoundDates(spec), spec.cutoff));
    IntakeIsRight(x, files, spec, promotions);
    AdjudicationIsRight(x, intake.files, spec, intake.value.value);
  }

  // ---------------------------------------------------------------- the sessions

  /** The universe of a session: over this adjudication and this calendar. */
  ghost predicate UniverseRight(spec: Spec, binding: SessionBinding, adjudication: Artifact, calendar: Artifact,
                                universe: Artifact)
  {
    && Over(universe, IdentitySessionUniverse, [adjudication, calendar], [], [], spec.cutoff)
    && universe.dates == [binding.session]
  }

  /** The frame of a session: over its universe and the one partition of its corpus that is
      of the session. */
  ghost predicate FrameRight(x: Sources, spec: Spec, binding: SessionBinding, universe: Artifact, frame: Artifact) {
    var corpus := x.services.leaf(Key(HistoricalCorpus, binding.corpusId));
    && corpus.Some? && Over(frame, SessionMarketDataFrame, [universe, corpus.value], [], [], spec.cutoff)
    && OnlyPartition(x, corpus.value.partitions, binding.session, frame.partition)
  }

  /** One listed session and its tick snapshot. */
  ghost predicate SessionRight(x: Sources, spec: Spec, binding: SessionBinding, adjudication: Artifact, calendar: Artifact,
                               listed: SessionArtifacts, tick: Artifact)
  {
    && |tick.primary| == 1 && |tick.primary[0].primary| == 2
    && var frame := tick.primary[0];
    && var universe := frame.primary[0];
    && Over(tick, SessionTickSnapshot, [frame], [], [], spec.cutoff)
    && FrameRight(x, spec, binding, universe, frame)
    && UniverseRight(spec, binding, adjudication, calendar, universe)
    && listed == SessionArtifacts(binding.session, universe.id, frame.id, tick.id)
  }

  lemma FrameIs(x: Sources, files: Files, spec: Spec, binding: SessionBinding, universe: Artifact)
    requires Regular(x.services)
    ensures var made := FrameStored(x, files, spec, binding, universe);
            made.value.Some? ==> FrameRight(x, spec, binding, universe, made.value.value)
  {
    var corpus := x.services.leaf(Key(HistoricalCorpus, binding.corpusId));
    if corpus.Some? && |PartitionsAt(x, corpus.value.partitions, binding.session)| == 1 {
      var partition := PartitionsAt(x, corpus.value.partitions, binding.session)[0];
      SelectionIff(x, corpus.value.partitions, binding.session, partition);
      StoredIs(x, files, Request(SessionMarketDataFrame, [universe, corpus.value], [], [], partition, [], spec.cutoff));
    }
  }

  lemma OverUniverseIs(x: Sources, files: Files, spec: Spec, binding: SessionBinding, universe: Artifact)
    requires Regular(x.services)
    ensures var made := UniverseUsed(x, files, spec, binding, universe);
            made.value.Some? ==>
              var s := made.value.value;
              && |s.tick.primary| == 1 && Over(s.tick, SessionTickSnapshot, [s.tick.primary[0]], [], [], spec.cutoff)
              && FrameRight(x, spec, binding, universe, s.tick.primary[0])
              && s.listed == SessionArtifacts(binding.session, universe.id, s.tick.primary[0].id, s.tick.id)
  {
    var frame := FrameStored(x, files, spec, binding, universe);
    FrameIs(x, files, spec, binding, universe);
    if frame.value.Some? {
      StoredIs(x, frame.files, Request(SessionTickSnapshot, [frame.value.value], [], [], "", [], spec.cutoff));
    }
  }

  lemma SessionIsRight(x: Sources, files: Files, spec: Spec, binding: SessionBinding,
                       adjudication: Artifact, calendar: Artifact)
    requires Regular(x.services)
    ensures var made := SessionStored(x, files, spec, binding, adjudication, calendar);
            made.value.Some? ==>
              SessionRight(x, spec, binding, adjudication, calendar, made.value.value.listed, made.value.value.tick)
  {
    var q := Request(IdentitySessionUniverse, [adjudication, calendar], [], [], "", [binding.session], spec.cutoff);
    var universe := Stored(x, files, q);
    StoredIs(x, files, q);
    if universe.value.Some? {
      OverUniverseIs(x, universe.files, spec, binding, universe.value.value);
    }
  }

  ghost predicate SessionsRight(x: Sources, spec: Spec, bindings: seq<SessionBinding>, adjudication: Artifact,
                                calendar: Artifact, s: Sessions)
  {
    && |s.listed| == |bindings| && |s.ticks| == |bindings|
    && forall i :: 0 <= i < |bindings| ==>
         SessionRight(x, spec, bindings[i], adjudication, calendar, s.listed[i], s.ticks[i])
  }

  lemma OneMoreSession(x: Sources, spec: Spec, bindings: seq<SessionBinding>, binding: SessionBinding,
                       adjudication: Artifact, calendar: Artifact, s: Sessions, listed: SessionArtifacts, tick: Artifact)
    requires SessionsRight(x, spec, bindings, adjudication, calendar, s)
    requires SessionRight(x, spec, binding, adjudication, calendar, listed, tick)
    ensures SessionsRight(x, spec, bindings + [binding], adjudication, calendar,
                          Sessions(s.listed + [listed], s.ticks + [tick]))
  {
  }

  ghost predicate MadeRight(x: Sources, spec: Spec, made: Made<Sessions>, bindings: seq<SessionBinding>,
                            adjudication: Artifact, calendar: Artifact)
  {
    made.value.Some? ==> SessionsRight(x, spec, bindings, adjudication, calendar, made.value.value)
  }

  lemma NextIsRight(x: Sources, before: Made<Sessions>, spec: Spec, done: seq<SessionBinding>, binding: SessionBinding,
                    adjudication: Artifact, calendar: Artifact)
    requires Regular(x.services) && MadeRight(x, spec, before, done, adjudication, calendar)
    ensures MadeRight(x, spec, NextSession(x, before, spec, binding, adjudication, calendar), done + [binding],
                      adjudication, calendar)
  {
    if before.value.Some? {
      var session := SessionStored(x, before.files, spec, binding, adjudication, calendar);
      SessionIsRight(x, before.files, spec, binding, adjudication, calendar);
      if session.value.Some? {
        OneMoreSession(x, spec, done, binding, adjudication, calendar, before.value.value, session.value.value.listed,
                       session.value.value.tick);
      }
    }
  }

  lemma {:induction false} SessionsAreRight(x: Sources, before: Made<Sessions>, spec: Spec, done: seq<SessionBinding>,
                                            left: seq<SessionBinding>, adjudication: Artifact, calendar: Artifact)
    requires Regular(x.services) && MadeRight(x, spec, before, done, adjudication, calendar)
    ensures MadeRight(x, spec, SessionsFrom(x, before, spec, left, adjudication, calendar), done + left,
                      adjudication, calendar)
    decreases |left|
  {
    if left == [] || before.value.None? {
      assert left == [] ==> done + left == done;
    } else {
      NextIsRight(x, before, spec, done, left[0], adjudication, calendar);
      assert done + [left[0]] + left[1..] == done + left;
      SessionsAreRight(x, NextSession(x, before, spec, left[0], adjudication, calendar), spec, done + [left[0]],
                       left[1..], adjudication, calendar);
    }
  }

  // ---------------------------------------------------------------- the terminals

  /** The two terminal artifacts over one history, both held. */
  ghost predicate TerminalsRight(x: Sources, files: Files, spec: Spec, history: Artifact, adjustment: Artifact,
                                 effective: Artifact)
  {
    var actions := x.services.leaf(Key(CorporateActionSnapshot, spec.actionsId));
    && actions.Some? && Over(adjustment, CorporateActionAdjustment, [history, actions.value], [], [], spec.cutoff)
    && Over(effective, EffectiveSessionTick, [history], [], [], spec.cutoff)
    && Held(x, files, adjustment) && Held(x, files, effective)
  }

  lemma TerminalsAreRight(x: Sources, files: Files, spec: Spec, identity: Identity, listed: seq<SessionArtifacts>,
                          history: Artifact)
    returns (adjustment: Artifact, effective: Artifact)
    requires Regular(x.services) && TerminalsStored(x, files, spec, identity, listed, history).value.Some?
    ensures var made := TerminalsStored(x, files, spec, identity, listed, history);
            && TerminalsRight(x, made.files, spec, history, adjustment, effective)
            && made.value.value == ManifestOf(spec, identity, listed, history, adjustment, effective)
  {
    var actions := LeavesOf(x, CorporateActionSnapshot, [spec.actionsId]).value;
    LeavesAre(x, CorporateActionSnapshot, [spec.actionsId]);
    var first := Request(CorporateActionAdjustment, [history, actions[0]], [], [], "", [], spec.cutoff);
    var second := Request(EffectiveSessionTick, [history], [], [], "", [], spec.cutoff);
    var stored := Stored(x, files, first);
    StoredIs(x, files, first);
    StoredIs(x, stored.files, second);
    adjustment, effective := stored.value.value, Stored(x, stored.files, second).value.value;
    StillHeld(x, stored.files, Stored(x, stored.files, second).files, adjustment);
  }

  /** The history over the sessions and the calendar. */
  ghost predicate HistoryRight(spec: Spec, history: Artifact, calendar: Artifact, ticks: seq<Artifact>) {
    Over(history, StableListingHistory, ticks, [calendar], [], spec.cutoff) && ticks != []
  }

  lemma HistoryIsRight(x: Sources, files: Files, spec: Spec, calendars: seq<Artifact>, ticks: seq<Artifact>)
    requires Regular(x.services) && |calendars| == 1
    ensures var made := Stored(x, files, Request(StableListingHistory, ticks, calendars, [], "", [], spec.cutoff));
            made.value.Some? ==> HistoryRight(spec, made.value.value, calendars[0], ticks)
  {
    StoredIs(x, files, Request(StableListingHistory, ticks, calendars, [], "", [], spec.cutoff));
  }

  // ---------------------------------------------------------------- the whole graph

  datatype Graph = Graph(identity: Identity, calendar: Artifact, sessions: Sessions, history: Artifact,
                         adjustment: Artifact, effective: Artifact)

  /** The manifest names this graph, the graph is over the sources that the specification
      names, every object of it at the specification's cutoff, and its terminals are held. */
  ghost predicate GraphRight(x: Sources, files: Files, spec: Spec, m: Manifest, g: Graph) {
    && IdentityRight(x, spec, g.identity)
    && x.services.leaf(Key(CalendarMaterialization, spec.calendarId)) == Some(g.calendar)
    && SessionsRight(x, spec, spec.sessions, g.identity.adjudication, g.calendar, g.sessions)
    && HistoryRight(spec, g.history, g.calendar, g.sessions.ticks)
    && TerminalsRight(x, files, spec, g.history, g.adjustment, g.effective)
    && Names(m, spec, g)
  }

  /** The manifest repeats the specification and lists the graph's IDs and findings. */
  ghost predicate Names(m: Manifest, spec: Spec, g: Graph) {
    && SpecOf(m) == spec && m.artifacts == g.sessions.listed
    && m.intakeId == g.identity.intake.id && m.adjudicationId == g.identity.adjudication.id
    && m.historyId == g.history.id && m.adjustmentId == g.adjustment.id && m.effectiveId == g.effective.id
    && m.adjustmentFacts == (g.adjustment.facts.readiness, g.adjustment.facts.actionable)
    && m.effectiveFacts == (g.effective.facts.readiness, g.effective.facts.actionable)
  }

  lemma SessionsUsedRight(x: Sources, files: Files, spec: Spec, identity: Identity, calendars: seq<Artifact>,
                          sessions: Sessions) returns (g: Graph)
    requires Regular(x.services) && IdentityRight(x, spec, identity)
    requires LeavesRight(x, CalendarMaterialization, [spec.calendarId], calendars)
    requires SessionsRight(x, spec, spec.sessions, identity.adjudication, calendars[0], sessions)
    requires SessionsUsed(x, files, spec, identity, calendars, sessions).value.Some?
    ensures var made := SessionsUsed(x, files, spec, identity, calendars, sessions);
            GraphRight(x, made.files, spec, made.value.value, g)
  {
    var history := Stored(x, files, Request(StableListingHistory, sessions.ticks, calendars, [], "", [], spec.cutoff));
    HistoryIsRight(x, files, spec, calendars, sessions.ticks);
    var adjustment, effective := TerminalsAreRight(x, history.files, spec, identity, sessions.listed, history.value.value);
    g := Graph(identity, calendars[0], sessions, history.value.value, adjustment, effective);
  }

  /** With regular services a constructed manifest names a graph over exactly the sources
      the specification names. */
  lemma ConstructedIsRight(x: Sources, files: Files, spec: Spec) returns (g: Graph)
    requires Regular(x.services) && Constructed(x, files, spec).value.Some?
    ensures var made := Constructed(x, files, spec);
            GraphRight(x, made.files, spec, made.value.value, g)
  {
    var identity := IdentityStored(x, files, spec);
    var calendars := LeavesOf(x, CalendarMaterialization, [spec.calendarId]).value;
    IdentityIsRight(x, files, spec);
    LeavesAre(x, CalendarMaterialization, [spec.calendarId]);
    var none := Made(identity.files, Some(Sessions([], [])));
    SessionsAreRight(x, none, spec, [], spec.sessions, identity.value.value.adjudication, calendars[0]);
    assert [] + spec.sessions == spec.sessions;
    var sessions := SessionsStored(x, identity.files, spec, identity.value.value.adjudication, calendars[0]);
    g := SessionsUsedRight(x, sessions.files, spec, identity.value.value, calendars, sessions.value.value);
  }

  lemma SourceHeld(w: World, a: Artifact, s: Artifact)
    requires !IsLeaf(a.stage) && Get(w, KeyOf(a)) == Some(a) && s in a.primary
    ensures Get(w, KeyOf(s)) == Some(s)
  {
    GetIffMade(w, a);
    assert s in a.primary + a.secondary + a.tertiary;
  }

  /** Everything on a path down from a held artifact is held. */
  lemma PathHeld(w: World, adjustment: Artifact, history: Artifact, tick: Artifact, frame: Artifact)
    requires adjustment.stage == CorporateActionAdjustment && Get(w, KeyOf(adjustment)) == Some(adjustment)
    requires history in adjustment.primary && history.stage == StableListingHistory
    requires tick in history.primary && tick.stage == SessionTickSnapshot && frame in tick.primary
    ensures Get(w, KeyOf(frame)) == Some(frame)
  {
    SourceHeld(w, adjustment, history);
    SourceHeld(w, history, tick);
    SourceHeld(w, tick, frame);
  }

  lemma ListedFrameOf(x: Sources, files: Files, spec: Spec, m: Manifest, g: Graph, i: nat)
    requires GraphRight(x, files, spec, m, g) && i < |spec.sessions|
    ensures i < |m.artifacts| && |g.sessions.ticks[i].primary| == 1
    ensures var frame := g.sessions.ticks[i].primary[0];
            && |frame.primary| == 2 && FrameRight(x, spec, spec.sessions[i], frame.primary[0], frame)
            && KeyOf(frame) == Key(SessionMarketDataFrame, m.artifacts[i].frameId)
            && Get(World(x.services, files), KeyOf(frame)) == Some(frame)
  {
    var tick := g.sessions.ticks[i];
    assert SessionRight(x, spec, spec.sessions[i], g.identity.adjudication, g.calendar, g.sessions.listed[i], tick);
    PathHeld(World(x.services, files), g.adjustment, g.history, tick, tick.primary[0]);
  }

  /** Each listed frame reads back, and is over the one partition of its session's corpus
      that is of that session. */
  lemma ListedFrameIsRight(x: Sources, files: Files, spec: Spec, i: nat)
    requires Regular(x.services) && Constructed(x, files, spec).value.Some? && i < |spec.sessions|
    ensures var made := Constructed(x, files, spec);
            && i < |made.value.value.artifacts|
            && var corpus := x.services.leaf(Key(HistoricalCorpus, spec.sessions[i].corpusId));
            && var frame := Get(World(x.services, made.files),
                                Key(SessionMarketDataFrame, made.value.value.artifacts[i].frameId));
            && corpus.Some? && frame.Some?
            && OnlyPartition(x, corpus.value.partitions, spec.sessions[i].session, frame.value.partition)
            && frame.value.cutoff == spec.cutoff
  {
    var made := Constructed(x, files, spec);
    var g := ConstructedIsRight(x, files, spec);
    ListedFrameOf(x, made.files, spec, made.value.value, g, i);
  }

  // ---------------------------------------------------------------- the manifest is accepted

  lemma IdentityAccepted(x: Sources, m: Manifest, spec: Spec, g: Graph)
    requires Regular(x.services) && IdentityRight(x, spec, g.identity) && Names(m, spec, g)
    ensures IdentityMatches(m, g.identity.adjudication) && m.promotions != []
  {
    var intake, adjudication := g.identity.intake, g.identity.adjudication;
    LeavesNamed(x, ReferencePromotion, BoundIds(spec), intake.primary);
    LeavesNamed(x, IdentityEvidence, spec.evidenceIds, adjudication.secondary);
    LeavesNamed(x, IdentityReview, spec.reviewIds, adjudication.tertiary);
    assert PromotionIds(m) == BoundIds(spec) && ReportDates(m) == BoundDates(spec);
  }

  lemma SessionsAccepted(x: Sources, m: Manifest, spec: Spec, g: Graph)
    requires Regular(x.services) && Names(m, spec, g) && m.promotions != [] && g.sessions.ticks != []
    requires x.services.leaf(Key(CalendarMaterialization, spec.calendarId)) == Some(g.calendar)
    requires SessionsRight(x, spec, spec.sessions, g.identity.adjudication, g.calendar, g.sessions)
    ensures Valid(m) && SessionsMatch(m, g.sessions.ticks)
    ensures AdjudicationOf(g.sessions.ticks[0]) == g.identity.adjudication
  {
    forall i | 0 <= i < |m.sessions|
      ensures m.artifacts[i].session == m.sessions[i].session
      ensures SessionMatches(m, m.sessions[i], m.artifacts[i], g.sessions.ticks[i])
      ensures AdjudicationOf(g.sessions.ticks[i]) == g.identity.adjudication
    {
      assert SessionRight(x, spec, spec.sessions[i], g.identity.adjudication, g.calendar, g.sessions.listed[i],
                          g.sessions.ticks[i]);
      assert KeyOf(g.calendar) == Key(CalendarMaterialization, spec.calendarId);
    }
  }

  lemma TerminalsAccepted(x: Sources, files: Files, spec: Spec, m: Manifest, g: Graph)
    requires Regular(x.services) && GraphRight(x, files, spec, m, g)
    ensures TerminalsMatch(m, g.adjustment, g.effective) && HistoryMatches(m, g.history)
  {
    var actions := x.services.leaf(Key(CorporateActionSnapshot, spec.actionsId)).value;
    assert KeyOf(actions) == Key(CorporateActionSnapshot, spec.actionsId);
    assert KeyOf(g.calendar) == Key(CalendarMaterialization, spec.calendarId);
    assert |m.sessions| == |g.sessions.ticks|;
  }

  /** With regular services a constructed manifest passes the walk over what the
      construction stored. */
  lemma ConstructedIsAccepted(x: Sources, files: Files, spec: Spec)
    requires Regular(x.services) && Constructed(x, files, spec).value.Some?
    ensures var made := Constructed(x, files, spec);
            Valid(made.value.value) && WalkAccepts(ReaderOf(World(x.services, made.files)), made.value.value)
  {
    var made := Constructed(x, files, spec);
    var g := ConstructedIsRight(x, files, spec);
    var m := made.value.value;
    IdentityAccepted(x, m, spec, g);
    SessionsAccepted(x, m, spec, g);
    TerminalsAccepted(x, made.files, spec, m, g);
    assert WalkAcceptsObjects(m, g.adjustment, g.effective);
  }

  /** Exactly when publishing succeeds: the construction does, the manifest keeps within its
      limit, and no other manifest has its ID. */
  lemma PublishedIffConstructed(x: Sources, files: Files, spec: Spec, codec: Codec, publications: map<Id, Manifest>)
    requires Regular(x.services) && Constructed(x, files, spec).value.Some?
    ensures var made := Constructed(x, files, spec);
            MayStore(World(x.services, made.files), codec, publications, made.value.value)
            == (codec.fits(made.value.value) && Unopposed(codec, publications, made.value.value))
  {
    var made := Constructed(x, files, spec);
    ConstructedIsAccepted(x, files, spec);
    MayStoreIff(World(x.services, made.files), codec, publications, made.value.value);
  }
}
