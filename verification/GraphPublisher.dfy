/** The publisher: rebuilds every intermediate artifact from a pinned specification,
    makes each one durable, and records the manifest last.

    The construction is first given as functions from stored files to stored files,
    without scopes or caches; the publisher's methods, which run inside one memoising
    scope, are proved to do exactly the same. */
module GraphPublisher {
  import opened Wrappers
  import opened ReplayGraph
  import opened GraphPublication
  import opened ReplayScope
  import opened PublicationStore

  datatype Spec = Spec(
    promotions: seq<PromotionBinding>,
    evidenceIds: seq<Id>,
    reviewIds: seq<Id>,
    calendarId: Id,
    sessions: seq<SessionBinding>,
    actionsId: Id,
    cutoff: Instant)

  /** The specification a manifest retains in full. */
  function SpecOf(m: Manifest): Spec {
    Spec(m.promotions, m.evidenceIds, m.reviewIds, m.calendarId, m.sessions, m.actionsId, m.cutoff)
  }

  /** The services, with the session and report date the leaf objects of a source carry. */
  datatype Sources = Sources(services: Services, partitionSession: Id -> Date, reportDate: Artifact -> Date)

  /** The files after a step, and what the step returned. */
  datatype Made<+T> = Made(files: Files, value: Option<T>)

  // ---------------------------------------------------------------- plain publishing

  /** The leaf objects of a list of IDs, in order. */
  function LeavesOf(x: Sources, stage: Stage, ids: seq<Id>): (r: Option<seq<Artifact>>)
    ensures r.Some? ==> |r.value| == |ids|
  {
    if ids == [] then Some([])
    else
      var first, rest := x.services.leaf(Key(stage, ids[0])), LeavesOf(x, stage, ids[1..]);
      if first.Some? && KeyOf(first.value) == Key(stage, ids[0]) && rest.Some? then Some([first.value] + rest.value)
      else None
  }

  /** What was found already, before what is still to be found. */
  function Before(values: seq<Artifact>, rest: Option<seq<Artifact>>): Option<seq<Artifact>> {
    if rest.Some? then Some(values + rest.value) else None
  }

  lemma NothingBefore(rest: Option<seq<Artifact>>)
    ensures Before([], rest) == rest
  {
    assert rest.Some? ==> [] + rest.value == rest.value;
  }

  lemma OneMoreBefore(values: seq<Artifact>, value: Artifact, rest: Option<seq<Artifact>>)
    ensures Before(values, Before([value], rest)) == Before(values + [value], rest)
  {
    assert rest.Some? ==> values + ([value] + rest.value) == (values + [value]) + rest.value;
  }

  /** Materialise one artifact from objects in hand, then store it. */
  ghost function Stored(x: Sources, files: Files, q: Request): Made<Artifact> {
    match Build(x.services, q)
    case None => Made(files, None)
    case Some(a) =>
      var w := World(x.services, files);
      Made(FilesAfterPut(w, a), if CanPut(w, a) then Some(a) else None)
  }

  function BoundIds(spec: Spec): seq<Id> {
    seq(|spec.promotions|, i requires 0 <= i < |spec.promotions| => spec.promotions[i].promotionId)
  }

  function BoundDates(spec: Spec): (dates: seq<Date>)
    ensures |dates| == |spec.promotions|
  {
    seq(|spec.promotions|, i requires 0 <= i < |spec.promotions| => spec.promotions[i].reportDate)
  }

  predicate DatesMatch(x: Sources, promotions: seq<Artifact>, dates: seq<Date>) {
    |promotions| == |dates| && forall i :: 0 <= i < |dates| ==> x.reportDate(promotions[i]) == dates[i]
  }

  datatype Identity = Identity(intake: Artifact, adjudication: Artifact)

  /** The adjudication over the intake. */
  ghost function IntakeUsed(x: Sources, files: Files, spec: Spec, intake: Artifact): Made<Identity> {
    var evidence, reviews := LeavesOf(x, IdentityEvidence, spec.evidenceIds), LeavesOf(x, IdentityReview, spec.reviewIds);
    if evidence.None? || reviews.None? then Made(files, None)
    else
      var adjudication := Stored(x, files, Request(IdentityAdjudication, [intake], evidence.value, reviews.value, "", [],
                                                   spec.cutoff));
      Made(adjudication.files,
           if adjudication.value.Some? then Some(Identity(intake, adjudication.value.value)) else None)
  }

  ghost function IdentityStored(x: Sources, files: Files, spec: Spec): Made<Identity> {
    var promotions := LeavesOf(x, ReferencePromotion, BoundIds(spec));
    if promotions.None? || !DatesMatch(x, promotions.value, BoundDates(spec)) then Made(files, None)
    else
      var intake := Stored(x, files, Request(IdentityIntake, promotions.value, [], [], "", BoundDates(spec), spec.cutoff));
      if intake.value.None? then Made(intake.files, None)
      else IntakeUsed(x, intake.files, spec, intake.value.value)
  }

  function PartitionsAt(x: Sources, partitions: seq<Id>, session: Date): seq<Id> {
    if partitions == [] then []
    else
      (if x.partitionSession(partitions[0]) == session then [partitions[0]] else [])
      + PartitionsAt(x, partitions[1..], session)
  }

  /** The frame over the only corpus partition of the session. */
  ghost function FrameStored(x: Sources, files: Files, spec: Spec, binding: SessionBinding, universe: Artifact): Made<Artifact> {
    var corpus := x.services.leaf(Key(HistoricalCorpus, binding.corpusId));
    if corpus.None? || |PartitionsAt(x, corpus.value.partitions, binding.session)| != 1 then Made(files, None)
    else Stored(x, files, Request(SessionMarketDataFrame, [universe, corpus.value], [], [],
                                  PartitionsAt(x, corpus.value.partitions, binding.session)[0], [], spec.cutoff))
  }

  datatype Session = Session(listed: SessionArtifacts, tick: Artifact)

  /** Frame and tick snapshot over a session's universe, each stored before the next. */
  ghost function UniverseUsed(x: Sources, files: Files, spec: Spec, binding: SessionBinding, universe: Artifact): Made<Session> {
    var frame := FrameStored(x, files, spec, binding, universe);
    if frame.value.None? then Made(frame.files, None)
    else
      var tick := Stored(x, frame.files, Request(SessionTickSnapshot, [frame.value.value], [], [], "", [], spec.cutoff));
      Made(tick.files,
           if tick.value.None? then None
           else Some(Session(SessionArtifacts(binding.session, universe.id, frame.value.value.id, tick.value.value.id),
                             tick.value.value)))
  }

  ghost function SessionStored(x: Sources, files: Files, spec: Spec, binding: SessionBinding,
                               adjudication: Artifact, calendar: Artifact): Made<Session>
  {
    var universe := Stored(x, files, Request(IdentitySessionUniverse, [adjudication, calendar], [], [], "",
                                             [binding.session], spec.cutoff));
    if universe.value.None? then Made(universe.files, None)
    else UniverseUsed(x, universe.files, spec, binding, universe.value.value)
  }

  datatype Sessions = Sessions(listed: seq<SessionArtifacts>, ticks: seq<Artifact>)

  /** One session more, unless an earlier one failed. */
  ghost function NextSession(x: Sources, before: Made<Sessions>, spec: Spec, binding: SessionBinding,
                             adjudication: Artifact, calendar: Artifact): Made<Sessions>
  {
    if before.value.None? then before
    else
      var session := SessionStored(x, before.files, spec, binding, adjudication, calendar);
      Made(session.files,
           if session.value.None? then None
           else Some(Sessions(before.value.value.listed + [session.value.value.listed],
                              before.value.value.ticks + [session.value.value.tick])))
  }

  /** The sessions in order, up to the first that fails. */
  ghost function SessionsFrom(x: Sources, before: Made<Sessions>, spec: Spec, bindings: seq<SessionBinding>,
                              adjudication: Artifact, calendar: Artifact): Made<Sessions>
    decreases |bindings|
  {
    if bindings == [] || before.value.None? then before
    else
      SessionsFrom(x, NextSession(x, before, spec, bindings[0], adjudication, calendar), spec, bindings[1..],
                   adjudication, calendar)
  }

  ghost function SessionsStored(x: Sources, files: Files, spec: Spec, adjudication: Artifact, calendar: Artifact)
    : Made<Sessions>
  {
    SessionsFrom(x, Made(files, Some(Sessions([], []))), spec, spec.sessions, adjudication, calendar)
  }

  /** The two terminal artifacts over the history, and the manifest that names everything. */
  ghost function TerminalsStored(x: Sources, files: Files, spec: Spec, identity: Identity,
                                 listed: seq<SessionArtifacts>, history: Artifact): Made<Manifest>
  {
    var actions := LeavesOf(x, CorporateActionSnapshot, [spec.actionsId]);
    if actions.None? then Made(files, None)
    else
      var adjustment := Stored(x, files, Request(CorporateActionAdjustment, [history, actions.value[0]], [], [], "", [],
                                                 spec.cutoff));
      if adjustment.value.None? then Made(adjustment.files, None)
      else
        var effective := Stored(x, adjustment.files, Request(EffectiveSessionTick, [history], [], [], "", [], spec.cutoff));
        Made(effective.files,
             if effective.value.None? then None
             else Some(ManifestOf(spec, identity, listed, history, adjustment.value.value, effective.value.value)))
  }

  function ManifestOf(spec: Spec, identity: Identity, listed: seq<SessionArtifacts>, history: Artifact,
                      adjustment: Artifact, effective: Artifact): Manifest
  {
    Manifest(spec.promotions, spec.evidenceIds, spec.reviewIds, spec.calendarId, spec.sessions, spec.actionsId,
             spec.cutoff, identity.intake.id, identity.adjudication.id, listed, history.id, adjustment.id, effective.id,
             Status(adjustment), Status(effective))
  }

  /** The history over all sessions, and the terminals over it. */
  ghost function SessionsUsed(x: Sources, files: Files, spec: Spec, identity: Identity, calendars: seq<Artifact>,
                              sessions: Sessions): Made<Manifest>
  {
    var history := Stored(x, files, Request(StableListingHistory, sessions.ticks, calendars, [], "", [], spec.cutoff));
    if history.value.None? then Made(history.files, None)
    else TerminalsStored(x, history.files, spec, identity, sessions.listed, history.value.value)
  }

  ghost function IdentityUsed(x: Sources, files: Files, spec: Spec, identity: Identity, calendars: seq<Artifact>): Made<Manifest>
    requires |calendars| == 1
  {
    var sessions := SessionsStored(x, files, spec, identity.adjudication, calendars[0]);
    if sessions.value.None? then Made(sessions.files, None)
    else SessionsUsed(x, sessions.files, spec, identity, calendars, sessions.value.value)
  }

  /** Everything up to, but not including, the manifest becoming durable. */
  ghost function Constructed(x: Sources, files: Files, spec: Spec): Made<Manifest> {
    var identity := IdentityStored(x, files, spec);
    var calendars := LeavesOf(x, CalendarMaterialization, [spec.calendarId]);
    if identity.value.None? || calendars.None? then Made(identity.files, None)
    else IdentityUsed(x, identity.files, spec, identity.value.value, calendars.value)
  }

  lemma TerminalsKeepSpec(x: Sources, files: Files, spec: Spec, identity: Identity,
                          listed: seq<SessionArtifacts>, history: Artifact)
    ensures var made := TerminalsStored(x, files, spec, identity, listed, history);
            made.value.Some? ==> SpecOf(made.value.value) == spec
  {
  }

  lemma SessionsKeepSpec(x: Sources, files: Files, spec: Spec, identity: Identity, calendars: seq<Artifact>,
                         sessions: Sessions)
    ensures var made := SessionsUsed(x, files, spec, identity, calendars, sessions);
            made.value.Some? ==> SpecOf(made.value.value) == spec
  {
    var history := Stored(x, files, Request(StableListingHistory, sessions.ticks, calendars, [], "", [], spec.cutoff));
    if history.value.Some? {
      TerminalsKeepSpec(x, history.files, spec, identity, sessions.listed, history.value.value);
    }
  }

  /** A constructed manifest retains its whole specification. */
  lemma ConstructedKeepsSpec(x: Sources, files: Files, spec: Spec)
    ensures var made := Constructed(x, files, spec);
            made.value.Some? ==> SpecOf(made.value.value) == spec
  {
    var identity := IdentityStored(x, files, spec);
    var calendars := LeavesOf(x, CalendarMaterialization, [spec.calendarId]);
    if identity.value.Some? && calendars.Some? {
      var sessions := SessionsStored(x, identity.files, spec, identity.value.value.adjudication,
                                     calendars.value[0]);
      if sessions.value.Some? {
        SessionsKeepSpec(x, sessions.files, spec, identity.value.value, calendars.value, sessions.value.value);
      }
    }
  }

  // ---------------------------------------------------------------- the publisher

  class Publisher {
    const store: LocalPublicationStore
    const graph: GraphStores
    const sources: Sources

    constructor (store: LocalPublicationStore, partitionSession: Id -> Date, reportDate: Artifact -> Date)
      ensures this.store == store && this.graph == store.graph
      ensures sources == Sources(graph.services, partitionSession, reportDate)
    {
      this.store, this.graph := store, store.graph;
      this.sources := Sources(store.graph.services, partitionSession, reportDate);
    }

    /** The cache stays sound, the scope as open or closed as it was. */
    twostate predicate ScopeKept()
      reads graph
    {
      graph.Valid() && graph.cache.Some? == old(graph.cache.Some?)
    }

    method Leaves(stage: Stage, ids: seq<Id>) returns (r: Option<seq<Artifact>>)
      ensures r == LeavesOf(sources, stage, ids)
      ensures r.Some? ==> |r.value| == |ids|
    {
      var values: seq<Artifact> := [];
      var left := ids;
      NothingBefore(LeavesOf(sources, stage, ids));
      while left != []
        invariant |values| + |left| == |ids|
        invariant LeavesOf(sources, stage, ids) == Before(values, LeavesOf(sources, stage, left))
        decreases |left|
      {
        var value := sources.services.leaf(Key(stage, left[0]));
        if value.None? || KeyOf(value.value) != Key(stage, left[0]) {
          return None;
        }
        OneMoreBefore(values, value.value, LeavesOf(sources, stage, left[1..]));
        values, left := values + [value.value], left[1..];
      }
      assert values + [] == values;
      r := Some(values);
    }

    method MaterializeAndPut(q: Request) returns (r: Option<Artifact>)
      requires graph.Valid() && !IsLeaf(q.stage) && sources.services == graph.services
      modifies graph`files, graph`cache, graph`fetched
      ensures ScopeKept() && Made(graph.files, r) == Stored(sources, old(graph.files), q)
    {
      r := Build(graph.services, q);
      if r.Some? {
        r := graph.Put(r.value);
      }
    }

    method PublishAdjudication(spec: Spec, intake: Artifact) returns (r: Option<Identity>)
      requires graph.Valid() && sources.services == graph.services
      modifies graph`files, graph`cache, graph`fetched
      ensures ScopeKept() && Made(graph.files, r) == IntakeUsed(sources, old(graph.files), spec, intake)
    {
      r := None;
      var evidence := Leaves(IdentityEvidence, spec.evidenceIds);
      var reviews := Leaves(IdentityReview, spec.reviewIds);
      if evidence.Some? && reviews.Some? {
        var adjudication := MaterializeAndPut(
          Request(IdentityAdjudication, [intake], evidence.value, reviews.value, "", [], spec.cutoff));
        if adjudication.Some? {
          r := Some(Identity(intake, adjudication.value));
        }
      }
    }

    method PublishIdentity(spec: Spec) returns (r: Option<Identity>)
      requires graph.Valid() && sources.services == graph.services
      modifies graph`files, graph`cache, graph`fetched
      ensures ScopeKept() && Made(graph.files, r) == IdentityStored(sources, old(graph.files), spec)
    {
      r := None;
      var promotions := Leaves(ReferencePromotion, BoundIds(spec));
      if promotions.Some? && DatesMatch(sources, promotions.value, BoundDates(spec)) {
        var intake := MaterializeAndPut(
          Request(IdentityIntake, promotions.value, [], [], "", BoundDates(spec), spec.cutoff));
        if intake.Some? {
          r := PublishAdjudication(spec, intake.value);
        }
      }
    }

    method PublishFrame(spec: Spec, binding: SessionBinding, universe: Artifact) returns (r: Option<Artifact>)
      requires graph.Valid() && sources.services == graph.services
      modifies graph`files, graph`cache, graph`fetched
      ensures ScopeKept() && Made(graph.files, r) == FrameStored(sources, old(graph.files), spec, binding, universe)
    {
      r := None;
      var corpus := graph.services.leaf(Key(HistoricalCorpus, binding.corpusId));
      if corpus.Some? {
        var matches := PartitionsAt(sources, corpus.value.partitions, binding.session);
        if |matches| == 1 {
          r := MaterializeAndPut(
            Request(SessionMarketDataFrame, [universe, corpus.value], [], [], matches[0], [], spec.cutoff));
        }
      }
    }

    method PublishOverUniverse(spec: Spec, binding: SessionBinding, universe: Artifact) returns (r: Option<Session>)
      requires graph.Valid() && sources.services == graph.services
      modifies graph`files, graph`cache, graph`fetched
      ensures ScopeKept() && Made(graph.files, r) == UniverseUsed(sources, old(graph.files), spec, binding, universe)
    {
      r := None;
      var frame := PublishFrame(spec, binding, universe);
      if frame.Some? {
        var tick := MaterializeAndPut(Request(SessionTickSnapshot, [frame.value], [], [], "", [], spec.cutoff));
        if tick.Some? {
          r := Some(Session(
            SessionArtifacts(binding.session, universe.id, frame.value.id, tick.value.id), tick.value));
        }
      }
    }

    /** Universe, frame and tick snapshot of one session. */
    method PublishSession(spec: Spec, binding: SessionBinding, adjudication: Artifact, calendar: Artifact)
      returns (r: Option<Session>)
      requires graph.Valid() && sources.services == graph.services
      modifies graph`files, graph`cache, graph`fetched
      ensures ScopeKept()
      ensures Made(graph.files, r) == SessionStored(sources, old(graph.files), spec, binding, adjudication, calendar)
    {
      r := None;
      var universe := MaterializeAndPut(
        Request(IdentitySessionUniverse, [adjudication, calendar], [], [], "", [binding.session], spec.cutoff));
      if universe.Some? {
        r := PublishOverUniverse(spec, binding, universe.value);
      }
    }

    method PublishNextSession(before: Sessions, spec: Spec, binding: SessionBinding, adjudication: Artifact,
                              calendar: Artifact) returns (r: Option<Sessions>)
      requires graph.Valid() && sources.services == graph.services
      modifies graph`files, graph`cache, graph`fetched
      ensures ScopeKept()
      ensures Made(graph.files, r)
           == NextSession(sources, Made(old(graph.files), Some(before)), spec, binding, adjudication, calendar)
    {
      var session := PublishSession(spec, binding, adjudication, calendar);
      r := if session.None? then None
           else Some(Sessions(before.listed + [session.value.listed], before.ticks + [session.value.tick]));
    }

    /** The session loop, growing both lists. */
    method PublishSessions(spec: Spec, adjudication: Artifact, calendar: Artifact) returns (r: Option<Sessions>)
      requires graph.Valid() && sources.services == graph.services
      modifies graph`files, graph`cache, graph`fetched
      ensures ScopeKept()
      ensures Made(graph.files, r) == SessionsStored(sources, old(graph.files), spec, adjudication, calendar)
    {
      r := Some(Sessions([], []));
      var left := spec.sessions;
      while left != [] && r.Some?
        invariant ScopeKept()
        invariant SessionsFrom(sources, Made(graph.files, r), spec, left, adjudication, calendar)
               == SessionsStored(sources, old(graph.files), spec, adjudication, calendar)
        decreases |left|
      {
        r := PublishNextSession(r.value, spec, left[0], adjudication, calendar);
        left := left[1..];
      }
    }

    method PublishTerminals(spec: Spec, identity: Identity, listed: seq<SessionArtifacts>, history: Artifact)
      returns (r: Option<Manifest>)
      requires graph.Valid() && sources.services == graph.services
      modifies graph`files, graph`cache, graph`fetched
      ensures ScopeKept()
      ensures Made(graph.files, r) == TerminalsStored(sources, old(graph.files), spec, identity, listed, history)
    {
      r := None;
      var actions := Leaves(CorporateActionSnapshot, [spec.actionsId]);
      if actions.Some? {
        var adjustment := MaterializeAndPut(
          Request(CorporateActionAdjustment, [history, actions.value[0]], [], [], "", [], spec.cutoff));
        if adjustment.Some? {
          var effective := MaterializeAndPut(Request(EffectiveSessionTick, [history], [], [], "", [], spec.cutoff));
          if effective.Some? {
            r := Some(ManifestOf(spec, identity, listed, history, adjustment.value, effective.value));
          }
        }
      }
    }

    method PublishHistory(spec: Spec, identity: Identity, calendars: seq<Artifact>, sessions: Sessions)
      returns (r: Option<Manifest>)
      requires graph.Valid() && sources.services == graph.services
      modifies graph`files, graph`cache, graph`fetched
      ensures ScopeKept()
      ensures Made(graph.files, r) == SessionsUsed(sources, old(graph.files), spec, identity, calendars, sessions)
    {
      r := None;
      var history := MaterializeAndPut(
        Request(StableListingHistory, sessions.ticks, calendars, [], "", [], spec.cutoff));
      if history.Some? {
        r := PublishTerminals(spec, identity, sessions.listed, history.value);
      }
    }

    /** `_publish` up to the manifest: the warm, memoised construction stores and returns
        exactly what the plain one does. */
    method Construct(spec: Spec) returns (r: Option<Manifest>)
      requires graph.Valid() && sources.services == graph.services
      modifies graph`files, graph`cache, graph`fetched
      ensures ScopeKept() && Made(graph.files, r) == Constructed(sources, old(graph.files), spec)
    {
      r := None;
      var identity := PublishIdentity(spec);
      var calendars := Leaves(CalendarMaterialization, [spec.calendarId]);
      if identity.Some? && calendars.Some? {
        var sessions := PublishSessions(spec, identity.value.adjudication, calendars.value[0]);
        if sessions.Some? {
          r := PublishHistory(spec, identity.value, calendars.value, sessions.value);
        }
      }
    }

    /** `publish`: build and store inside one scope, then one cold replay of the result.
        The outcome is the plain construction's, and the cold replay cannot disagree with
        what the warm scope accepted. */
    method Publish(spec: Spec) returns (r: Option<Manifest>)
      requires graph == store.graph && sources.services == graph.services && graph.Valid() && graph.cache.None?
      modifies store`publications, graph`files, graph`cache, graph`fetched
      ensures graph.Valid() && graph.cache.None?
      ensures graph.files == Constructed(sources, old(graph.files), spec).files
      ensures r == match Constructed(sources, old(graph.files), spec).value
                   case None => None
                   case Some(m) => if MayStore(graph.Stored(), store.codec, old(store.publications), m)
                                   then Some(m) else None
      ensures store.publications == if r.Some? then old(store.publications)[store.codec.manifestId(r.value) := r.value]
                                    else old(store.publications)
      ensures r.Some? ==> SpecOf(r.value) == spec && store.At(store.codec.manifestId(r.value)) == r
    {
      var outermost := graph.Open();
      var published := Construct(spec);
      ConstructedKeepsSpec(sources, old(graph.files), spec);
      if published.Some? {
        published := store.Put(published.value);
      }
      graph.Close(outermost);
      r := None;
      if published.Some? {
        r := store.Get(store.codec.manifestId(published.value));
      }
    }
  }
}
