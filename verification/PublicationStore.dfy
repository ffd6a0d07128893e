/** The create-once store of publication manifests: nothing it holds is trusted, so
    every read replays both terminal roots inside a replay scope. */
module PublicationStore {
  import opened Wrappers
  import opened ReplayGraph
  import opened GraphPublication
  import opened ReplayScope

  /** The walk over the two terminal objects. */
  method WalkObjects(m: Manifest, adjustment: Artifact, effective: Artifact) returns (accepted: bool)
    requires Valid(m)
    ensures accepted == WalkAcceptsObjects(m, adjustment, effective)
  {
    accepted := false;
    if TerminalsMatch(m, adjustment, effective) && HistoryMatches(m, adjustment.primary[0]) {
      var adjudication := WalkSessions(m, adjustment.primary[0].primary);
      accepted := adjudication.Some? && IdentityMatches(m, adjudication.value);
    }
  }

  /** One pass over the retained sessions, keeping the first adjudication met and
      comparing every later one with it. */
  method WalkSessions(m: Manifest, ticks: seq<Artifact>) returns (adjudication: Option<Artifact>)
    requires Valid(m) && |ticks| == |m.sessions|
    ensures adjudication.Some? <==> SessionsMatch(m, ticks)
    ensures adjudication.Some? ==> adjudication.value == AdjudicationOf(ticks[0])
  {
    adjudication := None;
    for i := 0 to |m.sessions|
      invariant adjudication.Some? <==> i > 0
      invariant forall j :: 0 <= j < i ==> SessionMatches(m, m.sessions[j], m.artifacts[j], ticks[j])
      invariant forall j :: 0 <= j < i ==> adjudication == Some(AdjudicationOf(ticks[j]))
    {
      if !SessionMatches(m, m.sessions[i], m.artifacts[i], ticks[i]) {
        return None;
      }
      if adjudication.None? {
        adjudication := Some(AdjudicationOf(ticks[i]));
      } else if AdjudicationOf(ticks[i]) != adjudication.value {
        assert AdjudicationOf(ticks[i]) != AdjudicationOf(ticks[0]);
        return None;
      }
    }
  }

  /** A manifest's identity, and whether its encoding keeps within the reader's limit. */
  datatype Codec = Codec(manifestId: Manifest -> Id, fits: Manifest -> bool)

  /** What the store returns for an ID, in terms of stored state only. */
  ghost function Accepted(w: World, codec: Codec, publications: map<Id, Manifest>, id: Id): Option<Manifest>
  {
    if id !in publications then None
    else
      var m := publications[id];
      if Valid(m) && codec.fits(m) && codec.manifestId(m) == id && WalkAccepts(ReaderOf(w), m) then Some(m) else None
  }

  /** Exactly when a manifest may become durable: nothing different is stored under its ID,
      and once stored it would be accepted; an oversized one is refused before anything is
      written. */
  ghost predicate MayStore(w: World, codec: Codec, publications: map<Id, Manifest>, m: Manifest) {
    var id := codec.manifestId(m);
    Unopposed(codec, publications, m) && Accepted(w, codec, publications[id := m], id) == Some(m)
  }

  /** Nothing different is stored under the manifest's ID. */
  predicate Unopposed(codec: Codec, publications: map<Id, Manifest>, m: Manifest) {
    codec.manifestId(m) !in publications || publications[codec.manifestId(m)] == m
  }

  lemma MayStoreIff(w: World, codec: Codec, publications: map<Id, Manifest>, m: Manifest)
    ensures MayStore(w, codec, publications, m)
         == (Valid(m) && WalkAccepts(ReaderOf(w), m) && codec.fits(m) && Unopposed(codec, publications, m))
  {
  }

  class LocalPublicationStore {
    const graph: GraphStores
    const codec: Codec
    var publications: map<Id, Manifest>

    constructor (graph: GraphStores, codec: Codec)
      ensures this.graph == graph && this.codec == codec && publications == map[]
    {
      this.graph, this.codec, this.publications := graph, codec, map[];
    }

    /** What `Get` returns, whatever the cache holds. */
    ghost function At(id: Id): Option<Manifest>
      reads `publications, graph
    {
      Accepted(graph.Stored(), codec, publications, id)
    }

    /** `_verify_downstream`: read both terminals, then walk what they retain. */
    method VerifyDownstream(m: Manifest) returns (accepted: bool)
      requires graph.Valid() && Valid(m)
      modifies graph`cache, graph`fetched
      ensures graph.Valid() && graph.cache.Some? == old(graph.cache.Some?)
      ensures accepted == WalkAccepts(ReaderOf(graph.Stored()), m)
    {
      var adjustment := graph.Fetch(Key(CorporateActionAdjustment, m.adjustmentId));
      accepted := false;
      if adjustment.Some? {
        var effective := graph.Fetch(Key(EffectiveSessionTick, m.effectiveId));
        if effective.Some? {
          accepted := WalkObjects(m, adjustment.value, effective.value);
        }
      }
    }

    /** `get`, inside its own (possibly nested) scope. */
    method Get(id: Id) returns (r: Option<Manifest>)
      requires graph.Valid()
      modifies graph`cache, graph`fetched
      ensures graph.Valid() && graph.cache.Some? == old(graph.cache.Some?)
      ensures r == At(id)
      ensures r.Some? <==>
        && id in publications && Valid(publications[id]) && codec.fits(publications[id])
        && codec.manifestId(publications[id]) == id && RereadAccepts(ReaderOf(graph.Stored()), publications[id])
    {
      if id in publications && Valid(publications[id]) {
        WalkAgreesWithReread(graph.Stored(), publications[id]);
      }
      var outermost := graph.Open();
      r := None;
      if id in publications && codec.fits(publications[id]) && Valid(publications[id])
         && codec.manifestId(publications[id]) == id {
        var accepted := VerifyDownstream(publications[id]);
        if accepted {
          r := Some(publications[id]);
        }
      }
      graph.Close(outermost);
    }

    /** `put`: verified before it becomes durable, and never over different content. */
    method Put(m: Manifest) returns (r: Option<Manifest>)
      requires graph.Valid()
      modifies `publications, graph`cache, graph`fetched
      ensures graph.Valid() && graph.cache.Some? == old(graph.cache.Some?)
      ensures publications == if r.Some? then old(publications)[codec.manifestId(m) := m] else old(publications)
      ensures r == if MayStore(graph.Stored(), codec, old(publications), m) then Some(m) else None
      ensures r.Some? ==> At(codec.manifestId(m)) == Some(m)
      ensures r.Some? <==>
        && Valid(m) && codec.fits(m) && RereadAccepts(ReaderOf(graph.Stored()), m)
        && (codec.manifestId(m) in old(publications) ==> old(publications)[codec.manifestId(m)] == m)
    {
      if Valid(m) {
        WalkAgreesWithReread(graph.Stored(), m);
      }
      MayStoreIff(graph.Stored(), codec, publications, m);
      r := None;
      var verified := Verify(m);
      if verified {
        r := Store(m);
      }
    }

    /** Making a verified manifest durable, and reading it back. */
    method Store(m: Manifest) returns (r: Option<Manifest>)
      requires graph.Valid() && MayStore(graph.Stored(), codec, publications, m)
      modifies `publications, graph`cache, graph`fetched
      ensures graph.Valid() && graph.cache.Some? == old(graph.cache.Some?)
      ensures publications == old(publications)[codec.manifestId(m) := m]
      ensures r == Some(m) == At(codec.manifestId(m))
    {
      publications := publications[codec.manifestId(m) := m];
      r := Get(codec.manifestId(m));
    }

    /** The checks `put` makes before anything becomes durable. */
    method Verify(m: Manifest) returns (verified: bool)
      requires graph.Valid()
      modifies graph`cache, graph`fetched
      ensures graph.Valid() && graph.cache.Some? == old(graph.cache.Some?)
      ensures verified == MayStore(graph.Stored(), codec, publications, m)
    {
      verified := false;
      if Valid(m) {
        var accepted := VerifyDownstream(m);
        verified := accepted && codec.fits(m) && Unopposed(codec, publications, m);
      }
      MayStoreIff(graph.Stored(), codec, publications, m);
    }
  }
}
