/** The exact-ID replay graph: create-once replay records, the eight stores that
    re-materialise an artifact from its pinned sources, and plain (unmemoised)
    recursive replay, which is the reference meaning of every read.

    The owning services and the six leaf resolvers are parameters: deterministic
    functions that may fail (`None`).  A successful materialisation retains the
    very source objects it was given. */
module ReplayGraph {
  import opened Wrappers

  type Id = string
  type Date = int
  type Instant = int

  /** One namespace per scoped resolver, plus the two terminal stores. */
  datatype Stage =
    | ReferencePromotion
    | IdentityEvidence
    | IdentityReview
    | CalendarMaterialization
    | HistoricalCorpus
    | CorporateActionSnapshot
    | IdentityIntake
    | IdentityAdjudication
    | IdentitySessionUniverse
    | SessionMarketDataFrame
    | SessionTickSnapshot
    | StableListingHistory
    | CorporateActionAdjustment
    | EffectiveSessionTick

  /** Stage order of the resolver wiring: a store resolves only lower stages. */
  function Rank(stage: Stage): nat {
    match stage
    case IdentityIntake => 1
    case IdentityAdjudication => 2
    case IdentitySessionUniverse => 3
    case SessionMarketDataFrame => 4
    case SessionTickSnapshot => 5
    case StableListingHistory => 6
    case CorporateActionAdjustment => 7
    case EffectiveSessionTick => 7
    case _ => 0
  }

  predicate IsLeaf(stage: Stage) {
    Rank(stage) == 0
  }

  datatype Key = Key(stage: Stage, id: Id)

  datatype Record = Record(
    kind: Stage,
    artifactId: Id,
    primary: seq<Id>,
    secondary: seq<Id>,
    tertiary: seq<Id>,
    dates: seq<Date>,
    cutoff: Instant)

  datatype Facts = Facts(readiness: string, actionable: bool, body: string)

  /** A verified artifact together with the source objects it retains.
      `partition` is used by session frames only; `partitions` and `indexed`
      by historical corpora only (the partition tuple and the index's IDs). */
  datatype Artifact = Artifact(
    stage: Stage,
    id: Id,
    primary: seq<Artifact>,
    secondary: seq<Artifact>,
    tertiary: seq<Artifact>,
    partition: Id,
    partitions: seq<Id>,
    indexed: seq<Id>,
    dates: seq<Date>,
    cutoff: Instant,
    facts: Facts)

  datatype Request = Request(
    stage: Stage,
    primary: seq<Artifact>,
    secondary: seq<Artifact>,
    tertiary: seq<Artifact>,
    partition: Id,
    dates: seq<Date>,
    cutoff: Instant)

  /** What a service computes beyond the sources it retains. */
  datatype Derivation = Derivation(id: Id, dates: seq<Date>, cutoff: Instant, facts: Facts)

  /** The leaf resolvers and the owning services; which records the codec encodes, and
      which encodings keep within what a reader takes. */
  datatype Services = Services(
    leaf: Key -> Option<Artifact>,
    derive: Request -> Option<Derivation>,
    encodes: Record -> bool,
    fits: Record -> bool)

  /** A stored record that `get` can read and decode. */
  predicate Readable(services: Services, rec: Record) {
    services.encodes(rec) && services.fits(rec)
  }

  type Files = map<Key, Record>

  datatype World = World(services: Services, files: Files)

  function Ids(artifacts: seq<Artifact>): (ids: seq<Id>)
    ensures |ids| == |artifacts|
    ensures forall i :: 0 <= i < |ids| ==> ids[i] == artifacts[i].id
  {
    seq(|artifacts|, i requires 0 <= i < |artifacts| => artifacts[i].id)
  }

  function KeyOf(a: Artifact): Key {
    Key(a.stage, a.id)
  }

  /** The replay record a store derives from an artifact. */
  function RecordOf(a: Artifact): Record {
    Record(
      a.stage,
      a.id,
      Ids(a.primary) + (if a.stage.SessionMarketDataFrame? then [a.partition] else []),
      Ids(a.secondary),
      Ids(a.tertiary),
      if a.stage.IdentityIntake? || a.stage.IdentitySessionUniverse? then a.dates else [],
      a.cutoff)
  }

  /** The record shape each store demands before it resolves anything. */
  predicate ShapeOk(rec: Record) {
    match rec.kind
    case IdentityIntake =>
      rec.primary != [] && rec.secondary == [] && rec.tertiary == [] && rec.dates != []
    case IdentityAdjudication =>
      |rec.primary| == 1 && rec.dates == []
    case IdentitySessionUniverse =>
      |rec.primary| == 2 && rec.secondary == [] && rec.tertiary == [] && |rec.dates| == 1
    case SessionMarketDataFrame =>
      |rec.primary| == 3 && rec.secondary == [] && rec.tertiary == [] && rec.dates == []
    case SessionTickSnapshot =>
      |rec.primary| == 1 && rec.secondary == [] && rec.tertiary == [] && rec.dates == []
    case StableListingHistory =>
      rec.primary != [] && |rec.secondary| == 1 && rec.tertiary == [] && rec.dates == []
    case CorporateActionAdjustment =>
      |rec.primary| == 2 && rec.secondary == [] && rec.tertiary == [] && rec.dates == []
    case EffectiveSessionTick =>
      |rec.primary| == 1 && rec.secondary == [] && rec.tertiary == [] && rec.dates == []
    case _ => false
  }

  function KeysAt(stage: Stage, ids: seq<Id>): (keys: seq<Key>)
    ensures |keys| == |ids|
    ensures forall i :: 0 <= i < |keys| ==> keys[i] == Key(stage, ids[i])
  {
    seq(|ids|, i requires 0 <= i < |ids| => Key(stage, ids[i]))
  }

  /** The keys a store resolves for the primary group, in order.  A frame's third
      primary ID names a partition inside the resolved corpus, not a stored key. */
  function PrimaryKeys(rec: Record): (keys: seq<Key>)
    requires ShapeOk(rec)
    ensures forall k :: k in keys ==> Rank(k.stage) < Rank(rec.kind)
  {
    match rec.kind
    case IdentityIntake => KeysAt(ReferencePromotion, rec.primary)
    case IdentityAdjudication => [Key(IdentityIntake, rec.primary[0])]
    case IdentitySessionUniverse =>
      [Key(IdentityAdjudication, rec.primary[0]), Key(CalendarMaterialization, rec.primary[1])]
    case SessionMarketDataFrame =>
      [Key(IdentitySessionUniverse, rec.primary[0]), Key(HistoricalCorpus, rec.primary[1])]
    case SessionTickSnapshot => [Key(SessionMarketDataFrame, rec.primary[0])]
    case StableListingHistory => KeysAt(SessionTickSnapshot, rec.primary)
    case CorporateActionAdjustment =>
      [Key(StableListingHistory, rec.primary[0]), Key(CorporateActionSnapshot, rec.primary[1])]
    case EffectiveSessionTick => [Key(StableListingHistory, rec.primary[0])]
  }

  function SecondaryKeys(rec: Record): (keys: seq<Key>)
    requires ShapeOk(rec)
    ensures forall k :: k in keys ==> Rank(k.stage) < Rank(rec.kind)
  {
    match rec.kind
    case IdentityAdjudication => KeysAt(IdentityEvidence, rec.secondary)
    case StableListingHistory => KeysAt(CalendarMaterialization, rec.secondary)
    case _ => []
  }

  function TertiaryKeys(rec: Record): (keys: seq<Key>)
    requires ShapeOk(rec)
    ensures forall k :: k in keys ==> Rank(k.stage) < Rank(rec.kind)
  {
    match rec.kind
    case IdentityAdjudication => KeysAt(IdentityReview, rec.tertiary)
    case _ => []
  }

  function Occurrences(id: Id, ids: seq<Id>): nat {
    if ids == [] then 0 else (if ids[0] == id then 1 else 0) + Occurrences(id, ids[1..])
  }

  /** The source objects a replay resolved, group by group. */
  datatype Resolved = Resolved(primary: seq<Artifact>, secondary: seq<Artifact>, tertiary: seq<Artifact>)

  /** Every resolved object has the type and ID that were pinned. */
  predicate SourcesMatch(keys: seq<Key>, sources: seq<Artifact>) {
    |keys| == |sources| && forall i :: 0 <= i < |keys| ==> KeyOf(sources[i]) == keys[i]
  }

  /** Exactly one partition of the corpus has the pinned ID and its index lists it. */
  predicate PartitionOk(rec: Record, primary: seq<Artifact>) {
    rec.kind.SessionMarketDataFrame? && |rec.primary| == 3 && |primary| == 2 ==>
      && Occurrences(rec.primary[2], primary[1].partitions) == 1
      && rec.primary[2] in primary[1].indexed
  }

  /** The checks a store makes on resolved sources, then the owning service. */
  function Materialize(services: Services, rec: Record, r: Resolved): Option<Artifact>
    requires ShapeOk(rec)
  {
    if !SourcesMatch(PrimaryKeys(rec), r.primary)
       || !SourcesMatch(SecondaryKeys(rec), r.secondary)
       || !SourcesMatch(TertiaryKeys(rec), r.tertiary)
       || !PartitionOk(rec, r.primary)
    then None
    else
      var partition := if rec.kind.SessionMarketDataFrame? then rec.primary[2] else "";
      Build(services, Request(rec.kind, r.primary, r.secondary, r.tertiary, partition, rec.dates, rec.cutoff))
  }

  /** A service either fails or returns an artifact retaining its own inputs. */
  function Build(services: Services, q: Request): Option<Artifact> {
    match services.derive(q)
    case None => None
    case Some(d) =>
      Some(Artifact(
        q.stage, d.id, q.primary, q.secondary, q.tertiary, q.partition, [], [], d.dates, d.cutoff, d.facts))
  }

  /** What a store checks after the replay of the record found at `key`. */
  predicate ReplayMatches(key: Key, rec: Record, replayed: Artifact) {
    replayed.id == key.id && RecordOf(replayed) == rec
  }

  /** Plain recursive replay: what `get` means without any cache. */
  function Get(w: World, key: Key): Option<Artifact>
    decreases Rank(key.stage), 2, 0
  {
    if IsLeaf(key.stage) then w.services.leaf(key)
    else if key !in w.files then None
    else
      var rec := w.files[key];
      if !Readable(w.services, rec) || rec.kind != key.stage || rec.artifactId != key.id then None
      else
        match Replay(w, rec)
        case None => None
        case Some(a) => if ReplayMatches(key, rec, a) then Some(a) else None
  }

  function Replay(w: World, rec: Record): Option<Artifact>
    decreases Rank(rec.kind), 1, 0
  {
    if !ShapeOk(rec) then None
    else
      match GetAll(w, PrimaryKeys(rec), Rank(rec.kind))
      case None => None
      case Some(primary) =>
        match GetAll(w, SecondaryKeys(rec), Rank(rec.kind))
        case None => None
        case Some(secondary) =>
          match GetAll(w, TertiaryKeys(rec), Rank(rec.kind))
          case None => None
          case Some(tertiary) => Materialize(w.services, rec, Resolved(primary, secondary, tertiary))
  }

  function GetAll(w: World, keys: seq<Key>, bound: nat): (r: Option<seq<Artifact>>)
    requires forall k :: k in keys ==> Rank(k.stage) < bound
    ensures r.Some? ==> |r.value| == |keys|
    decreases bound, 0, |keys|
  {
    if keys == [] then Some([])
    else
      match Get(w, keys[0])
      case None => None
      case Some(a) =>
        match GetAll(w, keys[1..], bound)
        case None => None
        case Some(rest) => Some([a] + rest)
  }

  /** Every element of a successful batch is what plain replay gives for its key. */
  lemma {:induction false} GetAllPointwise(w: World, keys: seq<Key>, bound: nat)
    requires forall k :: k in keys ==> Rank(k.stage) < bound
    ensures GetAll(w, keys, bound).Some? <==> forall i :: 0 <= i < |keys| ==> Get(w, keys[i]).Some?
    ensures GetAll(w, keys, bound).Some? ==>
              forall i :: 0 <= i < |keys| ==> Get(w, keys[i]) == Some(GetAll(w, keys, bound).value[i])
    decreases |keys|
  {
    if keys != [] {
      GetAllPointwise(w, keys[1..], bound);
      assert forall i :: 0 <= i < |keys[1..]| ==> keys[1..][i] == keys[i + 1];
      if forall i :: 0 <= i < |keys| ==> Get(w, keys[i]).Some? {
        assert forall i :: 0 <= i < |keys[1..]| ==> Get(w, keys[1..][i]).Some?;
        assert Get(w, keys[0]).Some?;
      }
      if GetAll(w, keys, bound).Some? {
        forall i | 0 <= i < |keys|
          ensures Get(w, keys[i]) == Some(GetAll(w, keys, bound).value[i])
        {
          if i > 0 { assert keys[i] == keys[1..][i - 1]; }
        }
      }
    }
  }

  /** A stored artifact is returned only under its own stage and ID. */
  lemma GetReturnsKey(w: World, key: Key)
    requires !IsLeaf(key.stage) && Get(w, key).Some?
    ensures KeyOf(Get(w, key).value) == key
    ensures RecordOf(Get(w, key).value) == w.files[key]
  {
  }

  function Sources(a: Artifact): seq<Artifact> {
    if IsLeaf(a.stage) then [] else a.primary + a.secondary + a.tertiary
  }

  /** Each object of one resolved group is what plain replay returns for its own key. */
  lemma GroupResolves(w: World, keys: seq<Key>, bound: nat, group: seq<Artifact>)
    requires forall k :: k in keys ==> Rank(k.stage) < bound
    requires GetAll(w, keys, bound) == Some(group)
    requires SourcesMatch(keys, group)
    ensures forall s :: s in group ==> Get(w, KeyOf(s)) == Some(s) && Rank(s.stage) < bound
  {
    GetAllPointwise(w, keys, bound);
    forall s | s in group
      ensures Get(w, KeyOf(s)) == Some(s) && Rank(s.stage) < bound
    {
      var i :| 0 <= i < |group| && group[i] == s;
      assert keys[i] in keys;
    }
  }

  /** A replayed artifact retains exactly the objects its record pins: group by group
      the right keys, each resolving through its own store to the retained object. */
  lemma RetainedSourcesResolve(w: World, key: Key)
    requires !IsLeaf(key.stage) && Get(w, key).Some?
    ensures var a, rec := Get(w, key).value, w.files[key];
            && ShapeOk(rec)
            && SourcesMatch(PrimaryKeys(rec), a.primary)
            && SourcesMatch(SecondaryKeys(rec), a.secondary)
            && SourcesMatch(TertiaryKeys(rec), a.tertiary)
            && forall s :: s in Sources(a) ==> Get(w, KeyOf(s)) == Some(s) && Rank(s.stage) < Rank(key.stage)
  {
    var rec := w.files[key];
    var a := Get(w, key).value;
    var bound := Rank(rec.kind);
    GroupResolves(w, PrimaryKeys(rec), bound, a.primary);
    GroupResolves(w, SecondaryKeys(rec), bound, a.secondary);
    GroupResolves(w, TertiaryKeys(rec), bound, a.tertiary);
  }

  /** `b` is `a` or an ancestor object retained somewhere inside `a`. */
  ghost predicate Within(a: Artifact, b: Artifact)
    decreases Rank(a.stage)
  {
    a == b || exists s :: s in Sources(a) && Rank(s.stage) < Rank(a.stage) && Within(s, b)
  }

  /** Every object met anywhere inside a replayed artifact is exactly what its own
      store returns for its ID. */
  lemma {:induction false} AncestorsResolve(w: World, a: Artifact, b: Artifact)
    requires Get(w, KeyOf(a)) == Some(a)
    requires Within(a, b)
    ensures Get(w, KeyOf(b)) == Some(b)
    decreases Rank(a.stage)
  {
    if a != b {
      var s :| s in Sources(a) && Rank(s.stage) < Rank(a.stage) && Within(s, b);
      RetainedSourcesResolve(w, KeyOf(a));
      AncestorsResolve(w, s, b);
    }
  }

  /** Create-once stores only grow: no key is dropped and no record replaced. */
  ghost predicate Grows(before: Files, after: Files) {
    forall k :: k in before ==> k in after && after[k] == before[k]
  }

  /** Adding records never changes a read that already succeeds. */
  lemma {:induction false} GetMonotone(services: Services, before: Files, after: Files, key: Key)
    requires Grows(before, after)
    requires Get(World(services, before), key).Some?
    ensures Get(World(services, after), key) == Get(World(services, before), key)
    decreases Rank(key.stage), 1, 0
  {
    if !IsLeaf(key.stage) {
      var rec := before[key];
      GetAllMonotone(services, before, after, PrimaryKeys(rec), Rank(rec.kind));
      GetAllMonotone(services, before, after, SecondaryKeys(rec), Rank(rec.kind));
      GetAllMonotone(services, before, after, TertiaryKeys(rec), Rank(rec.kind));
    }
  }

  lemma {:induction false} GetAllMonotone(
    services: Services, before: Files, after: Files, keys: seq<Key>, bound: nat)
    requires Grows(before, after)
    requires forall k :: k in keys ==> Rank(k.stage) < bound
    requires GetAll(World(services, before), keys, bound).Some?
    ensures GetAll(World(services, after), keys, bound) == GetAll(World(services, before), keys, bound)
    decreases bound, 0, |keys|
  {
    if keys != [] {
      GetMonotone(services, before, after, keys[0]);
      GetAllMonotone(services, before, after, keys[1..], bound);
    }
  }
}
