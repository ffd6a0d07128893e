/** The two ordered procedures around the bucket: publishing one bundle, which refines the
    publication protocol, and restoring one into three local stores, terminal last. */
module StateRestore {
  import opened Wrappers
  import opened Paths
  import opened StateManifest
  import opened StatePublication
  import B = ObjectBucket

  // ---------------------------------------------------------------- publishing

  lemma {:induction false} RunOneMore(f: Format, bucket: string, w: World, actions: seq<Action>, a: Action)
    ensures Run(f, bucket, w, actions + [a]) == Apply(f, bucket, Run(f, bucket, w, actions), a)
    decreases |actions|
  {
    if actions == [] {
      assert [a][1..] == [];
      assert actions + [a] == [a];
    } else {
      assert (actions + [a])[1..] == actions[1..] + [a];
      RunOneMore(f, bucket, Apply(f, bucket, w, actions[0]), actions[1..], a);
    }
  }

  /** The bucket and this publisher, as a world of the protocol. */
  ghost function Alone(objects: B.Objects, p: Publisher): World {
    World(objects, map[0 := p])
  }

  lemma OnlyPublisher(w: World, p: Publisher, q: Publisher)
    requires w.publishers == map[0 := p]
    ensures w.publishers[0 := q] == map[0 := q]
  {
  }

  /** One artifact write, as the protocol has it. */
  method PublishArtifact(bucket: B.Bucket, name: string, f: Format, b: Bundle, done: seq<Artifact>,
                         fate: B.Fate, generation: B.Generation)
    returns (p: Publisher)
    requires b.terminal.TerminalRecord? && |done| < |Payloads(b)|
    modifies bucket
    ensures Alone(bucket.objects, p)
         == Apply(f, name, Alone(old(bucket.objects), Writing(b, done)), Write(0, fate, generation))
    ensures p.Idle? || (p.Writing? && p.bundle == b && |p.done| == |done| + 1)
  {
    ghost var w := Alone(bucket.objects, Writing(b, done));
    var record := Payloads(b)[|done|];
    p := Idle;
    if |f.encode(record)| <= MaximumBytes(KindOf(record)) {
      var answer := bucket.CreateOrVerify(f.digest, NameOf(f, b, record), f.encode(record), generation, fate);
      if answer.Some? {
        p := Writing(b, done + [Artifact(KindOf(record), answer.value)]);
      }
    }
    OnlyPublisher(w, Writing(b, done), p);
  }

  /** The manifest write, as the protocol has it. */
  method SealManifest(bucket: B.Bucket, name: string, f: Format, b: Bundle, done: seq<Artifact>,
                         fate: B.Fate, generation: B.Generation)
    returns (p: Publisher)
    requires b.terminal.TerminalRecord? && |done| == |Payloads(b)|
    modifies bucket
    ensures Alone(bucket.objects, p)
         == Apply(f, name, Alone(old(bucket.objects), Writing(b, done)), Write(0, fate, generation))
    ensures p.Idle? || (p.Published? && p.bundle == b)
  {
    ghost var w := Alone(bucket.objects, Writing(b, done));
    var m := ManifestFor(f, name, b, done);
    p := Idle;
    if Accepted(m) && EncodableManifest(f, m) {
      var sealed := bucket.CreateOrVerify(f.digest, ManifestName(f, m), f.encodeManifest(m), generation, fate);
      if sealed.Some? {
        p := Published(b, m, sealed.value);
      }
    }
    OnlyPublisher(w, Writing(b, done), p);
  }

  /** The publication procedure: verify the bundle, write its artifacts in order, seal the
      manifest last.  Whatever it does is a run of the protocol, ending idle on an error. */
  method PublishState(bucket: B.Bucket, name: string, f: Format, b: Bundle, fate: nat -> B.Fate,
                      generation: nat -> B.Generation)
    returns (p: Publisher, ghost actions: seq<Action>)
    requires PlainTerminal(b)
    modifies bucket
    ensures Alone(bucket.objects, p)
         == Run(f, name, Alone(old(bucket.objects), Idle), actions)
    ensures p.Idle? || (p.Published? && p.bundle == b)
    ensures actions != [] && actions[0] == Begin(0, b)
    ensures forall j :: 1 <= j < |actions| ==> actions[j] == Write(0, fate(j - 1), generation(j - 1))
  {
    ghost var start := Alone(bucket.objects, Idle);
    actions := [Begin(0, b)];
    p := if BundleOk(f, b) then Writing(b, []) else Idle;
    OnlyPublisher(start, Idle, p);
    RunOneMore(f, name, start, [], Begin(0, b));
    assert [] + [Begin(0, b)] == actions;
    var k := 0;
    while p.Writing? && k < |Payloads(b)|
      invariant k <= |Payloads(b)|
      invariant p.Idle? || (p.Writing? && p.bundle == b && |p.done| == k)
      invariant Alone(bucket.objects, p) == Run(f, name, start, actions)
      invariant |actions| == k + 1 && actions[0] == Begin(0, b)
      invariant forall j :: 1 <= j < |actions| ==> actions[j] == Write(0, fate(j - 1), generation(j - 1))
    {
      RunOneMore(f, name, start, actions, Write(0, fate(k), generation(k)));
      p := PublishArtifact(bucket, name, f, b, p.done, fate(k), generation(k));
      actions := actions + [Write(0, fate(k), generation(k))];
      k := k + 1;
    }
    if p.Writing? {
      RunOneMore(f, name, start, actions, Write(0, fate(k), generation(k)));
      p := SealManifest(bucket, name, f, b, p.done, fate(k), generation(k));
      actions := actions + [Write(0, fate(k), generation(k))];
    }
  }

  // ---------------------------------------------------------------- restoring

  datatype Request = Request(bucket: string, name: string, generation: B.Generation, hash: string, specId: string)

  /** The pinned bytes of one artifact, decoded. */
  function ReadArtifact(objects: B.Objects, f: Format, a: Artifact, answers: string -> bool): Option<Record> {
    var payload := B.ReadGeneration(objects, a.published.name, a.published.generation);
    if answers(a.published.name) && payload.Some? && 0 < |payload.value| <= MaximumBytes(a.kind)
       && |payload.value| == a.published.size && f.digest(payload.value) == a.published.hash
    then f.decode(a.kind, payload.value) else None
  }

  /** The pinned manifest, decoded, when it is the requested one. */
  function ReadManifest(objects: B.Objects, f: Format, request: Request, answers: string -> bool): Option<Manifest> {
    var payload := B.ReadGeneration(objects, request.name, request.generation);
    if answers(request.name) && payload.Some? && 0 < |payload.value| <= MAXIMUM_MANIFEST_BYTES
       && f.digest(payload.value) == request.hash && f.decodeManifest(payload.value).Some?
    then
      var m := f.decodeManifest(payload.value).value;
      if Accepted(m) && m.bucket == request.bucket && m.specId == request.specId && ManifestName(f, m) == request.name
      then Some(m) else None
    else None
  }

  /** `_verify_restored_values`: the records are the ones the manifest names. */
  predicate RestoresManifest(f: Format, m: Manifest, b: Bundle) {
    && b.terminal.TerminalRecord? && b.terminal.common.specId == m.specId
    && b.terminal.preparationId == m.preparationId && b.terminal.common.session == m.session
    && f.id(b.terminal) == m.terminalId && b.terminal.common.status == m.status
    && b.terminal.common.action == m.action && b.terminal.advisoryId == m.advisoryId
    && b.terminal.registrationId == m.registrationId
    && f.id(b.advisory) == m.advisoryId
    && match b.registration
       case None => m.registrationId.None?
       case Some(r) => m.registrationId == Some(f.id(r))
  }

  /** What reading the whole publication gives. */
  function ReadBundle(objects: B.Objects, f: Format, request: Request, answers: string -> bool): Option<Bundle> {
    match ReadManifest(objects, f, request, answers)
    case None => None
    case Some(m) =>
      var first := ReadArtifact(objects, f, m.artifacts[0], answers);
      var last := ReadArtifact(objects, f, m.artifacts[|m.artifacts| - 1], answers);
      var middle := if |m.artifacts| == 3 then ReadArtifact(objects, f, m.artifacts[1], answers) else None;
      if first.None? || last.None? || (|m.artifacts| == 3 && middle.None?) then None
      else
        var b := Bundle(last.value, first.value, middle);
        if BundleOk(f, b) && RestoresManifest(f, m, b) then Some(b) else None
  }

  function RequestFor(f: Format, p: Publisher): Request
    requires p.Published?
  {
    Request(p.manifest.bucket, p.sealed.name, p.sealed.generation, p.sealed.hash, p.manifest.specId)
  }

  lemma StoredIsRead(objects: B.Objects, f: Format, b: Bundle, r: Record, a: Artifact, answers: string -> bool)
    requires Sound(f) && ArtifactStored(objects, f, b, r, a) && answers(a.published.name)
    ensures ReadArtifact(objects, f, a, answers) == Some(r)
  {
  }

  lemma AllStoredAreRead(objects: B.Objects, f: Format, b: Bundle, done: seq<Artifact>, answers: string -> bool)
    requires Sound(f) && AllStored(objects, f, b, done) && forall name :: answers(name)
    ensures forall k :: 0 <= k < |done| ==> ReadArtifact(objects, f, done[k], answers) == Some(Payloads(b)[k])
  {
    forall k | 0 <= k < |done|
      ensures ReadArtifact(objects, f, done[k], answers) == Some(Payloads(b)[k])
    {
      assert ArtifactStored(objects, f, b, Payloads(b)[k], done[k]);
      StoredIsRead(objects, f, b, Payloads(b)[k], done[k], answers);
    }
  }

  lemma SealedIsRead(objects: B.Objects, f: Format, bucket: string, p: Publisher, answers: string -> bool)
    requires Sound(f) && p.Published? && PublisherInv(objects, f, bucket, p) && forall name :: answers(name)
    ensures ReadManifest(objects, f, RequestFor(f, p), answers) == Some(p.manifest)
  {
  }

  /** The artifacts of an accepted manifest over a bundle are as many as its payloads. */
  lemma AsManyArtifacts(f: Format, bucket: string, b: Bundle, m: Manifest)
    requires BundleOk(f, b) && m == ManifestFor(f, bucket, b, m.artifacts) && Accepted(m)
    ensures |m.artifacts| == |Payloads(b)|
    ensures RestoresManifest(f, m, b)
  {
    assert KindsOf(m.artifacts) == RequiredKinds(m);
  }

  /** Restoring a completed publication, at any later time, reads exactly its bundle. */
  lemma PublishedIsRead(f: Format, bucket: string, w: World, actions: seq<Action>, who: nat, answers: string -> bool)
    requires Sound(f) && Inv(f, bucket, w) && who in w.publishers && w.publishers[who].Published?
    requires forall name :: answers(name)
    ensures ReadBundle(Run(f, bucket, w, actions).objects, f, RequestFor(f, w.publishers[who]), answers)
         == Some(w.publishers[who].bundle)
  {
    var p := w.publishers[who];
    var objects := Run(f, bucket, w, actions).objects;
    RunKeepsInv(f, bucket, w, actions);
    PublisherInvGrows(w.objects, objects, f, bucket, p);
    SealedIsRead(objects, f, bucket, p, answers);
    AsManyArtifacts(f, bucket, p.bundle, p.manifest);
    AllStoredAreRead(objects, f, p.bundle, p.manifest.artifacts, answers);
    assert Bundle(p.bundle.terminal, p.bundle.advisory, p.bundle.registration) == p.bundle;
  }

  // ---------------------------------------------------------------- the local stores

  /** How one store call fares: it stores the record and returns some value, or it raises
      without or after storing. */
  datatype StoreFate = Returns(value: Record) | RaisesBefore | RaisesAfter

  /** The contents of the three local stores. */
  type Stores = map<string, Record>

  function Put(f: Format, stores: Stores, r: Record, fate: StoreFate): Stores {
    if fate.RaisesBefore? || f.id(r) in stores then stores else stores[f.id(r) := r]
  }

  /** Records are stored under their identities, and whoever finds a terminal finds its
      advisory and its registration. */
  ghost predicate LocalInv(f: Format, stores: Stores) {
    && (forall id :: id in stores ==> f.id(stores[id]) == id)
    && (forall id :: id in stores && stores[id].TerminalRecord? ==>
          && stores[id].advisoryId in stores && stores[stores[id].advisoryId].AdvisoryRecord?
          && (stores[id].registrationId.Some? ==>
                && stores[id].registrationId.value in stores
                && stores[stores[id].registrationId.value].RegistrationRecord?))
  }

  /** Storing an advisory or a registration cannot break the invariant. */
  lemma ParentPutKeepsInv(f: Format, stores: Stores, r: Record, fate: StoreFate)
    requires Sound(f) && LocalInv(f, stores) && !r.TerminalRecord?
    ensures LocalInv(f, Put(f, stores, r, fate))
  {
  }

  /** Nor can storing a terminal whose parents are stored. */
  lemma TerminalPutKeepsInv(f: Format, stores: Stores, b: Bundle, fate: StoreFate)
    requires Sound(f) && LocalInv(f, stores) && BundleOk(f, b)
    requires f.id(b.advisory) in stores && (b.registration.Some? ==> f.id(b.registration.value) in stores)
    ensures LocalInv(f, Put(f, stores, b.terminal, fate))
  {
    assert stores[f.id(b.advisory)] == b.advisory;
    assert b.registration.Some? ==> stores[f.id(b.registration.value)] == b.registration.value;
  }

  /** Every state recorded since kept the invariant. */
  ghost predicate StepsOk(f: Format, before: seq<Stores>, after: seq<Stores>) {
    |before| <= |after| && forall k :: |before| <= k < |after| ==> LocalInv(f, after[k])
  }

  lemma StepsOkOneMore(f: Format, before: seq<Stores>, after: seq<Stores>, stores: Stores)
    requires StepsOk(f, before, after) && LocalInv(f, stores)
    ensures StepsOk(f, before, after + [stores])
  {
  }

  class LocalState {
    var stores: Stores
    ghost var history: seq<Stores>

    /** One store call, and whether it returned the very record it was given. */
    method PutVerified(f: Format, r: Record, fate: StoreFate) returns (ok: bool)
      requires Sound(f)
      modifies this
      ensures stores == Put(f, old(stores), r, fate) && history == old(history) + [stores]
      ensures ok <==> fate == Returns(r)
      ensures ok ==> f.id(r) in stores
    {
      var baseline := f.encode(r);
      stores := Put(f, stores, r, fate);
      history := history + [stores];
      assert fate.Returns? && f.encode(fate.value) == baseline && KindOf(fate.value) == KindOf(r) ==>
        f.decode(KindOf(r), f.encode(r)) == Some(r) && f.decode(KindOf(r), f.encode(fate.value)) == Some(fate.value);
      ok := fate.Returns? && KindOf(fate.value) == KindOf(r) && f.encode(fate.value) == baseline;
    }

    /** The parents of a terminal: its advisory, then its registration if it has one. */
    method StoreParents(f: Format, b: Bundle, fate: Record -> StoreFate) returns (ok: bool)
      requires Sound(f) && LocalInv(f, stores) && BundleOk(f, b)
      modifies this
      ensures LocalInv(f, stores) && StepsOk(f, old(history), history)
      ensures ok == ParentsReturned(b, fate)
      ensures ok ==> f.id(b.advisory) in stores
      ensures ok && b.registration.Some? ==> f.id(b.registration.value) in stores
    {
      ParentPutKeepsInv(f, stores, b.advisory, fate(b.advisory));
      ok := PutVerified(f, b.advisory, fate(b.advisory));
      StepsOkOneMore(f, old(history), old(history), stores);
      if ok && b.registration.Some? {
        ghost var before := history;
        ParentPutKeepsInv(f, stores, b.registration.value, fate(b.registration.value));
        ok := PutVerified(f, b.registration.value, fate(b.registration.value));
        StepsOkOneMore(f, old(history), before, stores);
      }
    }

    /** Advisory, then registration, then terminal: at every step on the way a stored
        terminal has its parents. */
    method StoreBundle(f: Format, b: Bundle, fate: Record -> StoreFate) returns (ok: bool)
      requires Sound(f) && LocalInv(f, stores) && BundleOk(f, b)
      modifies this
      ensures LocalInv(f, stores) && StepsOk(f, old(history), history)
      ensures ok == AllReturned(b, fate)
      ensures ok ==> HoldsBundle(f, stores, b)
    {
      ok := StoreParents(f, b, fate);
      if ok {
        ghost var before := history;
        TerminalPutKeepsInv(f, stores, b, fate(b.terminal));
        ok := PutVerified(f, b.terminal, fate(b.terminal));
        StepsOkOneMore(f, old(history), before, stores);
        if ok {
          BundleHeld(f, stores, b);
        }
      }
    }

    /** The restore: nothing is stored before everything was read and verified; it
        completes exactly when the publication reads back and every store returns the
        very record it was given. */
    method Restore(objects: B.Objects, f: Format, request: Request, answers: string -> bool, fate: Record -> StoreFate)
      returns (r: Option<Bundle>)
      requires Sound(f) && LocalInv(f, stores)
      modifies this
      ensures LocalInv(f, stores)
      ensures StepsOk(f, old(history), history)
      ensures r == Restored(objects, f, request, answers, fate)
      ensures r.Some? ==> HoldsBundle(f, stores, r.value)
      ensures ReadBundle(objects, f, request, answers).None? ==> stores == old(stores)
    {
      r := None;
      var bundle := ReadBundle(objects, f, request, answers);
      if bundle.Some? {
        BundleIsOk(objects, f, request, answers);
        var ok := StoreBundle(f, bundle.value, fate);
        r := if ok then bundle else None;
      }
    }
  }

  ghost predicate ParentsReturned(b: Bundle, fate: Record -> StoreFate) {
    && fate(b.advisory) == Returns(b.advisory)
    && (b.registration.Some? ==> fate(b.registration.value) == Returns(b.registration.value))
  }

  /** Every store call returns the very record it was given. */
  ghost predicate AllReturned(b: Bundle, fate: Record -> StoreFate) {
    ParentsReturned(b, fate) && fate(b.terminal) == Returns(b.terminal)
  }

  /** Under a sound identity a stored name holds its own record. */
  lemma BundleHeld(f: Format, stores: Stores, b: Bundle)
    requires Sound(f) && LocalInv(f, stores)
    requires f.id(b.advisory) in stores && f.id(b.terminal) in stores
    requires b.registration.Some? ==> f.id(b.registration.value) in stores
    ensures HoldsBundle(f, stores, b)
  {
    forall x | x in Payloads(b)
      ensures f.id(x) in stores && stores[f.id(x)] == x
    {
      assert f.id(stores[f.id(x)]) == f.id(x);
    }
  }

  /** Exactly when a restore completes, and with what. */
  ghost function Restored(objects: B.Objects, f: Format, request: Request, answers: string -> bool,
                          fate: Record -> StoreFate): Option<Bundle>
  {
    match ReadBundle(objects, f, request, answers)
    case None => None
    case Some(b) => if AllReturned(b, fate) then Some(b) else None
  }

  /** The whole bundle is in the local stores. */
  ghost predicate HoldsBundle(f: Format, stores: Stores, b: Bundle) {
    forall x :: x in Payloads(b) ==> f.id(x) in stores && stores[f.id(x)] == x
  }

  lemma BundleIsOk(objects: B.Objects, f: Format, request: Request, answers: string -> bool)
    requires ReadBundle(objects, f, request, answers).Some?
    ensures BundleOk(f, ReadBundle(objects, f, request, answers).value)
  {
  }

  // ---------------------------------------------------------------- what a restore reads

  /** The object is stored as it was published: its own generation, size and digest. */
  predicate StoredAs(objects: B.Objects, f: Format, p: B.Published) {
    && p.name in objects && objects[p.name].generation == p.generation
    && |objects[p.name].content| == p.size && f.digest(objects[p.name].content) == p.hash
  }

  /** The artifact is stored as published, within its kind's limit, and decodes to the
      record. */
  predicate ArtifactHolds(objects: B.Objects, f: Format, a: Artifact, r: Record, answers: string -> bool) {
    && answers(a.published.name) && StoredAs(objects, f, a.published)
    && 0 < |objects[a.published.name].content| <= MaximumBytes(a.kind)
    && f.decode(a.kind, objects[a.published.name].content) == Some(r)
  }

  /** The requested object, at its generation and digest, is this manifest, of the requested
      bucket and specification and under its own name. */
  predicate ManifestHolds(objects: B.Objects, f: Format, request: Request, m: Manifest, answers: string -> bool) {
    && answers(request.name) && request.name in objects && objects[request.name].generation == request.generation
    && f.digest(objects[request.name].content) == request.hash
    && 0 < |objects[request.name].content| <= MAXIMUM_MANIFEST_BYTES
    && f.decodeManifest(objects[request.name].content) == Some(m)
    && Accepted(m) && m.bucket == request.bucket && m.specId == request.specId && ManifestName(f, m) == request.name
  }

  /** The records of a bundle belong together and to the manifest: their identities are the
      ones it lists, and what terminal, advisory and registration repeat of one another
      agrees throughout. */
  predicate Belongs(f: Format, m: Manifest, b: Bundle) {
    && b.terminal.TerminalRecord? && b.advisory.AdvisoryRecord?
    && f.id(b.terminal) == m.terminalId && f.id(b.advisory) == m.advisoryId == b.terminal.advisoryId
    && b.terminal.advisorySha == f.digest(f.encode(b.advisory)) && b.terminal.preparationId == m.preparationId
    && b.terminal.registrationId == m.registrationId
    && Heads(b.terminal.common, m) && Heads(b.advisory.common, m) && b.terminal.common == b.advisory.common
    && (m.registrationId.None? <==> b.registration.None?)
    && (b.registration.Some? ==> Registers(f, m, b, b.registration.value))
  }

  /** Session, specification, status and action are the manifest's. */
  predicate Heads(c: Common, m: Manifest) {
    c.specId == m.specId && c.session == m.session && c.status == m.status && c.action == m.action
  }

  /** A registration is of this purchase: of this advisory, run, preparation and decision. */
  predicate Registers(f: Format, m: Manifest, b: Bundle, r: Record)
    requires b.advisory.AdvisoryRecord?
  {
    && r.RegistrationRecord? && m.registrationId == Some(f.id(r)) && m.action.PaperBuy?
    && r.alertId == m.advisoryId && r.runId == b.advisory.common.resultId && r.preparation == m.preparationId
    && r.decision == b.advisory.common.decisionId && r.decisionTime == b.advisory.common.evaluatedAt
  }

  /** Every record of the bundle is held by the manifest's artifact at its place. */
  predicate BundleHolds(objects: B.Objects, f: Format, m: Manifest, b: Bundle, answers: string -> bool) {
    && |m.artifacts| == |Payloads(b)|
    && forall k :: 0 <= k < |m.artifacts| ==> ArtifactHolds(objects, f, m.artifacts[k], Payloads(b)[k], answers)
  }

  lemma ArtifactReadIff(objects: B.Objects, f: Format, a: Artifact, r: Record, answers: string -> bool)
    ensures ReadArtifact(objects, f, a, answers) == Some(r) <==> ArtifactHolds(objects, f, a, r, answers)
  {
  }

  lemma ManifestReadIff(objects: B.Objects, f: Format, request: Request, m: Manifest, answers: string -> bool)
    ensures ReadManifest(objects, f, request, answers) == Some(m) <==> ManifestHolds(objects, f, request, m, answers)
  {
  }

  lemma BelongsIff(f: Format, m: Manifest, b: Bundle)
    ensures BundleOk(f, b) && RestoresManifest(f, m, b) <==> Belongs(f, m, b)
  {
  }

  /** An accepted manifest has two artifacts, or three when it lists a registration. */
  lemma ArtifactCount(m: Manifest)
    requires Accepted(m)
    ensures |m.artifacts| == if m.registrationId.Some? then 3 else 2
  {
    assert |KindsOf(m.artifacts)| == |RequiredKinds(m)|;
  }

  /** A restore reads a bundle exactly when its request pins a manifest, and that pins the
      bundle's records, which belong together. */
  lemma BundleReadIff(objects: B.Objects, f: Format, request: Request, answers: string -> bool, b: Bundle)
    ensures ReadBundle(objects, f, request, answers) == Some(b)
       <==> exists m :: ManifestHolds(objects, f, request, m, answers) && BundleHolds(objects, f, m, b, answers)
                        && Belongs(f, m, b)
  {
    if ReadBundle(objects, f, request, answers) == Some(b) {
      var m := ReadManifest(objects, f, request, answers).value;
      ManifestReadIff(objects, f, request, m, answers);
      BelongsIff(f, m, b);
      ReadIsHeld(objects, f, m, b, answers);
    }
    if m :| ManifestHolds(objects, f, request, m, answers) && BundleHolds(objects, f, m, b, answers) && Belongs(f, m, b) {
      ManifestReadIff(objects, f, request, m, answers);
      BelongsIff(f, m, b);
      HeldIsRead(objects, f, m, b, answers);
    }
  }

  /** The reads of the artifacts, by place. */
  ghost predicate ArtifactsRead(objects: B.Objects, f: Format, m: Manifest, b: Bundle, answers: string -> bool) {
    && |m.artifacts| == |Payloads(b)|
    && forall k :: 0 <= k < |m.artifacts| ==> ReadArtifact(objects, f, m.artifacts[k], answers) == Some(Payloads(b)[k])
  }

  lemma ReadsAreHeld(objects: B.Objects, f: Format, m: Manifest, b: Bundle, answers: string -> bool)
    ensures ArtifactsRead(objects, f, m, b, answers) <==> BundleHolds(objects, f, m, b, answers)
  {
    if |m.artifacts| == |Payloads(b)| {
      forall k | 0 <= k < |m.artifacts|
        ensures ReadArtifact(objects, f, m.artifacts[k], answers) == Some(Payloads(b)[k])
           <==> ArtifactHolds(objects, f, m.artifacts[k], Payloads(b)[k], answers)
      {
        ArtifactReadIff(objects, f, m.artifacts[k], Payloads(b)[k], answers);
      }
    }
  }

  lemma ReadIsHeld(objects: B.Objects, f: Format, m: Manifest, b: Bundle, answers: string -> bool)
    requires Accepted(m) && RestoresManifest(f, m, b)
    requires ReadArtifact(objects, f, m.artifacts[0], answers) == Some(b.advisory)
    requires ReadArtifact(objects, f, m.artifacts[|m.artifacts| - 1], answers) == Some(b.terminal)
    requires |m.artifacts| == 3 ==> ReadArtifact(objects, f, m.artifacts[1], answers) == b.registration && b.registration.Some?
    ensures BundleHolds(objects, f, m, b, answers)
  {
    ArtifactCount(m);
    assert ArtifactsRead(objects, f, m, b, answers);
    ReadsAreHeld(objects, f, m, b, answers);
  }

  lemma HeldIsRead(objects: B.Objects, f: Format, m: Manifest, b: Bundle, answers: string -> bool)
    requires Accepted(m) && BundleHolds(objects, f, m, b, answers)
    requires m.registrationId.None? <==> b.registration.None?
    ensures |m.artifacts| == if b.registration.Some? then 3 else 2
    ensures ReadArtifact(objects, f, m.artifacts[0], answers) == Some(b.advisory)
    ensures ReadArtifact(objects, f, m.artifacts[|m.artifacts| - 1], answers) == Some(b.terminal)
    ensures b.registration.Some? ==> ReadArtifact(objects, f, m.artifacts[1], answers) == b.registration
  {
    ArtifactCount(m);
    ReadsAreHeld(objects, f, m, b, answers);
    assert ArtifactsRead(objects, f, m, b, answers);
  }
}
