/** The cloud state publication: its three kinds of record, their bundle check, the
    manifest with its lineage rules, and the invariant of the bucket. */
module StateManifest {
  import opened Wrappers
  import opened Paths
  import B = ObjectBucket

  type Bytes = seq<bv8>

  datatype Kind = Advisory | PaperRegistration | Terminal

  datatype Status = Success | Failed

  datatype Decision = PaperBuy | NoTrade

  /** The fields an advisory repeats from its terminal record. */
  datatype Common = Common(specId: string, resultId: string, session: string, status: Status, action: Decision,
                           evaluatedAt: Option<string>, decisionId: Option<string>, packageId: Option<string>,
                           failureCodes: seq<string>)

  datatype Record =
    | AdvisoryRecord(common: Common, text: string)
    | RegistrationRecord(alertId: string, runId: string, preparation: string, decision: Option<string>,
                         decisionTime: Option<string>, terms: string)
    | TerminalRecord(common: Common, preparationId: string, advisoryId: string, advisorySha: string,
                     registrationId: Option<string>, rest: string)

  /** A terminal with everything published beside it. */
  datatype Bundle = Bundle(terminal: Record, advisory: Record, registration: Option<Record>)

  datatype Artifact = Artifact(kind: Kind, published: B.Published)

  datatype Manifest = Manifest(bucket: string, specId: string, preparationId: string, session: string,
                               terminalId: string, status: Status, action: Decision, advisoryId: string,
                               registrationId: Option<string>, artifacts: seq<Artifact>)

  /** Digests, content identities and codecs. */
  datatype Format = Format(digest: Bytes -> string, id: Record -> string,
                           encode: Record -> Bytes, decode: (Kind, Bytes) -> Option<Record>,
                           publicationId: Manifest -> string,
                           encodeManifest: Manifest -> Bytes, decodeManifest: Bytes -> Option<Manifest>)

  const MAXIMUM_MANIFEST_BYTES: nat := 256 * 1024

  function MaximumBytes(kind: Kind): nat {
    if kind == PaperRegistration then 1024 * 1024 else 512 * 1024
  }

  function KindOf(r: Record): Kind {
    match r
    case AdvisoryRecord(_, _) => Advisory
    case RegistrationRecord(_, _, _, _, _, _) => PaperRegistration
    case TerminalRecord(_, _, _, _, _, _) => Terminal
  }

  function KindName(kind: Kind): string {
    match kind
    case Advisory => "advisory"
    case PaperRegistration => "paper_registration"
    case Terminal => "terminal"
  }

  /** `verify_promoted_operational_published_bundle`: every mutually checkable field agrees. */
  predicate BundleOk(f: Format, b: Bundle) {
    && b.terminal.TerminalRecord? && b.advisory.AdvisoryRecord?
    && b.terminal.advisoryId == f.id(b.advisory) && b.terminal.advisorySha == f.digest(f.encode(b.advisory))
    && b.terminal.common == b.advisory.common
    && match b.registration
       case None => b.terminal.registrationId.None?
       case Some(r) =>
         && r.RegistrationRecord? && b.terminal.registrationId == Some(f.id(r))
         && r.alertId == b.terminal.advisoryId && r.runId == b.terminal.common.resultId
         && r.preparation == b.terminal.preparationId && r.decision == b.terminal.common.decisionId
         && r.decisionTime == b.terminal.common.evaluatedAt && b.terminal.common.action.PaperBuy?
  }

  /** The records of a bundle in publication order: the terminal last. */
  function Payloads(b: Bundle): seq<Record> {
    [b.advisory] + (if b.registration.Some? then [b.registration.value] else []) + [b.terminal]
  }

  function ArtifactName(session: string, specId: string, kind: Kind, id: string): string {
    Join(["promoted-operational-state", "v1", session, specId, "artifacts", KindName(kind), id + ".json"])
  }

  function ManifestName(f: Format, m: Manifest): string {
    Join(["promoted-operational-state", "v1", m.session, m.specId, "manifests", f.publicationId(m) + ".json"])
  }

  function ArtifactId(m: Manifest, kind: Kind): string {
    match kind
    case Advisory => m.advisoryId
    case PaperRegistration => if m.registrationId.Some? then m.registrationId.value else ""
    case Terminal => m.terminalId
  }

  function RequiredKinds(m: Manifest): seq<Kind> {
    if m.registrationId.Some? then [Advisory, PaperRegistration, Terminal] else [Advisory, Terminal]
  }

  function KindsOf(artifacts: seq<Artifact>): (kinds: seq<Kind>)
    ensures |kinds| == |artifacts| && forall k :: 0 <= k < |artifacts| ==> kinds[k] == artifacts[k].kind
  {
    if artifacts == [] then [] else [artifacts[0].kind] + KindsOf(artifacts[1..])
  }

  /** What the manifest's constructor enforces: the required artifacts in order, each at
      its own name, and the lineage of registrations. */
  predicate Accepted(m: Manifest) {
    && NoSlash(m.session) && NoSlash(m.specId) && KindsOf(m.artifacts) == RequiredKinds(m)
    && (forall k :: 0 <= k < |m.artifacts| ==>
          var a := m.artifacts[k];
          && a.published.size <= MaximumBytes(a.kind)
          && a.published.name == ArtifactName(m.session, m.specId, a.kind, ArtifactId(m, a.kind)))
    && (if m.status.Failed? then m.action.NoTrade? && m.registrationId.None?
        else m.action.PaperBuy? <==> m.registrationId.Some?)
  }

  /** The artifact is of this kind, under its own name, and no larger than its kind may be. */
  predicate Lists(m: Manifest, a: Artifact, kind: Kind, kindName: string, id: string, limit: nat) {
    && a.kind == kind && a.published.size <= limit
    && a.published.name
       == Join(["promoted-operational-state", "v1", m.session, m.specId, "artifacts", kindName, id + ".json"])
  }

  /** Exactly which manifests are accepted: without a registration an advisory and a terminal
      of no trade; with one all three, of a successful run that buys. */
  lemma AcceptedIff(m: Manifest)
    ensures Accepted(m) <==>
      && NoSlash(m.session) && NoSlash(m.specId)
      && match m.registrationId
         case None =>
           && m.action.NoTrade? && |m.artifacts| == 2
           && Lists(m, m.artifacts[0], Advisory, "advisory", m.advisoryId, 524_288)
           && Lists(m, m.artifacts[1], Terminal, "terminal", m.terminalId, 524_288)
         case Some(id) =>
           && m.status.Success? && m.action.PaperBuy? && |m.artifacts| == 3
           && Lists(m, m.artifacts[0], Advisory, "advisory", m.advisoryId, 524_288)
           && Lists(m, m.artifacts[1], PaperRegistration, "paper_registration", id, 1_048_576)
           && Lists(m, m.artifacts[2], Terminal, "terminal", m.terminalId, 524_288)
  {
    var kinds := KindsOf(m.artifacts);
    assert |kinds| == |m.artifacts|;
    if |m.artifacts| == 2 {
      assert kinds == [m.artifacts[0].kind, m.artifacts[1].kind];
    }
    if |m.artifacts| == 3 {
      assert kinds == [m.artifacts[0].kind, m.artifacts[1].kind, m.artifacts[2].kind];
    }
  }

  /** What is asked of digests, identities and codecs. */
  ghost predicate Sound(f: Format) {
    && (forall a, b :: f.digest(a) == f.digest(b) ==> a == b)
    && (forall r, s :: f.id(r) == f.id(s) ==> r == s)
    && (forall r :: NoSlash(f.id(r)))
    && (forall r :: f.decode(KindOf(r), f.encode(r)) == Some(r) && f.encode(r) != [])
    && (forall k, b, r :: f.decode(k, b) == Some(r) ==> KindOf(r) == k && f.encode(r) == b)
    && (forall m :: NoSlash(f.publicationId(m)))
    && (forall m, n :: f.publicationId(m) == f.publicationId(n) ==> m == n)
    && (forall m :: Accepted(m) && EncodableManifest(f, m) ==> f.decodeManifest(f.encodeManifest(m)) == Some(m))
  }

  predicate EncodableManifest(f: Format, m: Manifest) {
    0 < |f.encodeManifest(m)| <= MAXIMUM_MANIFEST_BYTES
  }

  lemma ManifestNameParts(s: string, i: string, h: string, s': string, i': string, h': string)
    requires NoSlash(s) && NoSlash(i) && NoSlash(h) && NoSlash(s') && NoSlash(i') && NoSlash(h')
    requires Join(["promoted-operational-state", "v1", s, i, "manifests", h + ".json"])
          == Join(["promoted-operational-state", "v1", s', i', "manifests", h' + ".json"])
    ensures h == h'
  {
    var a := ["promoted-operational-state", "v1", s, i, "manifests", h + ".json"];
    var b := ["promoted-operational-state", "v1", s', i', "manifests", h' + ".json"];
    JoinInjective(a, b);
    assert a[5] == b[5];
    SuffixInjective(h, h');
  }

  /** The manifest names its object and no other manifest's. */
  lemma ManifestNameInjective(f: Format, m: Manifest, n: Manifest)
    requires Sound(f) && Accepted(m) && Accepted(n)
    ensures ManifestName(f, m) == ManifestName(f, n) ==> m == n
  {
    if ManifestName(f, m) == ManifestName(f, n) {
      ManifestNameParts(m.session, m.specId, f.publicationId(m), n.session, n.specId, f.publicationId(n));
    }
  }

  lemma SuffixInjective(x: string, y: string)
    ensures x + ".json" == y + ".json" ==> x == y
  {
    assert x == (x + ".json")[..|x + ".json"| - 5] && y == (y + ".json")[..|y + ".json"| - 5];
  }

  lemma ArtifactIsNoManifest(f: Format, session: string, specId: string, kind: Kind, id: string, m: Manifest)
    requires Sound(f) && Accepted(m) && NoSlash(session) && NoSlash(specId) && NoSlash(id)
    ensures ArtifactName(session, specId, kind, id) != ManifestName(f, m)
  {
    var a := ["promoted-operational-state", "v1", session, specId, "artifacts", KindName(kind), id + ".json"];
    var b := ["promoted-operational-state", "v1", m.session, m.specId, "manifests", f.publicationId(m) + ".json"];
    assert NoSlash(f.publicationId(m));
    JoinInjective(a, b);
    assert |a| != |b|;
  }

  // ---------------------------------------------------------------- the bucket's invariant

  /** Every artifact of the manifest is stored at the generation, size and hash it pins. */
  ghost predicate ArtifactsPinned(objects: B.Objects, f: Format, m: Manifest) {
    forall k :: 0 <= k < |m.artifacts| ==> B.Pinned(objects, f.digest, m.artifacts[k].published)
  }

  /** If the manifest is stored, it is whole and its artifacts are pinned. */
  ghost predicate SealedWhole(objects: B.Objects, f: Format, m: Manifest) {
    ManifestName(f, m) in objects ==>
      objects[ManifestName(f, m)].content == f.encodeManifest(m) && ArtifactsPinned(objects, f, m)
  }

  /** A stored manifest is whole, and all its artifacts are there. */
  ghost predicate StateInv(objects: B.Objects, f: Format) {
    forall m :: Accepted(m) ==> SealedWhole(objects, f, m)
  }

  /** Artifacts are named by their identities. */
  ghost predicate ArtifactsNamed(objects: B.Objects, f: Format) {
    forall s, i, r {:trigger ArtifactName(s, i, KindOf(r), f.id(r))} ::
      NoSlash(s) && NoSlash(i) && ArtifactName(s, i, KindOf(r), f.id(r)) in objects ==>
        objects[ArtifactName(s, i, KindOf(r), f.id(r))].content == f.encode(r)
  }

  lemma ArtifactNameParts(s: string, i: string, k: Kind, h: string, s': string, i': string, k': Kind, h': string)
    requires NoSlash(s) && NoSlash(i) && NoSlash(h) && NoSlash(s') && NoSlash(i') && NoSlash(h')
    ensures ArtifactName(s, i, k, h) == ArtifactName(s', i', k', h') ==> h == h'
  {
    var a := ["promoted-operational-state", "v1", s, i, "artifacts", KindName(k), h + ".json"];
    var b := ["promoted-operational-state", "v1", s', i', "artifacts", KindName(k'), h' + ".json"];
    JoinInjective(a, b);
    if a == b {
      assert a[6] == b[6];
      SuffixInjective(h, h');
    }
  }

  lemma ArtifactNameInjective(f: Format, s: string, i: string, r: Record, s': string, i': string, r': Record)
    requires Sound(f) && NoSlash(s) && NoSlash(i) && NoSlash(s') && NoSlash(i')
    ensures ArtifactName(s, i, KindOf(r), f.id(r)) == ArtifactName(s', i', KindOf(r'), f.id(r')) ==> r == r'
  {
    ArtifactNameParts(s, i, KindOf(r), f.id(r), s', i', KindOf(r'), f.id(r'));
  }

  lemma ArtifactWriteKeepsNames(objects: B.Objects, f: Format, session: string, specId: string, r: Record,
                                generation: B.Generation, fate: B.Fate)
    requires Sound(f) && ArtifactsNamed(objects, f) && NoSlash(session) && NoSlash(specId)
    ensures ArtifactsNamed(B.Written(objects, ArtifactName(session, specId, KindOf(r), f.id(r)), f.encode(r),
                                     generation, fate), f)
  {
    var name := ArtifactName(session, specId, KindOf(r), f.id(r));
    var after := B.Written(objects, name, f.encode(r), generation, fate);
    forall s, i, x | NoSlash(s) && NoSlash(i) && ArtifactName(s, i, KindOf(x), f.id(x)) in after
      ensures after[ArtifactName(s, i, KindOf(x), f.id(x))].content == f.encode(x)
    {
      ArtifactNameInjective(f, session, specId, r, s, i, x);
    }
  }

  lemma ManifestWriteKeepsNames(objects: B.Objects, f: Format, m: Manifest, generation: B.Generation, fate: B.Fate)
    requires Sound(f) && ArtifactsNamed(objects, f) && Accepted(m)
    ensures ArtifactsNamed(B.Written(objects, ManifestName(f, m), f.encodeManifest(m), generation, fate), f)
  {
    var after := B.Written(objects, ManifestName(f, m), f.encodeManifest(m), generation, fate);
    forall s, i, x | NoSlash(s) && NoSlash(i) && ArtifactName(s, i, KindOf(x), f.id(x)) in after
      ensures after[ArtifactName(s, i, KindOf(x), f.id(x))].content == f.encode(x)
    {
      ArtifactIsNoManifest(f, s, i, KindOf(x), f.id(x), m);
    }
  }

  lemma PinnedStays(before: B.Objects, after: B.Objects, f: Format, m: Manifest)
    requires ArtifactsPinned(before, f, m) && B.Grows(before, after)
    ensures ArtifactsPinned(after, f, m)
  {
  }

  /** Writing an artifact keeps the invariant, however the write fares. */
  lemma ArtifactWriteKeepsInv(objects: B.Objects, f: Format, session: string, specId: string, r: Record,
                              generation: B.Generation, fate: B.Fate)
    requires Sound(f) && StateInv(objects, f) && NoSlash(session) && NoSlash(specId)
    ensures StateInv(B.Written(objects, ArtifactName(session, specId, KindOf(r), f.id(r)), f.encode(r), generation, fate), f)
  {
    var name := ArtifactName(session, specId, KindOf(r), f.id(r));
    var after := B.Written(objects, name, f.encode(r), generation, fate);
    forall m | Accepted(m)
      ensures SealedWhole(after, f, m)
    {
      assert NoSlash(f.id(r));
      ArtifactIsNoManifest(f, session, specId, KindOf(r), f.id(r), m);
      assert SealedWhole(objects, f, m);
      if ManifestName(f, m) in objects {
        PinnedStays(objects, after, f, m);
      }
    }
  }

  lemma OtherStaysWhole(objects: B.Objects, f: Format, m: Manifest, n: Manifest, generation: B.Generation, fate: B.Fate)
    requires SealedWhole(objects, f, n) && ArtifactsPinned(objects, f, m)
    requires ManifestName(f, m) == ManifestName(f, n) ==> m == n
    ensures SealedWhole(B.Written(objects, ManifestName(f, m), f.encodeManifest(m), generation, fate), f, n)
  {
    var after := B.Written(objects, ManifestName(f, m), f.encodeManifest(m), generation, fate);
    if ManifestName(f, n) in objects {
      PinnedStays(objects, after, f, n);
    } else if ManifestName(f, n) in after {
      PinnedStays(objects, after, f, m);
    }
  }

  /** Writing a manifest whose artifacts are pinned keeps the invariant. */
  lemma ManifestWriteKeepsInv(objects: B.Objects, f: Format, m: Manifest, generation: B.Generation, fate: B.Fate)
    requires Sound(f) && StateInv(objects, f) && Accepted(m) && ArtifactsPinned(objects, f, m)
    ensures StateInv(B.Written(objects, ManifestName(f, m), f.encodeManifest(m), generation, fate), f)
  {
    var after := B.Written(objects, ManifestName(f, m), f.encodeManifest(m), generation, fate);
    forall n | Accepted(n)
      ensures SealedWhole(after, f, n)
    {
      ManifestNameInjective(f, m, n);
      assert SealedWhole(objects, f, n);
      OtherStaysWhole(objects, f, m, n, generation, fate);
    }
  }
}
