/** Publishing state to a shared bucket as a protocol: any number of publishers, each
    writing its artifacts in order and its manifest last, with failed writes, crashes and
    retries at every point. */
module StatePublication {
  import opened Wrappers
  import opened Paths
  import opened StateManifest
  import B = ObjectBucket

  /** One publisher: idle (also after a crash or an error), part-way through its writes,
      or finished with a sealed manifest. */
  datatype Publisher =
    | Idle
    | Writing(bundle: Bundle, done: seq<Artifact>)
    | Published(bundle: Bundle, manifest: Manifest, sealed: B.Published)

  datatype World = World(objects: B.Objects, publishers: map<nat, Publisher>)

  /** A write fares as the bucket decides, and creates its object at the generation the
      bucket chooses. */
  datatype Action =
    | Begin(who: nat, bundle: Bundle)
    | Write(who: nat, fate: B.Fate, generation: B.Generation)
    | Crash(who: nat)

  function NameOf(f: Format, b: Bundle, r: Record): string
    requires b.terminal.TerminalRecord?
  {
    ArtifactName(b.terminal.common.session, b.terminal.common.specId, KindOf(r), f.id(r))
  }

  function ManifestFor(f: Format, bucket: string, b: Bundle, done: seq<Artifact>): Manifest
    requires b.terminal.TerminalRecord?
  {
    var t := b.terminal;
    Manifest(bucket, t.common.specId, t.preparationId, t.common.session, f.id(t), t.common.status, t.common.action,
             t.advisoryId, t.registrationId, done)
  }

  /** A terminal's session and spec are single path components, as a date and a hash are. */
  predicate PlainTerminal(b: Bundle) {
    b.terminal.TerminalRecord? && NoSlash(b.terminal.common.session) && NoSlash(b.terminal.common.specId)
  }

  /** The next artifact: an oversized payload and a refused or failed write both end the
      publication. */
  function WriteArtifact(f: Format, w: World, who: nat, b: Bundle, done: seq<Artifact>,
                         fate: B.Fate, generation: B.Generation): World
    requires b.terminal.TerminalRecord? && |done| < |Payloads(b)|
  {
    var r := Payloads(b)[|done|];
    if |f.encode(r)| > MaximumBytes(KindOf(r)) then w.(publishers := w.publishers[who := Idle])
    else
      var name := NameOf(f, b, r);
      var answer := B.Answer(w.objects, f.digest, name, f.encode(r), generation, fate);
      World(B.Written(w.objects, name, f.encode(r), generation, fate),
            w.publishers[who := if answer.Some? then Writing(b, done + [Artifact(KindOf(r), answer.value)]) else Idle])
  }

  /** The manifest: built from what was published, refused when its lineage is wrong. */
  function WriteManifest(f: Format, bucket: string, w: World, who: nat, b: Bundle, done: seq<Artifact>,
                         fate: B.Fate, generation: B.Generation): World
    requires b.terminal.TerminalRecord?
  {
    var m := ManifestFor(f, bucket, b, done);
    if !Accepted(m) || !EncodableManifest(f, m) then w.(publishers := w.publishers[who := Idle])
    else
      var name := ManifestName(f, m);
      var answer := B.Answer(w.objects, f.digest, name, f.encodeManifest(m), generation, fate);
      World(B.Written(w.objects, name, f.encodeManifest(m), generation, fate),
            w.publishers[who := if answer.Some? then Published(b, m, answer.value) else Idle])
  }

  /** One step of one publisher. */
  function Apply(f: Format, bucket: string, w: World, a: Action): World {
    match a
    case Begin(who, bundle) =>
      if PlainTerminal(bundle) && BundleOk(f, bundle)
      then w.(publishers := w.publishers[who := Writing(bundle, [])])
      else w.(publishers := w.publishers[who := Idle])
    case Crash(who) => w.(publishers := w.publishers[who := Idle])
    case Write(who, fate, generation) =>
      if who !in w.publishers then w
      else
        match w.publishers[who]
        case Idle => w
        case Published(_, _, _) => w
        case Writing(b, done) =>
          if !b.terminal.TerminalRecord? then w
          else if |done| < |Payloads(b)| then WriteArtifact(f, w, who, b, done, fate, generation)
          else WriteManifest(f, bucket, w, who, b, done, fate, generation)
  }

  function Run(f: Format, bucket: string, w: World, actions: seq<Action>): World
    decreases |actions|
  {
    if actions == [] then w else Run(f, bucket, Apply(f, bucket, w, actions[0]), actions[1..])
  }

  // ---------------------------------------------------------------- the invariant

  /** An artifact already written is stored under its name with its encoding. */
  ghost predicate ArtifactStored(objects: B.Objects, f: Format, b: Bundle, r: Record, a: Artifact) {
    && b.terminal.TerminalRecord?
    && a.kind == KindOf(r) && a.published.name == NameOf(f, b, r)
    && |f.encode(r)| <= MaximumBytes(a.kind)
    && B.Pinned(objects, f.digest, a.published) && objects[a.published.name].content == f.encode(r)
  }

  ghost predicate AllStored(objects: B.Objects, f: Format, b: Bundle, done: seq<Artifact>) {
    && |done| <= |Payloads(b)|
    && forall k :: 0 <= k < |done| ==> ArtifactStored(objects, f, b, Payloads(b)[k], done[k])
  }

  ghost predicate PublisherInv(objects: B.Objects, f: Format, bucket: string, p: Publisher) {
    match p
    case Idle => true
    case Writing(b, done) => PlainTerminal(b) && BundleOk(f, b) && AllStored(objects, f, b, done)
    case Published(b, m, sealed) =>
      && PlainTerminal(b) && BundleOk(f, b) && AllStored(objects, f, b, m.artifacts)
      && m == ManifestFor(f, bucket, b, m.artifacts) && Accepted(m) && EncodableManifest(f, m)
      && sealed.name == ManifestName(f, m) && B.Pinned(objects, f.digest, sealed)
      && objects[sealed.name].content == f.encodeManifest(m)
  }

  ghost predicate Inv(f: Format, bucket: string, w: World) {
    && StateInv(w.objects, f) && ArtifactsNamed(w.objects, f)
    && forall who :: who in w.publishers ==> PublisherInv(w.objects, f, bucket, w.publishers[who])
  }

  lemma PublisherInvGrows(before: B.Objects, after: B.Objects, f: Format, bucket: string, p: Publisher)
    requires PublisherInv(before, f, bucket, p) && B.Grows(before, after)
    ensures PublisherInv(after, f, bucket, p)
  {
    match p
    case Idle =>
    case Writing(b, done) =>
      AllStoredGrows(before, after, f, b, done);
    case Published(b, m, sealed) =>
      AllStoredGrows(before, after, f, b, m.artifacts);
  }

  lemma AllStoredGrows(before: B.Objects, after: B.Objects, f: Format, b: Bundle, done: seq<Artifact>)
    requires AllStored(before, f, b, done) && B.Grows(before, after)
    ensures AllStored(after, f, b, done)
  {
    forall k | 0 <= k < |done|
      ensures ArtifactStored(after, f, b, Payloads(b)[k], done[k])
    {
      assert ArtifactStored(before, f, b, Payloads(b)[k], done[k]);
    }
  }

  /** A write by one publisher leaves the others' invariants standing. */
  lemma OneMoved(f: Format, bucket: string, w: World, who: nat, objects: B.Objects, p: Publisher)
    requires Inv(f, bucket, w) && B.Grows(w.objects, objects) && StateInv(objects, f) && ArtifactsNamed(objects, f)
    requires PublisherInv(objects, f, bucket, p)
    ensures Inv(f, bucket, World(objects, w.publishers[who := p]))
  {
    var publishers := w.publishers[who := p];
    forall other | other in publishers
      ensures PublisherInv(objects, f, bucket, publishers[other])
    {
      if other != who {
        PublisherInvGrows(w.objects, objects, f, bucket, w.publishers[other]);
      }
    }
  }

  /** One answered artifact write. */
  lemma ArtifactAnswered(objects: B.Objects, f: Format, b: Bundle, done: seq<Artifact>, generation: B.Generation, fate: B.Fate)
    requires AllStored(objects, f, b, done) && |done| < |Payloads(b)| && b.terminal.TerminalRecord?
    requires |f.encode(Payloads(b)[|done|])| <= MaximumBytes(KindOf(Payloads(b)[|done|]))
    ensures var r := Payloads(b)[|done|];
            var after := B.Written(objects, NameOf(f, b, r), f.encode(r), generation, fate);
            var answer := B.Answer(objects, f.digest, NameOf(f, b, r), f.encode(r), generation, fate);
            B.Grows(objects, after)
            && (answer.Some? ==> AllStored(after, f, b, done + [Artifact(KindOf(r), answer.value)]))
  {
    var r := Payloads(b)[|done|];
    var name := NameOf(f, b, r);
    var after := B.Written(objects, name, f.encode(r), generation, fate);
    B.AnsweredIsPinned(objects, f.digest, name, f.encode(r), generation, fate);
    AllStoredGrows(objects, after, f, b, done);
    var answer := B.Answer(objects, f.digest, name, f.encode(r), generation, fate);
    if answer.Some? {
      assert ArtifactStored(after, f, b, r, Artifact(KindOf(r), answer.value));
    }
  }

  lemma WriteArtifactKeepsInv(f: Format, bucket: string, w: World, who: nat, b: Bundle, done: seq<Artifact>,
                                fate: B.Fate, generation: B.Generation)
    requires Sound(f) && Inv(f, bucket, w) && who in w.publishers && w.publishers[who] == Writing(b, done)
    requires b.terminal.TerminalRecord? && |done| < |Payloads(b)|
    ensures Inv(f, bucket, WriteArtifact(f, w, who, b, done, fate, generation))
    ensures B.Grows(w.objects, WriteArtifact(f, w, who, b, done, fate, generation).objects)
  {
    assert PublisherInv(w.objects, f, bucket, Writing(b, done));
    var r := Payloads(b)[|done|];
    if |f.encode(r)| <= MaximumBytes(KindOf(r)) {
      ArtifactWriteKeepsInv(w.objects, f, b.terminal.common.session, b.terminal.common.specId, r, generation, fate);
      ArtifactWriteKeepsNames(w.objects, f, b.terminal.common.session, b.terminal.common.specId, r, generation, fate);
      ArtifactAnswered(w.objects, f, b, done, generation, fate);
      var after := WriteArtifact(f, w, who, b, done, fate, generation);
      OneMoved(f, bucket, w, who, after.objects, after.publishers[who]);
    } else {
      OneMoved(f, bucket, w, who, w.objects, Idle);
    }
  }

  lemma StoredArePinned(objects: B.Objects, f: Format, b: Bundle, m: Manifest)
    requires AllStored(objects, f, b, m.artifacts)
    ensures ArtifactsPinned(objects, f, m)
  {
    forall k | 0 <= k < |m.artifacts|
      ensures B.Pinned(objects, f.digest, m.artifacts[k].published)
    {
      assert ArtifactStored(objects, f, b, Payloads(b)[k], m.artifacts[k]);
    }
  }

  lemma WriteManifestKeepsInv(f: Format, bucket: string, w: World, who: nat, b: Bundle, done: seq<Artifact>,
                                fate: B.Fate, generation: B.Generation)
    requires Sound(f) && Inv(f, bucket, w) && who in w.publishers && w.publishers[who] == Writing(b, done)
    ensures Inv(f, bucket, WriteManifest(f, bucket, w, who, b, done, fate, generation))
    ensures B.Grows(w.objects, WriteManifest(f, bucket, w, who, b, done, fate, generation).objects)
  {
    assert PublisherInv(w.objects, f, bucket, Writing(b, done));
    var m := ManifestFor(f, bucket, b, done);
    if Accepted(m) && EncodableManifest(f, m) {
      var after := WriteManifest(f, bucket, w, who, b, done, fate, generation);
      StoredArePinned(w.objects, f, b, m);
      ManifestWriteKeepsInv(w.objects, f, m, generation, fate);
      ManifestWriteKeepsNames(w.objects, f, m, generation, fate);
      B.AnsweredIsPinned(w.objects, f.digest, ManifestName(f, m), f.encodeManifest(m), generation, fate);
      AllStoredGrows(w.objects, after.objects, f, b, done);
      OneMoved(f, bucket, w, who, after.objects, after.publishers[who]);
    } else {
      OneMoved(f, bucket, w, who, w.objects, Idle);
    }
  }

  /** Every step of every publisher, also a failing write and a crash, keeps the
      invariant, and nothing stored is ever lost. */
  lemma StepKeepsInv(f: Format, bucket: string, w: World, a: Action)
    requires Sound(f) && Inv(f, bucket, w)
    ensures Inv(f, bucket, Apply(f, bucket, w, a))
    ensures B.Grows(w.objects, Apply(f, bucket, w, a).objects)
  {
    match a
    case Begin(who, bundle) =>
      if PlainTerminal(bundle) && BundleOk(f, bundle) {
        OneMoved(f, bucket, w, who, w.objects, Writing(bundle, []));
      } else {
        OneMoved(f, bucket, w, who, w.objects, Idle);
      }
    case Crash(who) =>
      OneMoved(f, bucket, w, who, w.objects, Idle);
    case Write(who, fate, generation) =>
      if who in w.publishers && w.publishers[who].Writing? {
        var b, done := w.publishers[who].bundle, w.publishers[who].done;
        assert PublisherInv(w.objects, f, bucket, Writing(b, done));
        if |done| < |Payloads(b)| {
          WriteArtifactKeepsInv(f, bucket, w, who, b, done, fate, generation);
        } else {
          WriteManifestKeepsInv(f, bucket, w, who, b, done, fate, generation);
        }
      }
  }

  /** At every point of every run a manifest in the bucket implies all its artifacts at the
      pinned generation, size and hash. */
  lemma {:induction false} RunKeepsInv(f: Format, bucket: string, w: World, actions: seq<Action>)
    requires Sound(f) && Inv(f, bucket, w)
    ensures Inv(f, bucket, Run(f, bucket, w, actions))
    ensures B.Grows(w.objects, Run(f, bucket, w, actions).objects)
    decreases |actions|
  {
    if actions != [] {
      StepKeepsInv(f, bucket, w, actions[0]);
      RunKeepsInv(f, bucket, Apply(f, bucket, w, actions[0]), actions[1..]);
    }
  }

  // ---------------------------------------------------------------- retries succeed

  /** The lineage of a paper registration, which a terminal record must have. */
  predicate LineageOk(b: Bundle) {
    b.terminal.TerminalRecord? &&
    if b.terminal.common.status.Failed? then b.terminal.common.action.NoTrade? && b.registration.None?
    else b.terminal.common.action.PaperBuy? <==> b.registration.Some?
  }

  /** With all artifacts stored the manifest is accepted exactly on a proper lineage. */
  lemma ManifestAcceptedIff(objects: B.Objects, f: Format, bucket: string, b: Bundle, done: seq<Artifact>)
    requires PlainTerminal(b) && BundleOk(f, b) && AllStored(objects, f, b, done) && |done| == |Payloads(b)|
    ensures Accepted(ManifestFor(f, bucket, b, done)) <==> LineageOk(b)
  {
    var m := ManifestFor(f, bucket, b, done);
    forall k | 0 <= k < |done|
      ensures done[k].kind == RequiredKinds(m)[k] && |f.encode(Payloads(b)[k])| == done[k].published.size
      ensures done[k].published.name == ArtifactName(m.session, m.specId, done[k].kind, ArtifactId(m, done[k].kind))
      ensures done[k].published.size <= MaximumBytes(done[k].kind)
    {
      assert ArtifactStored(objects, f, b, Payloads(b)[k], done[k]);
    }
    assert KindsOf(done) == RequiredKinds(m);
  }

  /** What an answered write of an artifact returns: an object already there keeps its
      generation. */
  function ArtifactFor(f: Format, objects: B.Objects, b: Bundle, r: Record, generation: B.Generation): Artifact
    requires b.terminal.TerminalRecord?
  {
    var name := NameOf(f, b, r);
    Artifact(KindOf(r), B.Published(name, if name in objects then objects[name].generation else generation,
                                    |f.encode(r)|, f.digest(f.encode(r))))
  }

  /** The artifacts of the bundle's first `n` records, over what the bucket holds before. */
  function ArtifactsFor(f: Format, objects: B.Objects, b: Bundle, generations: seq<B.Generation>, n: nat):
    (artifacts: seq<Artifact>)
    requires b.terminal.TerminalRecord? && n <= |Payloads(b)| && n <= |generations|
    ensures |artifacts| == n
  {
    if n == 0 then []
    else ArtifactsFor(f, objects, b, generations, n - 1)
         + [ArtifactFor(f, objects, b, Payloads(b)[n - 1], generations[n - 1])]
  }

  /** The manifest that a publisher starting now builds when all its artifacts are
      answered, with these generations for the objects it creates. */
  function ManifestToBe(f: Format, bucket: string, objects: B.Objects, b: Bundle, generations: seq<B.Generation>):
    Manifest
    requires b.terminal.TerminalRecord? && |Payloads(b)| <= |generations|
  {
    ManifestFor(f, bucket, b, ArtifactsFor(f, objects, b, generations, |Payloads(b)|))
  }

  /** What a bundle itself must be for its artifacts to be written. */
  predicate ArtifactsFit(f: Format, b: Bundle) {
    && PlainTerminal(b) && BundleOk(f, b)
    && forall k :: 0 <= k < |Payloads(b)| ==> |f.encode(Payloads(b)[k])| <= MaximumBytes(KindOf(Payloads(b)[k]))
  }

  /** When a publication starting over this bucket can complete: the bundle verifies with a
      proper lineage, and its records and its manifest keep their size limits. */
  predicate Publishable(f: Format, bucket: string, objects: B.Objects, b: Bundle, generations: seq<B.Generation>)
    requires |generations| == |Payloads(b)| + 1
  {
    && ArtifactsFit(f, b) && LineageOk(b)
    && EncodableManifest(f, ManifestToBe(f, bucket, objects, b, generations))
  }

  /** The writes of one publisher, each answered. */
  function Writes(who: nat, generations: seq<B.Generation>): seq<Action> {
    if generations == [] then []
    else [Write(who, B.Answers, generations[0])] + Writes(who, generations[1..])
  }

  function Retry(who: nat, b: Bundle, generations: seq<B.Generation>): seq<Action> {
    [Begin(who, b)] + Writes(who, generations)
  }

  lemma RunWrites(f: Format, bucket: string, w: World, who: nat, generations: seq<B.Generation>)
    requires generations != []
    ensures Run(f, bucket, w, Writes(who, generations))
         == Run(f, bucket, Apply(f, bucket, w, Write(who, B.Answers, generations[0])), Writes(who, generations[1..]))
  {
    var actions := Writes(who, generations);
    assert actions[0] == Write(who, B.Answers, generations[0]) && actions[1..] == Writes(who, generations[1..]);
  }

  lemma {:induction false} IdleStays(f: Format, bucket: string, w: World, who: nat, generations: seq<B.Generation>)
    requires who in w.publishers && !w.publishers[who].Writing?
    ensures Run(f, bucket, w, Writes(who, generations)) == w
  {
    if generations != [] {
      RunWrites(f, bucket, w, who, generations);
      IdleStays(f, bucket, w, who, generations[1..]);
    }
  }

  /** Different records of one bundle have different names. */
  lemma NamesDiffer(f: Format, b: Bundle, j: nat, k: nat)
    requires Sound(f) && PlainTerminal(b) && BundleOk(f, b) && j < k < |Payloads(b)|
    ensures NameOf(f, b, Payloads(b)[j]) != NameOf(f, b, Payloads(b)[k])
  {
    var session, specId := b.terminal.common.session, b.terminal.common.specId;
    ArtifactNameInjective(f, session, specId, Payloads(b)[j], session, specId, Payloads(b)[k]);
  }

  /** After `n` answered artifacts only their names have come in. */
  ghost predicate OnlyAdded(before: B.Objects, after: B.Objects, f: Format, b: Bundle, n: nat)
    requires b.terminal.TerminalRecord? && n <= |Payloads(b)|
  {
    forall k :: n <= k < |Payloads(b)| ==>
      var name := NameOf(f, b, Payloads(b)[k]);
      (name in after <==> name in before) && (name in before ==> after[name] == before[name])
  }

  /** Artifacts named by identity leave nothing for an artifact write to refuse: it is
      answered exactly when its record fits. */
  lemma ArtifactIsAnswered(f: Format, bucket: string, w: World, who: nat, b: Bundle, done: seq<Artifact>,
                           generation: B.Generation)
    requires Sound(f) && Inv(f, bucket, w) && who in w.publishers && w.publishers[who] == Writing(b, done)
    requires PlainTerminal(b) && |done| < |Payloads(b)|
    ensures var r := Payloads(b)[|done|];
            var after := Apply(f, bucket, w, Write(who, B.Answers, generation));
            && after.publishers.Keys == w.publishers.Keys
            && after.publishers[who] == (if |f.encode(r)| > MaximumBytes(KindOf(r)) then Idle
                                         else Writing(b, done + [ArtifactFor(f, w.objects, b, r, generation)]))
            && (forall name :: name != NameOf(f, b, r) ==>
                  (name in after.objects <==> name in w.objects)
                  && (name in w.objects ==> after.objects[name] == w.objects[name]))
  {
    var r := Payloads(b)[|done|];
    assert NameOf(f, b, r) in w.objects ==> w.objects[NameOf(f, b, r)].content == f.encode(r);
  }

  /** The manifest's write is answered exactly when its lineage is proper and it fits. */
  lemma ManifestIsAnswered(f: Format, bucket: string, w: World, who: nat, b: Bundle, done: seq<Artifact>,
                           generation: B.Generation)
    requires Sound(f) && Inv(f, bucket, w) && who in w.publishers && w.publishers[who] == Writing(b, done)
    requires PlainTerminal(b) && |done| == |Payloads(b)|
    ensures var m := ManifestFor(f, bucket, b, done);
            var after := Apply(f, bucket, w, Write(who, B.Answers, generation));
            && who in after.publishers && !after.publishers[who].Writing?
            && (after.publishers[who].Published? <==> LineageOk(b) && EncodableManifest(f, m))
            && (after.publishers[who].Published? ==>
                  after.publishers[who].bundle == b && after.publishers[who].manifest == m)
  {
    assert PublisherInv(w.objects, f, bucket, Writing(b, done));
    ManifestAcceptedIff(w.objects, f, bucket, b, done);
    var m := ManifestFor(f, bucket, b, done);
    assert Accepted(m) && ManifestName(f, m) in w.objects ==>
      w.objects[ManifestName(f, m)].content == f.encodeManifest(m);
  }

  /** How the publisher stands when all its writes were answered. */
  ghost predicate EndsAs(f: Format, bucket: string, objects: B.Objects, b: Bundle, generations: seq<B.Generation>,
                         after: World, who: nat)
    requires |generations| == |Payloads(b)| + 1
  {
    && who in after.publishers && !after.publishers[who].Writing?
    && (after.publishers[who].Published? <==> Publishable(f, bucket, objects, b, generations))
    && (after.publishers[who].Published? ==>
          && after.publishers[who].bundle == b
          && after.publishers[who].manifest == ManifestToBe(f, bucket, objects, b, generations))
  }

  /** The publisher has its first `n` artifacts and the others are still as they were. */
  ghost predicate Underway(f: Format, bucket: string, objects: B.Objects, w: World, who: nat, b: Bundle, n: nat,
                           generations: seq<B.Generation>)
  {
    && Inv(f, bucket, w) && PlainTerminal(b) && BundleOk(f, b)
    && n <= |Payloads(b)| && |generations| == |Payloads(b)| + 1
    && who in w.publishers && w.publishers[who] == Writing(b, ArtifactsFor(f, objects, b, generations, n))
    && OnlyAdded(objects, w.objects, f, b, n)
    && forall k :: 0 <= k < n ==> |f.encode(Payloads(b)[k])| <= MaximumBytes(KindOf(Payloads(b)[k]))
  }

  /** The last write decides. */
  lemma ManifestFinishes(f: Format, bucket: string, objects: B.Objects, w: World, who: nat, b: Bundle,
                         generations: seq<B.Generation>)
    requires Sound(f) && Underway(f, bucket, objects, w, who, b, |Payloads(b)|, generations)
    ensures EndsAs(f, bucket, objects, b, generations,
                   Apply(f, bucket, w, Write(who, B.Answers, generations[|Payloads(b)|])), who)
  {
    var n := |Payloads(b)|;
    ManifestIsAnswered(f, bucket, w, who, b, ArtifactsFor(f, objects, b, generations, n), generations[n]);
  }

  /** One more artifact, or the end of the attempt at a record that does not fit. */
  lemma ArtifactFinishes(f: Format, bucket: string, objects: B.Objects, w: World, who: nat, b: Bundle, n: nat,
                         generations: seq<B.Generation>)
    requires Sound(f) && Underway(f, bucket, objects, w, who, b, n, generations) && n < |Payloads(b)|
    ensures var rest := Apply(f, bucket, w, Write(who, B.Answers, generations[n]));
            if |f.encode(Payloads(b)[n])| > MaximumBytes(KindOf(Payloads(b)[n]))
            then EndsAs(f, bucket, objects, b, generations, rest, who)
            else Underway(f, bucket, objects, rest, who, b, n + 1, generations)
  {
    var rest := Apply(f, bucket, w, Write(who, B.Answers, generations[n]));
    StepKeepsInv(f, bucket, w, Write(who, B.Answers, generations[n]));
    ArtifactIsAnswered(f, bucket, w, who, b, ArtifactsFor(f, objects, b, generations, n), generations[n]);
    StillOnlyAdded(f, objects, w.objects, rest.objects, b, n);
  }

  lemma {:induction false} WritesFinish(f: Format, bucket: string, objects: B.Objects, w: World, who: nat, b: Bundle,
                                        n: nat, generations: seq<B.Generation>)
    requires Sound(f) && Underway(f, bucket, objects, w, who, b, n, generations)
    ensures EndsAs(f, bucket, objects, b, generations, Run(f, bucket, w, Writes(who, generations[n..])), who)
    decreases |Payloads(b)| - n
  {
    var rest := Apply(f, bucket, w, Write(who, B.Answers, generations[n]));
    RunWrites(f, bucket, w, who, generations[n..]);
    assert generations[n..][1..] == generations[n + 1..];
    if n == |Payloads(b)| {
      ManifestFinishes(f, bucket, objects, w, who, b, generations);
      IdleStays(f, bucket, rest, who, generations[n + 1..]);
    } else {
      ArtifactFinishes(f, bucket, objects, w, who, b, n, generations);
      if |f.encode(Payloads(b)[n])| > MaximumBytes(KindOf(Payloads(b)[n])) {
        IdleStays(f, bucket, rest, who, generations[n + 1..]);
      } else {
        WritesFinish(f, bucket, objects, rest, who, b, n + 1, generations);
      }
    }
  }

  lemma StillOnlyAdded(f: Format, objects: B.Objects, before: B.Objects, after: B.Objects, b: Bundle, n: nat)
    requires Sound(f) && PlainTerminal(b) && BundleOk(f, b) && n < |Payloads(b)| && OnlyAdded(objects, before, f, b, n)
    requires forall name :: name != NameOf(f, b, Payloads(b)[n]) ==>
               (name in after <==> name in before) && (name in before ==> after[name] == before[name])
    ensures OnlyAdded(objects, after, f, b, n + 1)
  {
    forall k | n < k < |Payloads(b)|
      ensures NameOf(f, b, Payloads(b)[k]) != NameOf(f, b, Payloads(b)[n])
    {
      NamesDiffer(f, b, n, k);
    }
  }

  /** After any run, whatever failed or crashed in it and whoever else wrote, a publisher
      that starts over and is answered completes exactly when its bundle is publishable
      over the bucket it finds; an object that an earlier attempt left there keeps its
      generation in the manifest. */
  lemma RetrySucceeds(f: Format, bucket: string, start: World, actions: seq<Action>, who: nat, b: Bundle,
                      generations: seq<B.Generation>)
    requires Sound(f) && Inv(f, bucket, start) && |generations| == |Payloads(b)| + 1
    ensures var found := Run(f, bucket, start, actions);
            EndsAs(f, bucket, found.objects, b, generations, Run(f, bucket, found, Retry(who, b, generations)), who)
  {
    var w := Run(f, bucket, start, actions);
    RunKeepsInv(f, bucket, start, actions);
    StepKeepsInv(f, bucket, w, Begin(who, b));
    var begun := Apply(f, bucket, w, Begin(who, b));
    var retry := Retry(who, b, generations);
    assert retry[1..] == Writes(who, generations) && generations[0..] == generations;
    if PlainTerminal(b) && BundleOk(f, b) {
      WritesFinish(f, bucket, w.objects, begun, who, b, 0, generations);
    } else {
      IdleStays(f, bucket, begun, who, generations);
    }
  }

  /** The protocol starts right: in an empty bucket with nobody publishing. */
  lemma StartIsRight(f: Format, bucket: string)
    ensures Inv(f, bucket, World(map[], map[]))
  {
  }
}
