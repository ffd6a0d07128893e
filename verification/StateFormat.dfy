/** A concrete format and a bundle for which all that the publication theorems ask holds,
    so that none of them speaks about nothing. */
module StateFormat {
  import opened Wrappers
  import opened Paths
  import opened Serial
  import opened StateManifest
  import opened StatePublication
  import B = ObjectBucket

  function Word(b: bool): seq<string> {
    if b then [""] else []
  }

  function Optional(text: Option<string>): seq<string> {
    match text
    case None => []
    case Some(s) => [s]
  }

  function CommonLists(c: Common): seq<seq<string>> {
    [[c.specId], [c.resultId], [c.session], Word(c.status.Success?), Word(c.action.PaperBuy?),
     Optional(c.evaluatedAt), Optional(c.decisionId), Optional(c.packageId), c.failureCodes]
  }

  function RecordLists(r: Record): seq<seq<string>> {
    match r
    case AdvisoryRecord(common, text) => [[""], []] + CommonLists(common) + [[text]]
    case RegistrationRecord(alertId, runId, preparation, decision, decisionTime, terms) =>
      [[], []] + [[alertId], [runId], [preparation], Optional(decision), Optional(decisionTime), [terms]]
    case TerminalRecord(common, preparationId, advisoryId, advisorySha, registrationId, rest) =>
      [[], [""]] + CommonLists(common)
      + [[preparationId], [advisoryId], [advisorySha], Optional(registrationId), [rest]]
  }

  function Encode(r: Record): Bytes {
    Serialise(RecordLists(r))
  }

  lemma CommonInjective(c: Common, d: Common)
    requires CommonLists(c) == CommonLists(d)
    ensures c == d
  {
    var a, b := CommonLists(c), CommonLists(d);
    assert forall i :: 0 <= i < 9 ==> a[i] == b[i];
    assert a[0][0] == b[0][0] && a[1][0] == b[1][0] && a[2][0] == b[2][0];
    assert a[3] == b[3] && a[4] == b[4] && a[8] == b[8];
    OptionalInjective(c.evaluatedAt, d.evaluatedAt);
    OptionalInjective(c.decisionId, d.decisionId);
    OptionalInjective(c.packageId, d.packageId);
    assert a[5] == b[5] && a[6] == b[6] && a[7] == b[7];
  }

  lemma OptionalInjective(a: Option<string>, b: Option<string>)
    ensures Optional(a) == Optional(b) <==> a == b
  {
    if a.Some? && b.Some? && Optional(a) == Optional(b) {
      assert Optional(a)[0] == Optional(b)[0];
    }
  }

  /** Different records have different bytes. */
  lemma EncodeInjective(r: Record, s: Record)
    ensures Encode(r) == Encode(s) <==> r == s
  {
    if Encode(r) == Encode(s) {
      SerialiseInjective(RecordLists(r), RecordLists(s));
      RecordsEqual(r, s);
    }
  }

  lemma RecordsEqual(r: Record, s: Record)
    requires RecordLists(r) == RecordLists(s)
    ensures r == s
  {
    var a, b := RecordLists(r), RecordLists(s);
    assert a[0] == b[0] && a[1] == b[1];
    assert KindOf(r) == KindOf(s);
    match r
    case AdvisoryRecord(common, text) =>
      assert a[2..11] == CommonLists(common) && b[2..11] == CommonLists(s.common);
      CommonInjective(common, s.common);
      assert a[11][0] == b[11][0];
    case RegistrationRecord(alertId, runId, preparation, decision, decisionTime, terms) =>
      assert a[2][0] == b[2][0] && a[3][0] == b[3][0] && a[4][0] == b[4][0] && a[7][0] == b[7][0];
      assert a[5] == b[5] && a[6] == b[6];
      OptionalInjective(decision, s.decision);
      OptionalInjective(decisionTime, s.decisionTime);
    case TerminalRecord(common, preparationId, advisoryId, advisorySha, registrationId, rest) =>
      assert a[2..11] == CommonLists(common) && b[2..11] == CommonLists(s.common);
      CommonInjective(common, s.common);
      assert a[11][0] == b[11][0] && a[12][0] == b[12][0] && a[13][0] == b[13][0] && a[15][0] == b[15][0];
      assert a[14] == b[14];
      OptionalInjective(registrationId, s.registrationId);
  }

  ghost function Decode(kind: Kind, bytes: Bytes): Option<Record> {
    if exists r :: KindOf(r) == kind && Encode(r) == bytes
    then
      var r :| KindOf(r) == kind && Encode(r) == bytes;
      Some(r)
    else None
  }

  lemma DecodeEncode(r: Record)
    ensures Decode(KindOf(r), Encode(r)) == Some(r) && Encode(r) != []
  {
    var s := Decode(KindOf(r), Encode(r)).value;
    EncodeInjective(r, s);
  }

  function ArtifactLists(artifacts: seq<Artifact>): (lists: seq<seq<string>>)
    ensures |lists| == |artifacts|
    ensures forall k :: 0 <= k < |artifacts| ==>
              lists[k] == [KindName(artifacts[k].kind), artifacts[k].published.name,
                           Tally(artifacts[k].published.generation), Tally(artifacts[k].published.size),
                           artifacts[k].published.hash]
  {
    if artifacts == [] then []
    else
      var a := artifacts[0];
      [[KindName(a.kind), a.published.name, Tally(a.published.generation), Tally(a.published.size), a.published.hash]]
      + ArtifactLists(artifacts[1..])
  }

  function ManifestLists(m: Manifest): seq<seq<string>> {
    [[m.bucket, m.specId, m.preparationId, m.session, m.terminalId, m.advisoryId],
     Word(m.status.Success?), Word(m.action.PaperBuy?), Optional(m.registrationId)] + ArtifactLists(m.artifacts)
  }

  lemma ArtifactsEqual(a: seq<Artifact>, b: seq<Artifact>)
    requires ArtifactLists(a) == ArtifactLists(b)
    ensures a == b
  {
    forall k | 0 <= k < |a|
      ensures a[k] == b[k]
    {
      var x, y := ArtifactLists(a)[k], ArtifactLists(b)[k];
      assert x[0] == y[0] && x[1] == y[1] && x[2] == y[2] && x[3] == y[3] && x[4] == y[4];
      assert KindName(a[k].kind)[0] == KindName(b[k].kind)[0];
      assert a[k].published.generation == |x[2]| && b[k].published.generation == |y[2]|;
      assert a[k].published.size == |x[3]| && b[k].published.size == |y[3]|;
    }
  }

  /** Different manifests have different lists. */
  lemma ManifestsDiffer(m: Manifest, n: Manifest)
    requires ManifestLists(m) == ManifestLists(n)
    ensures m == n
  {
    var a, b := ManifestLists(m), ManifestLists(n);
    assert a[0] == b[0] && a[1] == b[1] && a[2] == b[2] && a[3] == b[3];
    assert a[0][0] == b[0][0] && a[0][1] == b[0][1] && a[0][2] == b[0][2];
    assert a[0][3] == b[0][3] && a[0][4] == b[0][4] && a[0][5] == b[0][5];
    OptionalInjective(m.registrationId, n.registrationId);
    assert a[4..] == ArtifactLists(m.artifacts) && b[4..] == ArtifactLists(n.artifacts);
    ArtifactsEqual(m.artifacts, n.artifacts);
  }

  function Identity(r: Record): string {
    Digest(Encode(r))
  }

  function PublicationId(m: Manifest): string {
    Digest(Serialise(ManifestLists(m)))
  }

  /** Identities are digests of encodings.  Only the manifest given has an encoding within
      the limit, which is all a format must have. */
  ghost function Concrete(only: Option<Manifest>): Format {
    Format(Digest, Identity, Encode, Decode, PublicationId, m => if Some(m) == only then [0] else [], b => only)
  }

  /** The format digests, identifies and encodes as above. */
  ghost predicate Concretely(f: Format) {
    && (forall b :: f.digest(b) == Digest(b))
    && (forall r :: f.id(r) == Identity(r))
    && (forall r :: f.encode(r) == Encode(r))
  }

  lemma ConcreteIsConcrete(only: Option<Manifest>)
    ensures Concretely(Concrete(only))
  {
  }

  lemma IdentityInjective(r: Record, s: Record)
    ensures Identity(r) == Identity(s) ==> r == s
    ensures NoSlash(Identity(r))
  {
    DigestInjective(Encode(r), Encode(s));
    if Identity(r) == Identity(s) {
      EncodeInjective(r, s);
    }
  }

  lemma RecordsAreSound()
    ensures forall a, b :: Digest(a) == Digest(b) ==> a == b
    ensures forall r, s :: Identity(r) == Identity(s) ==> r == s
    ensures forall r :: NoSlash(Identity(r))
  {
    forall a, b
      ensures Digest(a) == Digest(b) ==> a == b
    {
      DigestInjective(a, b);
    }
    forall r, s
      ensures NoSlash(Identity(r)) && (Identity(r) == Identity(s) ==> r == s)
    {
      IdentityInjective(r, s);
    }
  }

  lemma CodecIsSound()
    ensures forall r :: Decode(KindOf(r), Encode(r)) == Some(r) && Encode(r) != []
    ensures forall k, b, r :: Decode(k, b) == Some(r) ==> KindOf(r) == k && Encode(r) == b
  {
    forall r
      ensures Decode(KindOf(r), Encode(r)) == Some(r) && Encode(r) != []
    {
      DecodeEncode(r);
    }
  }

  lemma PublicationIdInjective(m: Manifest, n: Manifest)
    ensures PublicationId(m) == PublicationId(n) ==> m == n
    ensures NoSlash(PublicationId(m))
  {
    DigestInjective(Serialise(ManifestLists(m)), Serialise(ManifestLists(n)));
    if PublicationId(m) == PublicationId(n) {
      SerialiseInjective(ManifestLists(m), ManifestLists(n));
      ManifestsDiffer(m, n);
    }
  }

  lemma IdentitiesAreSound()
    ensures forall m :: NoSlash(PublicationId(m))
    ensures forall m, n :: PublicationId(m) == PublicationId(n) ==> m == n
  {
    forall m, n
      ensures NoSlash(PublicationId(m)) && (PublicationId(m) == PublicationId(n) ==> m == n)
    {
      PublicationIdInjective(m, n);
    }
  }

  lemma ConcreteIsSound(only: Option<Manifest>)
    ensures Sound(Concrete(only))
  {
    RecordsAreSound();
    CodecIsSound();
    IdentitiesAreSound();
  }

  // ---------------------------------------------------------------- a bundle

  const COMMON := Common("", "", "", Failed, NoTrade, None, None, None, [])
  const ADVISORY := AdvisoryRecord(COMMON, "")

  function FailedRun(): Bundle {
    Bundle(TerminalRecord(COMMON, "", Digest(Encode(ADVISORY)), Digest(Encode(ADVISORY)), None, ""), ADVISORY, None)
  }

  ghost predicate ShortText(text: string, length: nat) {
    |text| <= length && forall i :: 0 <= i < |text| ==> text[i] as int < 512
  }

  /** Lists of at most one short text. */
  ghost predicate Short(lists: seq<seq<string>>, length: nat) {
    forall k :: 0 <= k < |lists| ==>
      |lists[k]| <= 1 && (lists[k] != [] ==> ShortText(lists[k][0], length))
  }

  lemma OneMore(n: nat, each: nat)
    ensures n * each + each == (n + 1) * each
  {
  }

  lemma {:induction false} ShortSize(lists: seq<seq<string>>, length: nat, each: nat)
    requires Short(lists, length) && each == 513 * length + 2
    ensures |Serialise(lists)| <= |lists| * each
  {
    if lists != [] {
      if lists[0] != [] {
        TextSize(lists[0][0]);
        assert ListBytes(lists[0][1..]) == [0];
      }
      assert |ListBytes(lists[0])| <= each;
      ShortSize(lists[1..], length, each);
      OneMore(|lists| - 1, each);
    }
  }

  lemma ShortCommon(length: nat)
    ensures Short(CommonLists(COMMON), length) && |CommonLists(COMMON)| == 9
  {
  }

  lemma ShortJoins(a: seq<seq<string>>, b: seq<seq<string>>, length: nat)
    requires Short(a, length) && Short(b, length)
    ensures Short(a + b, length)
  {
  }

  lemma AdvisoryFits()
    ensures |Encode(ADVISORY)| <= 24
  {
    ShortCommon(0);
    ShortJoins([[""], []], CommonLists(COMMON), 0);
    ShortJoins([[""], []] + CommonLists(COMMON), [[""]], 0);
    assert RecordLists(ADVISORY) == [[""], []] + CommonLists(COMMON) + [[""]];
    ShortSize(RecordLists(ADVISORY), 0, 2);
  }

  lemma ShortOwn(id: string)
    requires ShortText(id, 24)
    ensures Short([[""], [id], [id], [], [""]], 24)
  {
    var lists: seq<seq<string>> := [[""], [id], [id], [], [""]];
    assert ShortText("", 24);
    assert lists[0] == [""] && lists[1] == [id] && lists[2] == [id] && lists[3] == [] && lists[4] == [""];
  }

  function TerminalLists(id: string): seq<seq<string>> {
    [[], [""]] + CommonLists(COMMON) + [[""], [id], [id], [], [""]]
  }

  lemma TerminalSize(id: string)
    requires ShortText(id, 24)
    ensures |Serialise(TerminalLists(id))| <= 16 * 12314
  {
    var tags: seq<seq<string>> := [[], [""]];
    ShortOwn(id);
    ShortCommon(24);
    ShortJoins(tags, CommonLists(COMMON), 24);
    ShortJoins(tags + CommonLists(COMMON), [[""], [id], [id], [], [""]], 24);
    ShortSize(TerminalLists(id), 24, 12314);
  }

  lemma TerminalFits()
    ensures |Encode(FailedRun().terminal)| <= MaximumBytes(Terminal)
  {
    AdvisoryFits();
    DigestInjective(Encode(ADVISORY), Encode(ADVISORY));
    TerminalSize(Digest(Encode(ADVISORY)));
  }

  lemma FailedRunVerifies(f: Format)
    requires Concretely(f)
    ensures PlainTerminal(FailedRun()) && BundleOk(f, FailedRun()) && LineageOk(FailedRun())
  {
  }

  lemma BundleFits(f: Format, b: Bundle)
    requires PlainTerminal(b) && BundleOk(f, b) && b.registration.None?
    requires |f.encode(b.advisory)| <= MaximumBytes(Advisory) && |f.encode(b.terminal)| <= MaximumBytes(Terminal)
    ensures ArtifactsFit(f, b)
  {
    assert Payloads(b) == [b.advisory, b.terminal];
  }

  lemma FailedRunFits(f: Format)
    requires Concretely(f)
    ensures ArtifactsFit(f, FailedRun())
  {
    FailedRunVerifies(f);
    AdvisoryFits();
    TerminalFits();
    BundleFits(f, FailedRun());
  }

  ghost predicate Exhibit(f: Format, bucket: string, b: Bundle, generations: seq<B.Generation>) {
    Sound(f) && |generations| == |Payloads(b)| + 1 && Publishable(f, bucket, map[], b, generations)
  }

  /** Whatever generations the bucket chooses, there is a sound format under which a bundle
      is publishable into an empty bucket. */
  lemma SomethingIsPublishable(bucket: string, generations: seq<B.Generation>)
    requires |generations| == 3
    ensures exists f, b :: Exhibit(f, bucket, b, generations)
  {
    var b := FailedRun();
    var m := ManifestToBe(Concrete(None), bucket, map[], b, generations);
    var f := Concrete(Some(m));
    ConcreteIsSound(Some(m));
    ConcreteIsConcrete(None);
    ConcreteIsConcrete(Some(m));
    FailedRunVerifies(f);
    FailedRunFits(f);
    SameArtifacts(Concrete(None), f, map[], b, generations, 2);
    assert ManifestToBe(f, bucket, map[], b, generations) == m;
    assert f.encodeManifest(m) == [0];
    assert Exhibit(f, bucket, b, generations);
  }

  lemma {:induction false} SameArtifacts(f: Format, g: Format, objects: B.Objects, b: Bundle,
                                         generations: seq<B.Generation>, n: nat)
    requires Concretely(f) && Concretely(g)
    requires b.terminal.TerminalRecord? && n <= |Payloads(b)| && n <= |generations|
    ensures ArtifactsFor(f, objects, b, generations, n) == ArtifactsFor(g, objects, b, generations, n)
  {
    if n != 0 {
      SameArtifacts(f, g, objects, b, generations, n - 1);
    }
  }
}
