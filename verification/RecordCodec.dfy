/** The replay-record codec: a record decodes exactly from its own canonical bytes, as long
    as they fit the reader's limit; nothing else decodes. */
module RecordCodec {
  import opened Wrappers
  import opened StableSort
  import opened HexText
  import opened IsoTime
  import opened JsonText

  const CODEC_VERSION: string := "promoted-graph-replay-manifest-json/v1"
  const MAXIMUM_MANIFEST_BYTES: nat := 4 * 1024 * 1024
  const MAXIMUM_IDS_PER_GROUP: nat := 100_000
  const MAXIMUM_DATES: nat := 100_000

  const KINDS: set<string> := {
    "PROMOTED_IDENTITY_INTAKE", "PROMOTED_IDENTITY_ADJUDICATION", "PROMOTED_IDENTITY_SESSION_UNIVERSE",
    "PROMOTED_SESSION_MARKET_DATA_FRAME", "PROMOTED_SESSION_TICK_SNAPSHOT", "PROMOTED_STABLE_LISTING_HISTORY",
    "PROMOTED_CORPORATE_ACTION_ADJUSTMENT", "PROMOTED_EFFECTIVE_SESSION_TICK" }

  datatype ReplayRecord = ReplayRecord(kind: string, artifactId: string, primary: seq<string>, secondary: seq<string>,
                                       tertiary: seq<string>, dates: seq<Date>, cutoff: Instant)

  predicate IdsOk(ids: seq<string>) {
    |ids| <= MAXIMUM_IDS_PER_GROUP && (forall i :: 0 <= i < |ids| ==> ShaOk(ids[i])) && NoRepeats(ids)
  }

  /** What the encoder demands of a record. */
  predicate RecordOk(r: ReplayRecord) {
    && r.kind in KINDS && ShaOk(r.artifactId) && IdsOk(r.primary) && IdsOk(r.secondary) && IdsOk(r.tertiary)
    && |r.dates| <= MAXIMUM_DATES && (forall i :: 0 <= i < |r.dates| ==> DateOk(r.dates[i])) && NoRepeats(r.dates)
    && InstantOk(r.cutoff)
  }

  function FormatDates(dates: seq<Date>): (texts: seq<string>)
    ensures |texts| == |dates| && forall i :: 0 <= i < |dates| ==> texts[i] == FormatDate(dates[i])
  {
    if dates == [] then [] else [FormatDate(dates[0])] + FormatDates(dates[1..])
  }

  function ParseDates(texts: seq<string>): Option<seq<Date>> {
    if texts == [] then Some([])
    else
      var first, rest := ParseDate(texts[0]), ParseDates(texts[1..]);
      if first.Some? && rest.Some? then Some([first.value] + rest.value) else None
  }

  lemma {:induction false} DatesRoundTrip(dates: seq<Date>)
    requires forall i :: 0 <= i < |dates| ==> DateOk(dates[i])
    ensures ParseDates(FormatDates(dates)) == Some(dates)
  {
    if dates != [] {
      var texts := FormatDates(dates);
      DatesRoundTrip(dates[1..]);
      DateRoundTrip(texts[0], dates[0]);
      assert texts[1..] == FormatDates(dates[1..]);
      assert dates == [dates[0]] + dates[1..];
    }
  }

  /** `isoformat` of an aware UTC cutoff, and its exact inverse. */
  function FormatCutoff(t: Instant): string {
    FormatInstant(t) + "+00:00"
  }

  function ParseCutoff(s: string): Option<Instant> {
    if |s| < 6 || s[|s| - 6..] != "+00:00" then None else ParseInstant(s[..|s| - 6])
  }

  lemma CutoffRoundTrip(s: string, t: Instant)
    ensures ParseCutoff(s) == Some(t) <==> InstantOk(t) && s == FormatCutoff(t)
  {
    if |s| >= 6 {
      InstantRoundTrip(s[..|s| - 6], t);
      assert s == s[..|s| - 6] + s[|s| - 6..];
    }
    if s == FormatCutoff(t) {
      assert s[..|s| - 6] == FormatInstant(t) && s[|s| - 6..] == "+00:00";
    }
  }

  // ---------------------------------------------------------------- the codec

  /** The field names, in the order sorted keys are written. */
  const NAMES: seq<string> := [
    "artifact_id", "codec_schema_version", "cutoff", "dates", "kind", "primary_ids", "secondary_ids", "tertiary_ids"]

  function ValuesOf(r: ReplayRecord): seq<Doc> {
    [Text(r.artifactId), Text(CODEC_VERSION), Text(FormatCutoff(r.cutoff)), Items(TextItems(FormatDates(r.dates))),
     Text(r.kind), Items(TextItems(r.primary)), Items(TextItems(r.secondary)), Items(TextItems(r.tertiary))]
  }

  function DocOf(r: ReplayRecord): Doc {
    Fields(Named(NAMES, ValuesOf(r)))
  }

  function Encode(x: Syntax, r: ReplayRecord): Option<Bytes> {
    if RecordOk(r) then Some(x.render(DocOf(r))) else None
  }

  /** One group of source IDs. */
  function DecodeIds(d: Doc): Option<seq<string>> {
    if !d.Items? || |d.items| > MAXIMUM_IDS_PER_GROUP then None
    else
      match Texts(d.items)
      case Some(ids) => if IdsOk(ids) then Some(ids) else None
      case None => None
  }

  function DecodeDates(d: Doc): Option<seq<Date>> {
    if !d.Items? || |d.items| > MAXIMUM_DATES then None
    else
      var texts := Texts(d.items);
      if texts.None? then None
      else
        var dates := ParseDates(texts.value);
        if dates.Some? && NoRepeats(dates.value) then dates else None
  }

  /** The values of a tree with exactly the expected fields, by position in `NAMES`. */
  function ValuesIn(d: Doc): Option<seq<Doc>> {
    if !d.Fields? || !UniqueKeys(d.fields) || Keys(d.fields) != (set n | n in NAMES) then None
    else Some(seq(8, i requires 0 <= i < 8 => At(d.fields, NAMES[i])))
  }

  function RecordOf(d: Doc, kind: string): Option<ReplayRecord> {
    match ValuesIn(d)
    case None => None
    case Some(v) => RecordFrom(v, kind)
  }

  function RecordFrom(v: seq<Doc>, kind: string): Option<ReplayRecord>
    requires |v| == 8
  {
    if v[1] != Text(CODEC_VERSION) || v[4] != Text(kind) || !v[0].Text? || !ShaOk(v[0].s) || !v[2].Text? then None
    else
      var cutoff, dates := ParseCutoff(v[2].s), DecodeDates(v[3]);
      var primary, secondary, tertiary := DecodeIds(v[5]), DecodeIds(v[6]), DecodeIds(v[7]);
      if cutoff.Some? && dates.Some? && primary.Some? && secondary.Some? && tertiary.Some?
      then Some(ReplayRecord(kind, v[0].s, primary.value, secondary.value, tertiary.value, dates.value, cutoff.value))
      else None
  }

  /** Decoding: bounded, non-empty bytes whose tree gives a record that encodes back to
      them. */
  function Decode(x: Syntax, payload: Bytes, kind: string): Option<ReplayRecord> {
    if !(0 < |payload| <= MAXIMUM_MANIFEST_BYTES) then None
    else
      match x.parse(payload)
      case None => None
      case Some(d) =>
        match RecordOf(d, kind)
        case None => None
        case Some(r) => if Encode(x, r) == Some(payload) then Some(r) else None
  }

  lemma NamesDiffer()
    ensures NoRepeats(NAMES)
  {
    var names := NAMES;
    assert names[0][0] == 'a' && names[1][1] == 'o' && names[2][1] == 'u' && names[3][0] == 'd'
        && names[4][0] == 'k' && names[5][0] == 'p' && names[6][0] == 's' && names[7][0] == 't'
        && names[1][0] == 'c' && names[2][0] == 'c';
  }

  lemma IdsRoundTrip(ids: seq<string>)
    requires IdsOk(ids)
    ensures DecodeIds(Items(TextItems(ids))) == Some(ids)
  {
    TextsOfItems(ids);
  }

  lemma DateListRoundTrip(dates: seq<Date>)
    requires |dates| <= MAXIMUM_DATES && (forall i :: 0 <= i < |dates| ==> DateOk(dates[i])) && NoRepeats(dates)
    ensures DecodeDates(Items(TextItems(FormatDates(dates)))) == Some(dates)
  {
    TextsOfItems(FormatDates(dates));
    DatesRoundTrip(dates);
  }

  lemma ValuesAt(r: ReplayRecord)
    ensures var v := ValuesOf(r);
            && |v| == 8
            && v[0] == Text(r.artifactId) && v[1] == Text(CODEC_VERSION) && v[2] == Text(FormatCutoff(r.cutoff))
            && v[3] == Items(TextItems(FormatDates(r.dates))) && v[4] == Text(r.kind)
            && v[5] == Items(TextItems(r.primary)) && v[6] == Items(TextItems(r.secondary))
            && v[7] == Items(TextItems(r.tertiary))
  {
  }

  lemma ValuesRoundTrip(v: seq<Doc>, r: ReplayRecord)
    requires RecordOk(r) && |v| == 8
    requires v[0] == Text(r.artifactId) && v[1] == Text(CODEC_VERSION) && v[2] == Text(FormatCutoff(r.cutoff))
    requires v[3] == Items(TextItems(FormatDates(r.dates))) && v[4] == Text(r.kind)
    requires v[5] == Items(TextItems(r.primary)) && v[6] == Items(TextItems(r.secondary))
    requires v[7] == Items(TextItems(r.tertiary))
    ensures RecordFrom(v, r.kind) == Some(r)
  {
    IdsRoundTrip(r.primary);
    IdsRoundTrip(r.secondary);
    IdsRoundTrip(r.tertiary);
    DateListRoundTrip(r.dates);
    CutoffRoundTrip(FormatCutoff(r.cutoff), r.cutoff);
  }

  lemma TreeRoundTrip(r: ReplayRecord)
    requires RecordOk(r)
    ensures RecordOf(DocOf(r), r.kind) == Some(r)
  {
    NamesDiffer();
    NamedFound(NAMES, ValuesOf(r));
    assert ValuesIn(DocOf(r)).value == ValuesOf(r);
    ValuesAt(r);
    ValuesRoundTrip(ValuesOf(r), r);
  }

  /** Bytes decode to a record exactly when they are that record's own encoding, the kind is
      the expected one, and they are not over the reader's limit. */
  lemma DecodeIff(x: Syntax, payload: Bytes, kind: string, r: ReplayRecord)
    requires Sound(x)
    ensures Decode(x, payload, kind) == Some(r)
       <==> Encode(x, r) == Some(payload) && r.kind == kind && |payload| <= MAXIMUM_MANIFEST_BYTES
  {
    if Encode(x, r) == Some(payload) && r.kind == kind && |payload| <= MAXIMUM_MANIFEST_BYTES {
      assert x.parse(x.render(DocOf(r))) == Some(DocOf(r)) && x.render(DocOf(r)) != [];
      TreeRoundTrip(r);
    }
  }

  /** At most 100,000 different texts of 64 lowercase hexadecimal digits. */
  predicate GroupInOrder(ids: seq<string>) {
    && |ids| <= 100_000 && (forall i, j :: 0 <= i < j < |ids| ==> ids[i] != ids[j])
    && (forall i :: 0 <= i < |ids| ==> |ids[i]| == 64)
    && forall i, k :: 0 <= i < |ids| && 0 <= k < |ids[i]| ==> '0' <= ids[i][k] <= '9' || 'a' <= ids[i][k] <= 'f'
  }

  lemma GroupIs(ids: seq<string>)
    ensures IdsOk(ids) <==> GroupInOrder(ids)
  {
  }

  /** Nothing but records of different sources and different dates is ever decoded, whatever
      the bytes. */
  lemma DecodedIsInOrder(x: Syntax, payload: Bytes, kind: string)
    requires Sound(x) && Decode(x, payload, kind).Some?
    ensures var r := Decode(x, payload, kind).value;
            && r.kind == kind && |payload| <= 4_194_304
            && GroupInOrder(r.primary) && GroupInOrder(r.secondary) && GroupInOrder(r.tertiary)
            && |r.dates| <= 100_000 && forall i, j :: 0 <= i < j < |r.dates| ==> r.dates[i] != r.dates[j]
  {
    var r := Decode(x, payload, kind).value;
    DecodeIff(x, payload, kind, r);
    assert RecordOk(r);
    GroupIs(r.primary);
    GroupIs(r.secondary);
    GroupIs(r.tertiary);
  }

  // ---------------------------------------------------------------- the reader's limit

  /** Writing keeps at least all texts of the tree. */
  ghost predicate WritesTexts(x: Syntax) {
    forall d :: |x.render(d)| >= TextSize(d)
  }

  lemma {:induction false} PowerAtLeast(width: nat)
    requires width >= 5
    ensures Power(width) >= 100_000
  {
    if width == 5 {
      PowersOfTen();
      assert Power(5) == 10 * Power(4);
    } else {
      PowerAtLeast(width - 1);
    }
  }

  lemma SourcesSize(r: ReplayRecord)
    requires RecordOk(r)
    ensures TextSize(DocOf(r)) >= 64 * |r.primary| && TextSize(DocOf(r)) >= 64 * |r.secondary|
    ensures TextSize(DocOf(r)) >= 64 * |r.tertiary|
  {
    ValuesAt(r);
    var fields := Named(NAMES, ValuesOf(r));
    TextItemsSize(r.primary, 64);
    TextItemsSize(r.secondary, 64);
    TextItemsSize(r.tertiary, 64);
    FieldWithin(fields, 5);
    FieldWithin(fields, 6);
    FieldWithin(fields, 7);
  }

  /** The encoder has no byte limit but the reader has: a record with more than 65,536
      sources in one group, though valid and written, never decodes again. */
  lemma OversizedNeverDecodes(x: Syntax, r: ReplayRecord)
    requires WritesTexts(x) && RecordOk(r)
    requires |r.primary| > 65_536 || |r.secondary| > 65_536 || |r.tertiary| > 65_536
    ensures Encode(x, r).Some? && Decode(x, Encode(x, r).value, r.kind) == None
  {
    SourcesSize(r);
    assert |x.render(DocOf(r))| >= TextSize(DocOf(r));
  }

  /** Many different identities. */
  function ManyIds(count: nat): (ids: seq<string>)
    ensures |ids| == count && forall k :: 0 <= k < count ==> ids[k] == Digits(k, 64)
  {
    seq(count, k requires 0 <= k < count => Digits(k, 64))
  }

  lemma ManyIdsOk(count: nat)
    requires count <= MAXIMUM_IDS_PER_GROUP
    ensures IdsOk(ManyIds(count))
  {
    var ids := ManyIds(count);
    PowerAtLeast(64);
    forall k | 0 <= k < count
      ensures ShaOk(ids[k]) && Number(ids[k]) == k
    {
      NumberOfDigits(k, 64);
    }
  }

  /** There are such records: groups may hold up to 100,000 sources. */
  lemma OversizedExists(count: nat) returns (r: ReplayRecord)
    requires 65_536 < count <= MAXIMUM_IDS_PER_GROUP
    ensures RecordOk(r) && |r.primary| == count
  {
    var ids := ManyIds(count);
    ManyIdsOk(count);
    r := ReplayRecord("PROMOTED_STABLE_LISTING_HISTORY", ids[0], ids, [], [], [],
                      Instant(Date(2026, 1, 1), Clock(0, 0, 0), 0));
  }
}
