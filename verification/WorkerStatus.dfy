/** A worker's status record: its validity rules, its text form and the transitions a
    status file may make. */
module WorkerStatus {
  import opened Wrappers
  import opened StableSort
  import opened HexText
  import opened IsoTime
  import opened JsonText

  datatype Phase = RUNNING | HANDOFF_READY | TERMINAL

  datatype Reason =
    | NONE | SUCCESS | SESSION_LIMIT | RATE_LIMIT | TIMEOUT | LAUNCH_ERROR | PROCESS_EXIT_NONZERO
    | STALE_RUNNING_NO_PROCESS | PRIOR_ATTEMPT_NO_HANDOFF

  datatype Status = Status(token: string, revision: int, phase: Phase, reason: Reason, at: Instant,
                           pid: Option<int>, exitCode: Option<int>)

  const MAXIMUM_STATUS_BYTES: nat := 16384

  /** What the status's constructor enforces. */
  predicate StatusOk(s: Status) {
    && ShaOk(s.token) && s.revision > 0 && InstantOk(s.at)
    && (s.pid.Some? ==> s.pid.value > 0)
    && (if s.phase.TERMINAL? then
          match s.reason
          case NONE => false
          case LAUNCH_ERROR => s.pid.None? && s.exitCode.None?
          case PROCESS_EXIT_NONZERO => s.exitCode.Some? && s.exitCode.value != 0
          case SUCCESS => s.exitCode == Some(0)
          case _ => s.exitCode.None?
        else s.reason.NONE? && s.pid.Some? && s.exitCode.None?)
  }

  /** Which statuses are valid: a reason exactly at the end, an exit code exactly for a
      success or a non-zero exit, and a process ID unless the launch itself failed. */
  lemma StatusOkIff(s: Status)
    ensures StatusOk(s) <==>
      && ShaOk(s.token) && s.revision >= 1 && InstantOk(s.at)
      && (s.reason != NONE <==> s.phase == TERMINAL)
      && (s.exitCode.Some? <==> s.reason == SUCCESS || s.reason == PROCESS_EXIT_NONZERO)
      && (s.exitCode.Some? ==> (s.exitCode.value == 0 <==> s.reason == SUCCESS))
      && (s.reason == LAUNCH_ERROR || s.phase != TERMINAL ==> (s.pid.None? <==> s.reason == LAUNCH_ERROR))
      && (s.pid.Some? ==> s.pid.value >= 1)
  {
  }

  /** `validate_transition`: the same record again, or a later phase of the same task. */
  predicate TransitionOk(previous: Status, current: Status) {
    && previous.token == current.token && previous.revision == current.revision
    && (previous == current
        || (previous.phase.RUNNING? && !current.phase.RUNNING?)
        || (previous.phase.HANDOFF_READY? && current.phase.TERMINAL?))
  }

  function Rank(p: Phase): nat {
    match p
    case RUNNING => 0
    case HANDOFF_READY => 1
    case TERMINAL => 2
  }

  /** A legal transition repeats the record or moves strictly forward, so no status file
      ever takes more than three different values. */
  lemma TransitionsMoveForward(previous: Status, current: Status)
    ensures TransitionOk(previous, current) <==>
      previous.token == current.token && previous.revision == current.revision
      && (previous == current || Rank(previous.phase) < Rank(current.phase))
  {
  }

  // ---------------------------------------------------------------- text form

  const PHASE_NAMES: seq<string> := ["RUNNING", "HANDOFF_READY", "TERMINAL"]

  function PhaseName(p: Phase): string {
    PHASE_NAMES[Rank(p)]
  }

  function PhaseNamed(s: string): Option<Phase> {
    if s == "RUNNING" then Some(RUNNING)
    else if s == "HANDOFF_READY" then Some(HANDOFF_READY)
    else if s == "TERMINAL" then Some(TERMINAL)
    else None
  }

  function ReasonName(r: Reason): string {
    match r
    case NONE => "NONE"
    case SUCCESS => "SUCCESS"
    case SESSION_LIMIT => "SESSION_LIMIT"
    case RATE_LIMIT => "RATE_LIMIT"
    case TIMEOUT => "TIMEOUT"
    case LAUNCH_ERROR => "LAUNCH_ERROR"
    case PROCESS_EXIT_NONZERO => "PROCESS_EXIT_NONZERO"
    case STALE_RUNNING_NO_PROCESS => "STALE_RUNNING_NO_PROCESS"
    case PRIOR_ATTEMPT_NO_HANDOFF => "PRIOR_ATTEMPT_NO_HANDOFF"
  }

  function ReasonNamed(s: string): Option<Reason> {
    if s == "NONE" then Some(NONE)
    else if s == "SUCCESS" then Some(SUCCESS)
    else if s == "SESSION_LIMIT" then Some(SESSION_LIMIT)
    else if s == "RATE_LIMIT" then Some(RATE_LIMIT)
    else if s == "TIMEOUT" then Some(TIMEOUT)
    else if s == "LAUNCH_ERROR" then Some(LAUNCH_ERROR)
    else if s == "PROCESS_EXIT_NONZERO" then Some(PROCESS_EXIT_NONZERO)
    else if s == "STALE_RUNNING_NO_PROCESS" then Some(STALE_RUNNING_NO_PROCESS)
    else if s == "PRIOR_ATTEMPT_NO_HANDOFF" then Some(PRIOR_ATTEMPT_NO_HANDOFF)
    else None
  }

  lemma ReasonNamesRoundTrip(r: Reason)
    ensures ReasonNamed(ReasonName(r)) == Some(r)
  {
    assert |"NONE"| == 4 && |"SUCCESS"| == 7 && |"SESSION_LIMIT"| == 13 && |"RATE_LIMIT"| == 10 && |"TIMEOUT"| == 7
        && |"LAUNCH_ERROR"| == 12 && |"PROCESS_EXIT_NONZERO"| == 20 && |"STALE_RUNNING_NO_PROCESS"| == 24
        && |"PRIOR_ATTEMPT_NO_HANDOFF"| == 24;
    assert "SUCCESS"[0] != "TIMEOUT"[0] && "STALE_RUNNING_NO_PROCESS"[0] != "PRIOR_ATTEMPT_NO_HANDOFF"[0];
  }

  lemma PhaseNamesRoundTrip(p: Phase)
    ensures PhaseNamed(PhaseName(p)) == Some(p)
  {
    assert |"RUNNING"| == 7 && |"HANDOFF_READY"| == 13 && |"TERMINAL"| == 8;
  }

  function Optional(n: Option<int>): Doc {
    match n
    case None => Null
    case Some(k) => Integer(k)
  }

  /** The time with a trailing `Z` for its offset. */
  function FormatZulu(t: Instant): string {
    FormatInstant(t) + "Z"
  }

  function ParseZulu(s: string): Option<Instant> {
    if |s| < 1 || s[|s| - 1] != 'Z' then None else ParseInstant(s[..|s| - 1])
  }

  lemma ZuluRoundTrip(s: string, t: Instant)
    ensures ParseZulu(s) == Some(t) <==> InstantOk(t) && s == FormatZulu(t)
  {
    if |s| >= 1 {
      InstantRoundTrip(s[..|s| - 1], t);
      assert s == s[..|s| - 1] + [s[|s| - 1]];
    }
    if s == FormatZulu(t) {
      assert s[..|s| - 1] == FormatInstant(t);
    }
  }

  const NAMES: seq<string> := [
    "exit_code", "observed_at_utc", "phase", "pid", "reason", "schema_version", "task_revision", "task_token"]

  function ValuesOf(s: Status): seq<Doc> {
    [Optional(s.exitCode), Text(FormatZulu(s.at)), Text(PhaseName(s.phase)), Optional(s.pid), Text(ReasonName(s.reason)),
     Integer(1), Integer(s.revision), Text(s.token)]
  }

  function Serialize(x: Syntax, s: Status): Bytes {
    x.render(Fields(Named(NAMES, ValuesOf(s))))
  }

  predicate OptionalInteger(d: Doc) {
    d.Null? || d.Integer?
  }

  function IntegerOf(d: Doc): Option<int> {
    if d.Integer? then Some(d.n) else None
  }

  function StatusFrom(v: seq<Doc>): Option<Status>
    requires |v| == 8
  {
    if v[5] != Integer(1) || !v[2].Text? || !v[4].Text? || !v[1].Text? || !v[6].Integer? || !v[7].Text?
       || !OptionalInteger(v[0]) || !OptionalInteger(v[3]) then None
    else
      var phase, reason, at := PhaseNamed(v[2].s), ReasonNamed(v[4].s), ParseZulu(v[1].s);
      if phase.None? || reason.None? || at.None? then None
      else
        var s := Status(v[7].s, v[6].n, phase.value, reason.value, at.value, IntegerOf(v[3]), IntegerOf(v[0]));
        if StatusOk(s) then Some(s) else None
  }

  /** Parsing: bounded bytes, no key twice, exactly the expected keys, one schema version,
      canonical time, and a valid status. */
  function Parse(x: Syntax, payload: Bytes): Option<Status> {
    if |payload| > MAXIMUM_STATUS_BYTES then None
    else
      match x.parse(payload)
      case None => None
      case Some(d) =>
        if !d.Fields? || !UniqueKeys(d.fields) || Keys(d.fields) != (set n | n in NAMES) then None
        else StatusFrom(seq(8, i requires 0 <= i < 8 => At(d.fields, NAMES[i])))
  }

  lemma NamesDiffer()
    ensures NoRepeats(NAMES)
  {
    var names := NAMES;
    assert |names[0]| == 9 && |names[1]| == 15 && |names[2]| == 5 && |names[3]| == 3
        && |names[4]| == 6 && |names[5]| == 14 && |names[6]| == 13 && |names[7]| == 10;
  }

  lemma ValuesAt(s: Status)
    ensures var v := ValuesOf(s);
            && |v| == 8
            && v[0] == Optional(s.exitCode) && v[1] == Text(FormatZulu(s.at)) && v[2] == Text(PhaseName(s.phase))
            && v[3] == Optional(s.pid) && v[4] == Text(ReasonName(s.reason)) && v[5] == Integer(1)
            && v[6] == Integer(s.revision) && v[7] == Text(s.token)
  {
  }

  lemma FromParts(v: seq<Doc>, s: Status)
    requires StatusOk(s) && |v| == 8
    requires v[0] == Optional(s.exitCode) && v[3] == Optional(s.pid)
    requires v[5] == Integer(1) && v[6] == Integer(s.revision) && v[7] == Text(s.token)
    requires v[1].Text? && ParseZulu(v[1].s) == Some(s.at)
    requires v[2].Text? && PhaseNamed(v[2].s) == Some(s.phase)
    requires v[4].Text? && ReasonNamed(v[4].s) == Some(s.reason)
    ensures StatusFrom(v) == Some(s)
  {
  }

  lemma ValuesRoundTrip(v: seq<Doc>, s: Status)
    requires StatusOk(s) && |v| == 8
    requires v[0] == Optional(s.exitCode) && v[1] == Text(FormatZulu(s.at)) && v[2] == Text(PhaseName(s.phase))
    requires v[3] == Optional(s.pid) && v[4] == Text(ReasonName(s.reason)) && v[5] == Integer(1)
    requires v[6] == Integer(s.revision) && v[7] == Text(s.token)
    ensures StatusFrom(v) == Some(s)
  {
    PhaseNamesRoundTrip(s.phase);
    ReasonNamesRoundTrip(s.reason);
    ZuluRoundTrip(FormatZulu(s.at), s.at);
    FromParts(v, s);
  }

  /** A valid status parses back from its own text exactly when the text fits the reader's
      limit, and only valid statuses ever parse. */
  lemma StatusRoundTrip(x: Syntax, s: Status)
    requires Sound(x) && StatusOk(s)
    ensures Parse(x, Serialize(x, s)) == Some(s) <==> |Serialize(x, s)| <= MAXIMUM_STATUS_BYTES
  {
    var v := ValuesOf(s);
    var fields := Named(NAMES, v);
    assert x.parse(x.render(Fields(fields))) == Some(Fields(fields));
    NamesDiffer();
    NamedFound(NAMES, v);
    assert seq(8, i requires 0 <= i < 8 => At(fields, NAMES[i])) == v;
    ValuesAt(s);
    ValuesRoundTrip(v, s);
  }

  lemma ParsedIsValid(x: Syntax, payload: Bytes)
    ensures Parse(x, payload).Some? ==> StatusOk(Parse(x, payload).value)
  {
  }
}
