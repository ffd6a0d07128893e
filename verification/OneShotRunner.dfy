/** One supervised worker attempt.  Every external call may fail: each is an answer the
    environment gives, and no answer lets the runner leave a started process unattended. */
module OneShotRunner {
  import opened Wrappers
  import opened StableSort
  import opened Texts
  import opened HexText
  import opened IsoTime
  import opened WorkerStatus

  type Bytes = seq<bv8>

  datatype Request = Request(token: string, revision: int, bytes: Bytes, expectedHash: string)

  datatype Outcome =
    | HandoffReady | SessionLimit | RateLimit | TimedOut | LaunchError | ProcessExitNonzero | PriorAttemptNoHandoff

  /** The plain calls that either work or raise. */
  datatype Point = StatusCheck | ClaimCheck | ClaimDirectory | SnapshotDirectory | SnapshotWrite | RuntimeDirectories
                 | Launch | Terminate

  /** When the snapshot file is read back. */
  datatype Moment = WhenPresent | BeforeLaunch | AfterWait

  datatype Wait = Exits(code: Option<int>) | TimesOut | WaitFails

  /** How a write of a status or claim file fares. */
  datatype Fate = Done | FailsBefore | FailsAfter

  /** The environment's answers; `None` is a call that raises or answers with the wrong
      type, and a clock reading that is not a UTC instant. */
  datatype Env = Env(
    works: Point -> bool, claimFate: Fate, digest: Bytes -> string, readBack: Moment -> Option<Bytes>,
    clock: nat -> Option<Instant>, writeFate: nat -> Fate, pid: Option<int>, wait: Wait,
    handoff: Option<bool>, transcript: Option<string>)

  /** What the request's constructor enforces. */
  predicate RequestOk(r: Request) {
    ShaOk(r.token) && r.revision > 0 && 0 < |r.bytes| <= 262_144
  }

  ghost predicate EnvOk(env: Env) {
    forall k: nat :: env.clock(k).Some? ==> InstantOk(env.clock(k).value)
  }

  // ---------------------------------------------------------------- the settlement table

  predicate SaysSession(tail: string) {
    Contains(tail, "session limit") || Contains(tail, "usage limit")
  }

  predicate SaysRate(tail: string) {
    Contains(tail, "rate limit") || Contains(tail, "too many requests")
  }

  predicate SaysQuota(tail: string) {
    SaysSession(tail) || SaysRate(tail)
  }

  /** The quota a transcript's tail complains of, session before rate. */
  function QuotaOf(tail: string): Option<Reason> {
    if SaysSession(tail) then Some(SESSION_LIMIT) else if SaysRate(tail) then Some(RATE_LIMIT) else None
  }

  /** The final status of an attempt whose process was waited for, and its outcome; an
      attempt may also settle its status and then raise. */
  datatype Settlement = Settlement(phase: Phase, reason: Reason, exitCode: Option<int>, outcome: Option<Outcome>)

  /** What the answers after the wait settle, first match first. */
  function Settled(env: Env, bytes: Bytes): Settlement
    requires !env.wait.WaitFails?
  {
    if !SnapshotIntact(env, bytes) then Settlement(TERMINAL, PRIOR_ATTEMPT_NO_HANDOFF, None, Some(PriorAttemptNoHandoff))
    else if env.handoff.None? then Settlement(TERMINAL, PRIOR_ATTEMPT_NO_HANDOFF, None, None)
    else if env.handoff.value then Settlement(HANDOFF_READY, NONE, None, Some(HandoffReady))
    else if env.wait.TimesOut? then Settlement(TERMINAL, TIMEOUT, None, Some(TimedOut))
    else if env.wait.code.None? || env.transcript.None? then Settlement(TERMINAL, PRIOR_ATTEMPT_NO_HANDOFF, None, None)
    else if QuotaOf(env.transcript.value).Some? then
      var quota := QuotaOf(env.transcript.value).value;
      Settlement(TERMINAL, quota, None, Some(if quota == SESSION_LIMIT then SessionLimit else RateLimit))
    else if env.wait.code.value != 0 then
      Settlement(TERMINAL, PROCESS_EXIT_NONZERO, env.wait.code, Some(ProcessExitNonzero))
    else Settlement(TERMINAL, PRIOR_ATTEMPT_NO_HANDOFF, None, Some(PriorAttemptNoHandoff))
  }

  /** What the fallback writes: the attempt ended without a handoff. */
  const FALLBACK: Settlement := Settlement(TERMINAL, PRIOR_ATTEMPT_NO_HANDOFF, None, None)

  predicate SnapshotIntact(env: Env, bytes: Bytes) {
    env.readBack(AfterWait) == Some(bytes)
  }

  /** The worker ended on its own, without a handoff, and its exit code and transcript are
      known. */
  predicate EndedUnhanded(env: Env, bytes: Bytes) {
    && SnapshotIntact(env, bytes) && env.handoff == Some(false)
    && env.wait.Exits? && env.wait.code.Some? && env.transcript.Some?
  }

  /** What each outcome, and settling without one, means about the answers, order aside. */
  predicate Warrants(env: Env, bytes: Bytes, outcome: Option<Outcome>) {
    var intact := SnapshotIntact(env, bytes);
    match outcome
    case None =>
      && intact && env.handoff != Some(true)
      && (env.handoff.None? || (env.wait.Exits? && (env.wait.code.None? || env.transcript.None?)))
    case Some(HandoffReady) => intact && env.handoff == Some(true)
    case Some(TimedOut) => intact && env.handoff == Some(false) && env.wait.TimesOut?
    case Some(SessionLimit) =>
      EndedUnhanded(env, bytes) && SaysSession(env.transcript.value)
    case Some(RateLimit) =>
      EndedUnhanded(env, bytes) && !SaysSession(env.transcript.value) && SaysRate(env.transcript.value)
    case Some(ProcessExitNonzero) =>
      EndedUnhanded(env, bytes) && !SaysQuota(env.transcript.value) && env.wait.code != Some(0)
    case Some(PriorAttemptNoHandoff) =>
      !intact || (EndedUnhanded(env, bytes) && !SaysQuota(env.transcript.value) && env.wait.code == Some(0))
    case Some(LaunchError) => false
  }

  /** Every waited-for attempt settles with exactly one outcome or with none, and each
      exactly when the answers warrant it. */
  lemma OutcomeIff(env: Env, bytes: Bytes, outcome: Option<Outcome>)
    requires !env.wait.WaitFails?
    ensures Settled(env, bytes).outcome == outcome <==> Warrants(env, bytes, outcome)
  {
  }

  /** A matching handoff always wins: with the snapshot intact, neither how the wait ended,
      nor the exit code, nor the transcript changes anything of the settlement. */
  lemma HandoffWins(env: Env, bytes: Bytes, wait: Wait, transcript: Option<string>)
    requires !env.wait.WaitFails? && !wait.WaitFails? && SnapshotIntact(env, bytes)
    ensures env.handoff == Some(true) ==>
              Settled(env.(wait := wait, transcript := transcript), bytes) == Settled(env, bytes)
              && Settled(env, bytes).outcome == Some(HandoffReady)
    ensures env.handoff != Some(true) ==> Settled(env, bytes).outcome != Some(HandoffReady)
  {
  }

  /** The one outcome a status names, if any. */
  function OutcomeIn(s: Status): Option<Outcome> {
    match s.phase
    case RUNNING => None
    case HANDOFF_READY => Some(HandoffReady)
    case TERMINAL =>
      match s.reason
      case SESSION_LIMIT => Some(SessionLimit)
      case RATE_LIMIT => Some(RateLimit)
      case TIMEOUT => Some(TimedOut)
      case LAUNCH_ERROR => Some(LaunchError)
      case PROCESS_EXIT_NONZERO => Some(ProcessExitNonzero)
      case PRIOR_ATTEMPT_NO_HANDOFF => Some(PriorAttemptNoHandoff)
      case _ => None
  }

  /** A settled outcome is the one its own valid status names. */
  lemma SettledIsNamed(request: Request, env: Env, pid: int, at: Instant)
    requires !env.wait.WaitFails? && Settled(env, request.bytes).outcome.Some?
    requires RequestOk(request) && pid > 0 && InstantOk(at)
    ensures StatusOk(StatusAt(request, Settled(env, request.bytes), pid, at))
    ensures OutcomeIn(StatusAt(request, Settled(env, request.bytes), pid, at)) == Settled(env, request.bytes).outcome
  {
  }

  // ---------------------------------------------------------------- the runtime files

  /** What happened to the process of one attempt. */
  datatype Event = Launched | WaitReturned | WaitRaised | TerminationAttempted

  /** A started process is never left unattended. */
  predicate Attended(trace: seq<Event>) {
    Launched in trace ==> WaitReturned in trace || TerminationAttempted in trace
  }

  /** A started worker process; what is done to it is recorded. */
  class ProcessHandle {
    const pid: Option<int>
    const waiting: Wait
    const terminable: bool
    ghost var trace: seq<Event>

    constructor (env: Env)
      ensures pid == env.pid && waiting == env.wait && terminable == env.works(Terminate)
      ensures trace == [Launched]
    {
      pid, waiting, terminable := env.pid, env.wait, env.works(Terminate);
      trace := [Launched];
    }

    /** Waiting returns an exit code, or raises at the timeout or otherwise. */
    method WaitFor() returns (answer: Wait)
      modifies this
      ensures answer == waiting
      ensures trace == old(trace) + [if waiting.Exits? then WaitReturned else WaitRaised]
    {
      answer := waiting;
      trace := trace + [if waiting.Exits? then WaitReturned else WaitRaised];
    }

    method TerminateTree() returns (ok: bool)
      modifies this
      ensures ok == terminable && trace == old(trace) + [TerminationAttempted]
    {
      ok := terminable;
      trace := trace + [TerminationAttempted];
    }
  }

  /** Statuses written one after the other, each a legal transition. */
  predicate LegalChain(written: seq<Status>) {
    && (forall i :: 0 <= i < |written| ==> StatusOk(written[i]))
    && (forall i :: 0 < i < |written| ==> TransitionOk(written[i - 1], written[i]))
  }

  lemma ChainOneMore(written: seq<Status>, s: Status)
    requires LegalChain(written) && StatusOk(s)
    requires written != [] ==> TransitionOk(written[|written| - 1], s)
    ensures LegalChain(written + [s])
  {
  }

  function StatusAt(request: Request, s: Settlement, pid: int, at: Instant): Status {
    Status(request.token, request.revision, s.phase, s.reason, at, Some(pid), s.exitCode)
  }

  function LaunchErrorStatus(request: Request, at: Instant): Status {
    Status(request.token, request.revision, TERMINAL, LAUNCH_ERROR, at, None, None)
  }

  /** Every status file holds the last of a legal chain. */
  ghost predicate StatusesOk(statuses: map<string, Status>, written: map<string, seq<Status>>) {
    && statuses.Keys == written.Keys
    && (forall t :: t in written ==> ChainFor(written[t], statuses[t]))
  }

  ghost predicate ChainFor(written: seq<Status>, s: Status) {
    written != [] && LegalChain(written) && s == written[|written| - 1]
  }

  ghost function Appended(written: map<string, seq<Status>>, s: Status): map<string, seq<Status>> {
    written[s.token := (if s.token in written then written[s.token] else []) + [s]]
  }

  lemma StatusWritten(statuses: map<string, Status>, written: map<string, seq<Status>>, s: Status)
    requires StatusesOk(statuses, written) && StatusOk(s)
    requires s.token in statuses ==> TransitionOk(statuses[s.token], s)
    ensures StatusesOk(statuses[s.token := s], Appended(written, s))
  {
    var before := if s.token in written then written[s.token] else [];
    assert s.token in written ==> ChainFor(written[s.token], statuses[s.token]);
    ChainOneMore(before, s);
    assert ChainFor(before + [s], s);
  }

  /** The status files after one write. */
  function StatusesAfter(statuses: map<string, Status>, s: Status, fate: Fate): map<string, Status> {
    if (s.token in statuses && !TransitionOk(statuses[s.token], s)) || fate.FailsBefore? then statuses
    else statuses[s.token := s]
  }

  /** The status files after an attempt is settled: its status, when the clock answers. */
  function SettledStatuses(statuses: map<string, Status>, request: Request, env: Env, s: Settlement, pid: int):
    map<string, Status>
  {
    if env.clock(1).None? then statuses
    else StatusesAfter(statuses, StatusAt(request, s, pid, env.clock(1).value), env.writeFate(1))
  }

  /** The final status goes in. */
  predicate FinalWritten(env: Env) {
    env.clock(1).Some? && env.writeFate(1).Done?
  }

  class RuntimeFiles {
    var claims: set<string>
    var snapshots: map<string, Bytes>
    var statuses: map<string, Status>
    ghost var written: map<string, seq<Status>>
    ghost var launches: seq<string>

    /** No status file made an illegal transition; no token was launched twice, nor without
        its claim. */
    ghost predicate Valid()
      reads this
    {
      StatusesOk(statuses, written) && NoRepeats(launches) && forall t :: t in launches ==> t in claims
    }

    /** `_safe_write_status`: validate the transition, then replace the file. */
    method WriteStatus(s: Status, fate: Fate) returns (ok: bool)
      requires Valid() && StatusOk(s)
      modifies this`statuses, this`written
      ensures Valid()
      ensures ok <==> fate.Done? && (s.token in old(statuses) ==> TransitionOk(old(statuses)[s.token], s))
      ensures statuses == StatusesAfter(old(statuses), s, fate)
    {
      if s.token in statuses && !TransitionOk(statuses[s.token], s) {
        return false;
      }
      if !fate.FailsBefore? {
        StatusWritten(statuses, written, s);
        statuses := statuses[s.token := s];
        written := Appended(written, s);
      }
      ok := fate.Done?;
    }

    /** Everything before the launch: the checks, the exclusive claim, the snapshot. */
    method Prepare(request: Request, env: Env) returns (ok: bool)
      requires Valid() && RequestOk(request)
      modifies this`claims, this`snapshots
      ensures Valid()
      ensures ok == Preparable(request, env, old(claims), old(snapshots), statuses)
      ensures claims == if Claimable(request, env, old(claims), statuses) then old(claims) + {request.token} else old(claims)
      ensures snapshots == old(snapshots) || snapshots == old(snapshots)[request.expectedHash := request.bytes]
    {
      if !env.works(StatusCheck) || request.token in statuses || !env.works(ClaimCheck) || request.token in claims {
        return false;
      }
      if !env.works(ClaimDirectory) || env.claimFate.FailsBefore? {
        return false;
      }
      claims := claims + {request.token};
      if env.claimFate.FailsAfter? || env.digest(request.bytes) != request.expectedHash || !env.works(SnapshotDirectory) {
        return false;
      }
      if request.expectedHash in snapshots {
        if env.readBack(WhenPresent) != Some(request.bytes) {
          return false;
        }
      } else {
        if !env.works(SnapshotWrite) {
          return false;
        }
        snapshots := snapshots[request.expectedHash := request.bytes];
      }
      ok := env.readBack(BeforeLaunch) == Some(request.bytes) && env.works(RuntimeDirectories);
    }

    /** A launch that failed, or gave a handle without a usable process ID. */
    method SettleLaunchError(request: Request, env: Env) returns (r: Result<Outcome>)
      requires Valid() && RequestOk(request) && EnvOk(env) && request.token !in statuses
      modifies this`statuses, this`written
      ensures Valid()
      ensures r.Returned? <==> env.clock(0).Some? && env.writeFate(0).Done?
      ensures r.Returned? ==> r.value == LaunchError
                              && statuses == old(statuses)[request.token := LaunchErrorStatus(request, env.clock(0).value)]
    {
      if env.clock(0).None? {
        return Raised;
      }
      var ok := WriteStatus(LaunchErrorStatus(request, env.clock(0).value), env.writeFate(0));
      r := if ok then Returned(LaunchError) else Raised;
    }

    /** The running status, before the wait. */
    method WriteRunning(request: Request, env: Env, pid: int) returns (ok: bool)
      requires Valid() && RequestOk(request) && EnvOk(env) && request.token !in statuses && pid > 0
      modifies this`statuses, this`written
      ensures Valid()
      ensures ok <==> env.clock(0).Some? && env.writeFate(0).Done?
      ensures ok ==> request.token in statuses && statuses[request.token].phase.RUNNING?
                     && statuses[request.token].revision == request.revision
                     && statuses[request.token].token == request.token
    {
      if env.clock(0).None? {
        return false;
      }
      var running := StatusAt(request, Settlement(RUNNING, NONE, None, None), pid, env.clock(0).value);
      ok := WriteStatus(running, env.writeFate(0));
    }

    /** The attempt's process is under way with this status file. */
    ghost predicate Running(request: Request)
      reads this
    {
      && request.token in statuses && statuses[request.token].phase.RUNNING?
      && statuses[request.token].revision == request.revision && statuses[request.token].token == request.token
    }

    /** One final status: the clock, then the checked write. */
    method WriteFinal(request: Request, env: Env, pid: int, s: Settlement) returns (ok: bool)
      requires Valid() && RequestOk(request) && EnvOk(env) && pid > 0 && Running(request)
      requires s.phase != RUNNING && forall at :: InstantOk(at) ==> StatusOk(StatusAt(request, s, pid, at))
      modifies this`statuses, this`written
      ensures Valid() && ok == FinalWritten(env)
      ensures statuses == SettledStatuses(old(statuses), request, env, s, pid)
    {
      var now := env.clock(1);
      if now.None? {
        return false;
      }
      ok := WriteStatus(StatusAt(request, s, pid, now.value), env.writeFate(1));
    }

    /** `_safe_fallback_terminal`: the attempt ends without a handoff. */
    method FallbackTerminal(request: Request, env: Env, pid: int) returns (ok: bool)
      requires Valid() && RequestOk(request) && EnvOk(env) && pid > 0 && Running(request)
      modifies this`statuses, this`written
      ensures Valid() && ok == FinalWritten(env)
      ensures statuses == SettledStatuses(old(statuses), request, env, FALLBACK, pid)
    {
      ok := WriteFinal(request, env, pid, FALLBACK);
    }

    /** A final status and, when it went in, its outcome. */
    method Conclude(request: Request, env: Env, pid: int, s: Settlement) returns (r: Result<Outcome>)
      requires Valid() && RequestOk(request) && EnvOk(env) && pid > 0 && Running(request) && s.outcome.Some?
      requires s.phase != RUNNING && forall at :: InstantOk(at) ==> StatusOk(StatusAt(request, s, pid, at))
      modifies this`statuses, this`written
      ensures Valid()
      ensures r == if FinalWritten(env) then Returned(s.outcome.value) else Raised
      ensures statuses == SettledStatuses(old(statuses), request, env, s, pid)
    {
      var ok := WriteFinal(request, env, pid, s);
      r := if ok then Returned(s.outcome.value) else Raised;
    }

    /** The transcript's tail is read and classified, then the exit code. */
    method SettleEnded(request: Request, env: Env, pid: int, code: int) returns (r: Result<Outcome>)
      requires Valid() && RequestOk(request) && EnvOk(env) && pid > 0 && Running(request)
      requires SnapshotIntact(env, request.bytes) && env.handoff == Some(false) && env.wait == Exits(Some(code))
      modifies this`statuses, this`written
      ensures Valid() && r == SettledResult(env, request.bytes)
      ensures statuses == SettledStatuses(old(statuses), request, env, Settled(env, request.bytes), pid)
    {
      var tail := env.transcript;
      if tail.None? {
        var _ := FallbackTerminal(request, env, pid);
        return Raised;
      }
      if SaysSession(tail.value) {
        r := Conclude(request, env, pid, Settlement(TERMINAL, SESSION_LIMIT, None, Some(SessionLimit)));
      } else if SaysRate(tail.value) {
        r := Conclude(request, env, pid, Settlement(TERMINAL, RATE_LIMIT, None, Some(RateLimit)));
      } else if code != 0 {
        r := Conclude(request, env, pid, Settlement(TERMINAL, PROCESS_EXIT_NONZERO, Some(code), Some(ProcessExitNonzero)));
      } else {
        r := Conclude(request, env, pid, Settlement(TERMINAL, PRIOR_ATTEMPT_NO_HANDOFF, None, Some(PriorAttemptNoHandoff)));
      }
    }

    /** After the wait, call by call: read the snapshot back, look for a handoff, then the
        timeout, the exit code, the transcript.  A call that fails leaves the fallback
        status and raises.  Whatever fails, result and status file are those of the
        table. */
    method Settle(request: Request, env: Env, pid: int, timedOut: bool, exitCode: Option<int>) returns (r: Result<Outcome>)
      requires Valid() && RequestOk(request) && EnvOk(env) && pid > 0 && Running(request)
      requires env.wait == if timedOut then TimesOut else Exits(exitCode)
      modifies this`statuses, this`written
      ensures Valid() && r == SettledResult(env, request.bytes)
      ensures statuses == SettledStatuses(old(statuses), request, env, Settled(env, request.bytes), pid)
    {
      var read := env.readBack(AfterWait);
      if read != Some(request.bytes) {
        var ok := FallbackTerminal(request, env, pid);
        return if ok then Returned(PriorAttemptNoHandoff) else Raised;
      }
      var handoff := env.handoff;
      if handoff.None? {
        var _ := FallbackTerminal(request, env, pid);
        return Raised;
      }
      if handoff.value {
        r := Conclude(request, env, pid, Settlement(HANDOFF_READY, NONE, None, Some(HandoffReady)));
      } else if !timedOut && exitCode.None? {
        var _ := FallbackTerminal(request, env, pid);
        r := Raised;
      } else if timedOut {
        r := Conclude(request, env, pid, Settlement(TERMINAL, TIMEOUT, None, Some(TimedOut)));
      } else {
        r := SettleEnded(request, env, pid, exitCode.value);
      }
    }

    /** The running status, or a last attempt to stop a process whose status could not be
        written. */
    method Begin(request: Request, env: Env, handle: ProcessHandle, pid: int) returns (ok: bool)
      requires Valid() && RequestOk(request) && EnvOk(env) && request.token !in statuses && pid > 0
      modifies this`statuses, this`written, handle
      ensures Valid() && ok == StatusOnly(env).Returned?
      ensures ok ==> Running(request)
      ensures handle.trace == old(handle.trace) + if ok then [] else [TerminationAttempted]
    {
      ok := WriteRunning(request, env, pid);
      if !ok {
        var _ := handle.TerminateTree();
      }
    }

    /** Waiting, with termination whenever the wait does not return. */
    method Await(handle: ProcessHandle) returns (answer: Wait, stopped: bool)
      modifies handle
      ensures answer == handle.waiting && stopped == (answer.Exits? || handle.terminable)
      ensures handle.trace == old(handle.trace)
                + if answer.Exits? then [WaitReturned] else [WaitRaised, TerminationAttempted]
    {
      answer := handle.WaitFor();
      stopped := true;
      if !answer.Exits? {
        stopped := handle.TerminateTree();
      }
    }

    /** A returned outcome is the one the status file names. */
    ghost predicate StatusNames(request: Request, r: Result<Outcome>)
      reads this
    {
      r.Returned? ==> request.token in statuses && OutcomeIn(statuses[request.token]) == Some(r.value)
    }

    /** The settlement after a wait that returned or timed out. */
    method SettleWaited(request: Request, env: Env, pid: int, answer: Wait) returns (r: Result<Outcome>)
      requires Valid() && RequestOk(request) && EnvOk(env) && pid > 0 && Running(request)
      requires answer == env.wait && !answer.WaitFails?
      modifies this`statuses, this`written
      ensures Valid() && r == SettledResult(env, request.bytes)
      ensures StatusNames(request, r)
    {
      r := Settle(request, env, pid, answer.TimesOut?, if answer.Exits? then answer.code else None);
      if r.Returned? {
        SettledIsNamed(request, env, pid, env.clock(1).value);
      }
    }

    /** A started process with a usable ID: the running status, the wait, and the
        settlement. */
    method SuperviseRunning(request: Request, env: Env, handle: ProcessHandle, pid: int) returns (r: Result<Outcome>)
      requires Valid() && RequestOk(request) && EnvOk(env) && request.token !in statuses
      requires handle.waiting == env.wait && handle.terminable == env.works(Terminate)
      requires env.pid == Some(pid) && pid > 0
      modifies this`statuses, this`written, handle
      ensures Valid()
      ensures handle.trace == old(handle.trace) + Handled(env)
      ensures StatusNames(request, r)
      ensures r == Supervised(env, request.bytes)
    {
      r := Raised;
      var begun := Begin(request, env, handle, pid);
      if begun {
        var answer, stopped := Await(handle);
        if !answer.WaitFails? && stopped {
          r := SettleWaited(request, env, pid, answer);
        }
      }
    }

    /** From the handle on; one without a usable process ID is terminated. */
    method Supervise(request: Request, env: Env, handle: ProcessHandle) returns (r: Result<Outcome>)
      requires Valid() && RequestOk(request) && EnvOk(env) && request.token !in statuses
      requires handle.pid == env.pid && handle.waiting == env.wait && handle.terminable == env.works(Terminate)
      modifies this`statuses, this`written, handle
      ensures Valid()
      ensures handle.trace == old(handle.trace) + Handled(env)
      ensures StatusNames(request, r)
      ensures r == Supervised(env, request.bytes)
    {
      if handle.pid.None? || handle.pid.value <= 0 {
        r := Raised;
        var stopped := handle.TerminateTree();
        if stopped {
          r := SettleLaunchError(request, env);
        }
      } else {
        r := SuperviseRunning(request, env, handle, handle.pid.value);
      }
    }

    /** The launcher either raises or gives a handle to a started process. */
    method LaunchWorker(request: Request, env: Env) returns (handle: Option<ProcessHandle>)
      requires Valid() && request.token !in launches && request.token in claims
      modifies this`launches
      ensures Valid()
      ensures handle.Some? == env.works(Launch)
      ensures launches == old(launches) + if handle.Some? then [request.token] else []
      ensures handle.Some? ==>
        && fresh(handle.value) && handle.value.trace == [Launched] && handle.value.pid == env.pid
        && handle.value.waiting == env.wait && handle.value.terminable == env.works(Terminate)
    {
      handle := None;
      if env.works(Launch) {
        var started := new ProcessHandle(env);
        handle := Some(started);
        launches := launches + [request.token];
      }
    }

    /** The whole attempt.  A launched process was waited for or its termination attempted;
        a returned outcome is the one the status file names; a token is launched at most
        once, ever, and only under its own new claim. */
    method Run(request: Request, env: Env) returns (r: Result<Outcome>, handle: Option<ProcessHandle>)
      requires Valid() && RequestOk(request) && EnvOk(env)
      modifies this
      ensures Valid()
      ensures handle.Some? ==> Attended(handle.value.trace) && handle.value.trace == [Launched] + Handled(env)
      ensures r.Returned? ==> request.token in statuses && OutcomeIn(statuses[request.token]) == Some(r.value)
      ensures handle.Some? <==>
        Preparable(request, env, old(claims), old(snapshots), old(statuses)) && env.works(Launch)
      ensures handle.Some? ==> request.token !in old(launches) && request.token in claims
      ensures handle.Some? ==> Safeguarded(request, env) && request.token !in old(claims)
                               && request.token !in old(statuses)
      ensures Unhindered(request, env) && request.token !in old(claims) && request.token !in old(statuses) ==>
                handle.Some? == env.works(Launch)
      ensures launches == old(launches) + if handle.Some? then [request.token] else []
      ensures r == if handle.Some? then Supervised(env, request.bytes)
                   else if Preparable(request, env, old(claims), old(snapshots), old(statuses)) then StatusOnly(env)
                   else Raised
    {
      r, handle := Raised, None;
      var ready := Prepare(request, env);
      if ready {
        handle := LaunchWorker(request, env);
        if handle.Some? {
          r := Supervise(request, env, handle.value);
          HandledIsAttended(env);
        } else {
          r := SettleLaunchError(request, env);
        }
      }
    }
  }

  /** What is done to a started process: waited for, or terminated when its ID is unusable,
      its running status cannot be written, or the wait does not return. */
  function Handled(env: Env): seq<Event> {
    if env.pid.None? || env.pid.value <= 0 || StatusOnly(env).Raised? then [TerminationAttempted]
    else if env.wait.Exits? then [WaitReturned]
    else [WaitRaised, TerminationAttempted]
  }

  lemma HandledIsAttended(env: Env)
    ensures Attended([Launched] + Handled(env))
  {
    var trace := [Launched] + Handled(env);
    assert trace[|trace| - 1] == WaitReturned || trace[|trace| - 1] == TerminationAttempted;
  }

  /** What a launch relies on: the bytes have the hash that was expected of them, the claim
      is durable, and the snapshot was read back as those very bytes just before. */
  predicate Safeguarded(request: Request, env: Env) {
    && env.digest(request.bytes) == request.expectedHash && env.claimFate.Done?
    && env.readBack(BeforeLaunch) == Some(request.bytes)
  }

  /** Every plain call works and every snapshot read gives back the bytes. */
  ghost predicate Unhindered(request: Request, env: Env) {
    && Safeguarded(request, env) && (forall p: Point :: p != Launch ==> env.works(p))
    && (forall m: Moment :: env.readBack(m) == Some(request.bytes))
  }

  /** The exclusive claim is made: nothing of an earlier attempt was there. */
  predicate Claimable(request: Request, env: Env, claims: set<string>, statuses: map<string, Status>) {
    && env.works(StatusCheck) && request.token !in statuses && env.works(ClaimCheck) && request.token !in claims
    && env.works(ClaimDirectory) && !env.claimFate.FailsBefore?
  }

  /** Exactly when an attempt gets as far as launching. */
  predicate Preparable(request: Request, env: Env, claims: set<string>, snapshots: map<string, Bytes>,
                       statuses: map<string, Status>)
  {
    && Claimable(request, env, claims, statuses) && env.claimFate.Done?
    && env.digest(request.bytes) == request.expectedHash && env.works(SnapshotDirectory)
    && (if request.expectedHash in snapshots then env.readBack(WhenPresent) == Some(request.bytes)
        else env.works(SnapshotWrite))
    && env.readBack(BeforeLaunch) == Some(request.bytes) && env.works(RuntimeDirectories)
  }

  /** A launch error that only needs its status written. */
  function StatusOnly(env: Env): Result<Outcome> {
    if env.clock(0).Some? && env.writeFate(0).Done? then Returned(LaunchError) else Raised
  }

  /** What comes of a waited-for attempt. */
  function SettledResult(env: Env, bytes: Bytes): Result<Outcome>
    requires !env.wait.WaitFails?
  {
    if FinalWritten(env) && Settled(env, bytes).outcome.Some? then Returned(Settled(env, bytes).outcome.value) else Raised
  }

  /** What comes of an attempt once it has a handle: without a usable process ID a launch
      error, after a wait the settlement, and an error only for a failing call. */
  function Supervised(env: Env, bytes: Bytes): Result<Outcome> {
    if env.pid.None? || env.pid.value <= 0 then if env.works(Terminate) then StatusOnly(env) else Raised
    else if StatusOnly(env).Raised? || env.wait.WaitFails? || (env.wait.TimesOut? && !env.works(Terminate)) then Raised
    else SettledResult(env, bytes)
  }

  /** A process with a usable ID was started, its running status and its final one were
      written, and its wait ended: by itself, or at the timeout with the process stopped. */
  predicate RanThrough(env: Env) {
    && env.pid.Some? && env.pid.value > 0
    && env.clock(0).Some? && env.writeFate(0).Done? && env.clock(1).Some? && env.writeFate(1).Done?
    && (env.wait.Exits? || (env.wait.TimesOut? && env.works(Terminate)))
  }

  /** Which outcome a started attempt returns, and that it raises otherwise: after a whole
      run exactly the warranted one; a launch error exactly when a process without a usable
      ID was stopped and that was written down. */
  lemma ReturnsIff(env: Env, bytes: Bytes, outcome: Outcome)
    ensures Supervised(env, bytes) == Returned(outcome) <==>
      || (RanThrough(env) && Warrants(env, bytes, Some(outcome)))
      || (outcome == LaunchError && (env.pid.None? || env.pid.value <= 0) && env.works(Terminate)
          && env.clock(0).Some? && env.writeFate(0).Done?)
  {
    if RanThrough(env) {
      OutcomeIff(env, bytes, Some(outcome));
    }
  }

  /** What a waited-for attempt leaves in its status file: a handoff is not terminal and has
      neither reason nor exit code; anything else is terminal, with the exit code exactly
      for a non-zero exit; and an attempt that settles without an outcome is recorded as one
      without a handoff. */
  lemma SettlementIs(env: Env, bytes: Bytes)
    requires !env.wait.WaitFails?
    ensures var s := Settled(env, bytes);
            && (s.phase == HANDOFF_READY <==> Warrants(env, bytes, Some(HandoffReady)))
            && (s.phase == TERMINAL <==> !Warrants(env, bytes, Some(HandoffReady)))
            && (s.reason == NONE <==> s.phase == HANDOFF_READY)
            && s.exitCode == (if Warrants(env, bytes, Some(ProcessExitNonzero)) then env.wait.code else None)
            && (Warrants(env, bytes, None) ==> s.reason == PRIOR_ATTEMPT_NO_HANDOFF)
  {
  }
}
