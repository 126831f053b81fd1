/** Running op for a request: the timeout arithmetic on 64-bit durations, the order of the checks in
    execute, and the meaning of how the run ended (internal/executor/op.go). Durations are nanoseconds. */
module Execution {
  import opened Tokens

  const MILLISECOND: int := 1_000_000
  const DEFAULT_TIMEOUT: int := 60 * SECOND
  const MAX_TIMEOUT: int := 300 * SECOND
  const TIMEOUT_STATUS: int := 124

  const TWO_63: int := 0x8000_0000_0000_0000
  const TWO_64: int := 0x1_0000_0000_0000_0000

  predicate IsInt64(x: int) {
    -TWO_63 <= x < TWO_63
  }

  /** Two's-complement wrap-around of a 64-bit result. */
  function Wrap(x: int): (r: int)
    ensures IsInt64(r)
    ensures IsInt64(x) ==> r == x
  {
    (x + TWO_63) % TWO_64 - TWO_63
  }

  // ---------- Timeouts ----------

  /** The execution limit the daemon derives from a request. */
  function Limit(timeoutMs: int): int {
    if timeoutMs <= 0 then DEFAULT_TIMEOUT
    else if Wrap(timeoutMs * MILLISECOND) > MAX_TIMEOUT then MAX_TIMEOUT
    else Wrap(timeoutMs * MILLISECOND)
  }

  /** The HTTP client's timeout in the proxy. */
  function ClientTimeout(timeoutMs: int): int {
    Wrap(Wrap(timeoutMs * MILLISECOND) + 5 * SECOND)
  }

  /** The server's write timeout. */
  const WRITE_TIMEOUT: int := MAX_TIMEOUT + 10 * SECOND

  const LAST_EXACT_MS: int := 9_223_372_036_854
  const LAST_EXACT_CLIENT_MS: int := 9_223_372_031_854

  /** For every request the limit is at most 300 s, so the server can still write its answer for 10 s. */
  lemma LimitIsBounded(timeoutMs: int)
    requires IsInt64(timeoutMs)
    ensures Limit(timeoutMs) <= MAX_TIMEOUT && WRITE_TIMEOUT - Limit(timeoutMs) >= 10 * SECOND
    ensures timeoutMs <= 0 ==> Limit(timeoutMs) == 60 * SECOND
  {}

  /** The limit is what was asked for, capped, exactly when the product does not overflow or overflows
      to something at or above the cap. */
  lemma LimitIsTheCappedRequest(timeoutMs: int)
    requires IsInt64(timeoutMs) && timeoutMs > 0
    ensures Limit(timeoutMs) == (if timeoutMs < 300_000 then timeoutMs else 300_000) * MILLISECOND
       <==> timeoutMs <= LAST_EXACT_MS || Wrap(timeoutMs * MILLISECOND) >= MAX_TIMEOUT
  {
    if timeoutMs <= LAST_EXACT_MS {
      assert IsInt64(timeoutMs * MILLISECOND);
    }
  }

  /** While nothing overflows the client's timeout is a real one, 5 s or more above the execution limit. */
  lemma ClientOutlivesTheLimit(timeoutMs: int)
    requires 1 <= timeoutMs <= LAST_EXACT_CLIENT_MS
    ensures ClientTimeout(timeoutMs) >= Limit(timeoutMs) + 5 * SECOND > 0
    ensures Limit(timeoutMs) == (if timeoutMs < 300_000 then timeoutMs else 300_000) * MILLISECOND
  {
    assert IsInt64(timeoutMs * MILLISECOND) && IsInt64(timeoutMs * MILLISECOND + 5 * SECOND);
  }

  /** How long the client really waits: net/http takes a timeout of zero or less for none at all. */
  datatype Wait = Forever | For(duration: int)

  function ClientWait(timeoutMs: int): Wait {
    if ClientTimeout(timeoutMs) <= 0 then Forever else For(ClientTimeout(timeoutMs))
  }

  /** The client is still there 5 s after the daemon would have stopped the command. */
  predicate Outlives(timeoutMs: int) {
    ClientWait(timeoutMs).Forever? || ClientWait(timeoutMs).duration >= Limit(timeoutMs) + 5 * SECOND
  }

  /** For every 64-bit value: a positive request always leaves the client its 5 s, overflow or not. The
      margin is lost exactly for a request the daemon takes for its default of 60 s while the client's
      own timeout comes out positive and below 65 s; short of overflow these are 0 and the values above
      -5000. */
  lemma ClientOutlivesExactlyWhen(timeoutMs: int)
    requires IsInt64(timeoutMs)
    ensures Outlives(timeoutMs) <==> timeoutMs > 0 || !(0 < ClientTimeout(timeoutMs) < 65 * SECOND)
    ensures timeoutMs >= -LAST_EXACT_MS ==> (Outlives(timeoutMs) <==> timeoutMs > 0 || timeoutMs <= -5000)
  {
    if -LAST_EXACT_MS <= timeoutMs <= 0 {
      assert IsInt64(timeoutMs * MILLISECOND) && IsInt64(timeoutMs * MILLISECOND + 5 * SECOND);
    }
  }

  // ---------- One execution ----------

  datatype Result = Result(stdout: string, stderr: string, exitCode: int)

  /** What the platform runner reports. ExitCode() of a child killed by a signal is -1. Nothing starts
      under a deadline that has passed, so with a limit of zero or less every run ends as StartFailed. */
  datatype RunEnd = StartFailed | Exited(code: int) | WaitFailed

  /** The host's side of one execution: argument validation's complaint, if any, whether op is found and
      may be launched, how long after the deadline was set the runner returned, and how. */
  datatype Host = Host(refusal: string, found: bool, launchable: bool, elapsed: int, end: RunEnd, stdout: string,
                       stderr: string)

  /** Result or infrastructure error, and whether an op process was started. */
  datatype Outcome = Done(result: Result, started: bool) | Failed(started: bool)

  function RunEndUnder(limit: int, end: RunEnd): RunEnd {
    if limit <= 0 then StartFailed else end
  }

  /** interpretRun. */
  function Interpret(deadline: bool, stdout: string, stderr: string, end: RunEnd): Outcome {
    match end
    case StartFailed => Failed(false)
    case _ =>
      if deadline then Done(Result("", "command timed out", TIMEOUT_STATUS), true)
      else if end.Exited? then Done(Result(stdout, stderr, end.code), true)
      else Failed(true)
  }

  /** Execute. */
  function Executed(timeoutMs: int, h: Host): Outcome {
    if h.refusal != "" then Done(Result("", h.refusal, 1), false)
    else if !h.found || !h.launchable then Failed(false)
    else Interpret(h.elapsed >= Limit(timeoutMs), h.stdout, h.stderr, RunEndUnder(Limit(timeoutMs), h.end))
  }

  /** A request that overflows to a limit of zero or less is an infrastructure error on every host that
      accepts its arguments, and op is not started; the first such request is one millisecond past the
      last exact one. */
  lemma OverflowIsNeverStarted(timeoutMs: int, h: Host)
    requires IsInt64(timeoutMs) && Limit(timeoutMs) <= 0
    ensures !Executed(timeoutMs, h).started && (h.refusal == "" ==> Executed(timeoutMs, h) == Failed(false))
    ensures timeoutMs > LAST_EXACT_MS && Limit(LAST_EXACT_MS + 1) <= 0
  {}

  /** interpretRun with its assignments. */
  method InterpretRun(deadline: bool, stdout: string, stderr: string, end: RunEnd) returns (o: Outcome)
    ensures o == Interpret(deadline, stdout, stderr, end)
    ensures o.started <==> !end.StartFailed?
    ensures o.started && deadline ==> o.Done? && o.result.exitCode == TIMEOUT_STATUS
    ensures !deadline && end.Exited? ==> o == Done(Result(stdout, stderr, end.code), true)
    ensures !deadline && end.WaitFailed? ==> o == Failed(true)
  {
    if end.StartFailed? {
      return Failed(false);
    }
    if deadline {
      return Done(Result("", "command timed out", TIMEOUT_STATUS), true);
    }
    var exitCode := 0;
    if end != Exited(0) {
      if end.WaitFailed? {
        return Failed(true);
      }
      exitCode := end.code;
    }
    return Done(Result(stdout, stderr, exitCode), true);
  }

  /** execute with its assignments. */
  method Execute(timeoutMs: int, h: Host) returns (o: Outcome)
    requires IsInt64(timeoutMs)
    ensures o == Executed(timeoutMs, h)
    ensures o.started <==> h.refusal == "" && h.found && h.launchable && !h.end.StartFailed? && Limit(timeoutMs) > 0
  {
    if h.refusal != "" {
      return Done(Result("", h.refusal, 1), false);
    }
    var timeout := DEFAULT_TIMEOUT;
    if timeoutMs > 0 {
      timeout := Wrap(timeoutMs * MILLISECOND);
      if timeout > MAX_TIMEOUT {
        timeout := MAX_TIMEOUT;
      }
    }
    if !h.found || !h.launchable {
      return Failed(false);
    }
    o := InterpretRun(h.elapsed >= timeout, h.stdout, h.stderr, RunEndUnder(timeout, h.end));
  }

  // ---------- handleExecute ----------

  const OK: nat := 200
  const BAD_REQUEST: nat := 400
  const UNAUTHORIZED: nat := 401
  const METHOD_NOT_ALLOWED: nat := 405
  const UPGRADE_REQUIRED: nat := 426
  const SERVER_ERROR: nat := 500

  /** What an execute request looks like to the handler, apart from its bearer. */
  datatype Request = Request(post: bool, outdated: bool, wellFormed: bool, timeoutMs: int, host: Host)

  /** The handler's answer, and whether it started op. */
  datatype Reply = Reply(status: nat, result: Result, started: bool)

  const NO_RESULT := Result("", "", 0)

  /** handleExecute, given the verdict of authenticateAccess. */
  function Answer(authenticated: bool, r: Request): (reply: Reply)
    ensures reply.status == UNAUTHORIZED <==> r.post && !authenticated
    ensures reply.started ==> authenticated && reply.status != UNAUTHORIZED
  {
    if !r.post then Reply(METHOD_NOT_ALLOWED, NO_RESULT, false)
    else if !authenticated then Reply(UNAUTHORIZED, NO_RESULT, false)
    else if r.outdated then Reply(UPGRADE_REQUIRED, NO_RESULT, false)
    else if !r.wellFormed then Reply(BAD_REQUEST, NO_RESULT, false)
    else
      match Executed(r.timeoutMs, r.host)
      case Failed(started) => Reply(SERVER_ERROR, NO_RESULT, started)
      case Done(result, started) => Reply(OK, result, started)
  }

  /** Everything up to the executor lets the request through. */
  predicate Passes(authenticated: bool, r: Request) {
    r.post && authenticated && !r.outdated && r.wellFormed
  }

  /** op starts for the request. */
  predicate Starts(r: Request) {
    && r.host.refusal == "" && r.host.found && r.host.launchable
    && Limit(r.timeoutMs) > 0 && !r.host.end.StartFailed?
  }

  /** Which answer a request gets, from what is known about it and the host: 200 carries the refusal of its
      arguments with status 1, or the timeout with status 124, or the child's own output and status; 500 is
      a command that could not be started or could not be waited for. */
  lemma AnswersExactlyWhen(authenticated: bool, r: Request)
    ensures var reply, h := Answer(authenticated, r), r.host;
            && (reply.started <==> Passes(authenticated, r) && Starts(r))
            && (reply.status == OK <==>
                 && Passes(authenticated, r)
                 && (h.refusal != "" || (Starts(r) && (h.elapsed >= Limit(r.timeoutMs) || h.end.Exited?))))
            && (reply.status == OK ==>
                 reply.result ==
                 if h.refusal != "" then Result("", h.refusal, 1)
                 else if h.elapsed >= Limit(r.timeoutMs) then Result("", "command timed out", 124)
                 else Result(h.stdout, h.stderr, h.end.code))
            && (reply.status == SERVER_ERROR <==> Passes(authenticated, r) && reply.status != OK)
            && (reply.status == METHOD_NOT_ALLOWED <==> !r.post)
            && (reply.status == UPGRADE_REQUIRED <==> r.post && authenticated && r.outdated)
            && (reply.status == BAD_REQUEST <==> r.post && authenticated && !r.outdated && !r.wellFormed)
  {}
}
