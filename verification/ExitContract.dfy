/** From how op ended on the host to what the caller of the shim sees: the proxy's error value, the
    process exit code, and the shim script's decision to run the real op
    (cmd/proxy.go, main.go, cmd/install.go). */
module ExitContract {
  import opened Execution

  const INFRA_FAILURE: int := 127

  /** What a command returns to main: nil, an ExitStatus, or any other error. */
  datatype CommandError = Nil | ExitStatus(code: int) | OtherError

  /** The tail of runProxy: how the last execute reply, or its absence, becomes an error value. */
  datatype Received = NothingReceived | Received(reply: Reply, decodable: bool)

  function ProxyError(r: Received): CommandError {
    if r.NothingReceived? || r.reply.status != OK || !r.decodable then ExitStatus(INFRA_FAILURE)
    else if r.reply.result.exitCode == 0 then Nil
    else ExitStatus(r.reply.result.exitCode)
  }

  /** main.run, and the low byte the operating system keeps of it. */
  function ProcessStatus(e: CommandError): int {
    (match e case Nil => 0 case ExitStatus(n) => n case OtherError => 1) % 256
  }

  // ---------- The shim ----------

  /** The paths recorded in the shim, what `command -v op-forward` prints, and which files can be
      executed. */
  datatype Machine = Machine(recorded: string, realOp: string, onPath: string, executable: set<string>) {
    /** test -x, which is false of the empty path. */
    predicate Runnable(path: string) {
      path != "" && path in executable
    }

    /** Some op-forward binary is found. */
    predicate HasProxy() {
      Runnable(recorded) || Runnable(onPath)
    }
  }

  /** Where the shim ends: with a status of its own, or replaced by the real op. */
  datatype ShimEnd = Exits(status: int) | RunsRealOp

  function ShimDecision(m: Machine, proxyStatus: int): ShimEnd {
    if m.HasProxy() && proxyStatus != INFRA_FAILURE then Exits(proxyStatus)
    else if m.Runnable(m.realOp) then RunsRealOp
    else Exits(1)
  }

  /** The script with its two variables. The recorded binary is preferred to the one on PATH. */
  method RunShim(m: Machine, proxyStatus: int) returns (end: ShimEnd, proxyRan: bool, opForwardBin: string)
    ensures end == ShimDecision(m, proxyStatus)
    ensures proxyRan <==> opForwardBin != "" && opForwardBin in m.executable
    ensures opForwardBin == if m.recorded != "" && m.recorded in m.executable then m.recorded else m.onPath
    ensures proxyRan && proxyStatus != 127 ==> end == Exits(proxyStatus)
    ensures !(proxyRan && proxyStatus != 127) ==>
              end == if m.realOp != "" && m.realOp in m.executable then RunsRealOp else Exits(1)
  {
    proxyRan := false;
    opForwardBin := m.recorded;
    if !m.Runnable(opForwardBin) {
      opForwardBin := m.onPath;
    }
    if opForwardBin != "" && m.Runnable(opForwardBin) {
      proxyRan := true;
      var exit := proxyStatus;
      if exit != 127 {
        return Exits(exit), proxyRan, opForwardBin;
      }
    }
    if m.realOp != "" && m.Runnable(m.realOp) {
      return RunsRealOp, proxyRan, opForwardBin;
    }
    end := Exits(1);
  }

  /** The shim never ends with 127 itself: it relays any other status of a proxy it found, and ends with 1
      exactly when it relays a 1 or has nothing left to run. */
  lemma ShimNeverEndsWith127(m: Machine, proxyStatus: int)
    ensures ShimDecision(m, proxyStatus) != Exits(INFRA_FAILURE)
    ensures ShimDecision(m, proxyStatus) == Exits(1) <==>
            || (m.HasProxy() && proxyStatus == 1)
            || (!m.Runnable(m.realOp) && (!m.HasProxy() || proxyStatus == INFRA_FAILURE))
  {}

  /** A command ends the process with 0 exactly when it reports nothing, or a status that the low byte
      turns into 0; an error of any other kind is 1. */
  lemma ZeroExactlyWhen(e: CommandError)
    ensures ProcessStatus(e) == 0 <==> e.Nil? || (e.ExitStatus? && e.code % 256 == 0)
    ensures e.OtherError? ==> ProcessStatus(e) == 1
    ensures e.ExitStatus? && 0 <= e.code <= 255 ==> ProcessStatus(e) == e.code
  {}

  // ---------- End to end ----------

  /** What the caller of `op` gets when the daemon's reply to an authenticated request r arrives. */
  function EndToEnd(m: Machine, r: Request): ShimEnd {
    ShimDecision(m, ProcessStatus(ProxyError(Received(Answer(true, r), true))))
  }

  /** The caller sees a completed run's own status, and the real op stays out of it, exactly when the
      low byte of that status is not 127; otherwise the real op runs if there is one. */
  lemma CompletedRunIsRelayed(m: Machine, r: Request)
    requires m.HasProxy() && Answer(true, r).status == OK
    ensures var code := Answer(true, r).result.exitCode;
            && (code % 256 != INFRA_FAILURE <==> EndToEnd(m, r) == Exits(code % 256))
            && (0 <= code <= 255 && code != INFRA_FAILURE ==> EndToEnd(m, r) == Exits(code))
            && (EndToEnd(m, r).RunsRealOp? <==> code % 256 == INFRA_FAILURE && m.Runnable(m.realOp))
            && code == if r.host.refusal != "" then 1
                       else if r.host.elapsed >= Limit(r.timeoutMs) then TIMEOUT_STATUS else r.host.end.code
  {
    AnswersExactlyWhen(true, r);
  }

  /** What op printed and the low byte of its own status arrive, if it ended in time and that byte is not
      127. */
  lemma ChildsOwnStatusArrives(m: Machine, r: Request)
    requires m.HasProxy() && Passes(true, r) && Starts(r)
    requires r.host.elapsed < Limit(r.timeoutMs) && r.host.end.Exited?
    ensures Answer(true, r) == Reply(OK, Result(r.host.stdout, r.host.stderr, r.host.end.code), true)
    ensures r.host.end.code % 256 != INFRA_FAILURE ==> EndToEnd(m, r) == Exits(r.host.end.code % 256)
  {}

  /** The caller is told of success exactly when op ended in time on the host with a status whose low byte
      is 0. */
  lemma SuccessExactlyWhen(m: Machine, r: Request)
    requires m.HasProxy()
    ensures EndToEnd(m, r) == Exits(0) <==>
            && Passes(true, r) && Starts(r)
            && r.host.elapsed < Limit(r.timeoutMs) && r.host.end.Exited? && r.host.end.code % 256 == 0
  {
    AnswersExactlyWhen(true, r);
  }

  /** Arguments the host refuses are reported with status 1 and the reason, and nothing is started. */
  lemma RefusedArgumentsAreStatus1(m: Machine, r: Request)
    requires m.HasProxy() && Passes(true, r) && r.host.refusal != ""
    ensures EndToEnd(m, r) == Exits(1) && Answer(true, r) == Reply(OK, Result("", r.host.refusal, 1), false)
  {}

  /** Past its deadline a run that started is status 124 for the caller, whatever the child's status. */
  lemma DeadlineIsStatus124(m: Machine, r: Request)
    requires m.HasProxy() && r.post && !r.outdated && r.wellFormed
    requires Answer(true, r).started && r.host.elapsed >= Limit(r.timeoutMs)
    ensures EndToEnd(m, r) == Exits(TIMEOUT_STATUS)
  {}

  /** The real op is started exactly when it can be and either there is no op-forward binary, or the
      proxy had no usable reply, or the relayed status has low byte 127. */
  lemma RealOpRunsExactlyWhen(m: Machine, r: Received)
    ensures ShimDecision(m, ProcessStatus(ProxyError(r))).RunsRealOp? <==>
            && m.Runnable(m.realOp)
            && (|| !m.HasProxy()
                || r.NothingReceived? || r.reply.status != OK || !r.decodable
                || r.reply.result.exitCode % 256 == INFRA_FAILURE)
  {}

  /** The reply as it arrives, if it does, and whether its body can be decoded. */
  function Arrival(r: Request, lost: bool, decodable: bool): Received {
    if lost then NothingReceived else Received(Answer(true, r), decodable)
  }

  /** So 127 is ambiguous. A command runs on the host and again as the real op exactly when op started
      there and its reply was lost or could not be decoded, or, before the deadline, waiting for it
      failed or its status has low byte 127. */
  lemma RunsTwiceExactlyWhen(m: Machine, r: Request, lost: bool, decodable: bool)
    requires m.HasProxy() && m.Runnable(m.realOp)
    ensures Answer(true, r).started
            && ShimDecision(m, ProcessStatus(ProxyError(Arrival(r, lost, decodable)))).RunsRealOp? <==>
            && r.post && !r.outdated && r.wellFormed
            && r.host.refusal == "" && r.host.found && r.host.launchable
            && Limit(r.timeoutMs) > 0 && !r.host.end.StartFailed?
            && (|| lost || !decodable
                || (r.host.elapsed < Limit(r.timeoutMs)
                    && (r.host.end.WaitFailed? || r.host.end.code % 256 == INFRA_FAILURE)))
  {}
}
