/** `op-forward doctor`: what a run does about an unusable access token, how two of its checks report
    it, and how the checks make up the exit code (cmd/doctor.go). Wording is replaced by names for what
    is said. */
module Doctor {
  import opened Optional
  import opened Tokens
  import opened TokenFile
  import opened Proxy

  datatype Status = StatusOk | Warn | Fail | Skip

  datatype Renewal = Idle | Done | Failed | Declined

  datatype Summary =
    | NotReachable | NothingToAuthenticateWith | RenewalForbidden
    | CouldNotRenew | IncompleteAnswer | NotSaved
    | GetFailed | RejectedFreshToken | RejectedToken | DaemonTooOld | ProbeBusy | BadStatus(code: nat) | UnreadableBody
    | OfReport(report: Report) | AfterRenewal(said: Summary)
    | RenewedNow | NeedsRenewal | BothValid | RefreshOnly | CannotBeRenewed | NoneUsable
    | Elsewhere(n: nat)

  datatype Action =
    | NoAction | FixTokens | MakeWritable | AllowRefresh | ReadDaemonLog | CheckEndpoint | UpdateDaemon | Wait
    | OfFinding(n: nat)

  datatype Finding = Finding(status: Status, summary: Summary, action: Action)

  datatype Check = Check(id: string, status: Status, summary: Summary, action: Action)

  function AsCheck(id: string, f: Finding): Check {
    Check(id, f.status, f.summary, f.action)
  }

  /** The three components of the daemon's op report, as classified. */
  datatype Report = Report(cli: Finding, integration: Finding, session: Finding)

  /** The answer to GET /health/op: no answer, or a status with a body that may be a report. */
  datatype Got = NoAnswer | Got(status: nat, report: Option<Report>)

  /** What a run does not decide itself: the clock, reachability, the answers it would get, and whether
      its two writes succeed. */
  datatype World = World(now: int, reachable: bool, first: Got, refreshed: Refreshed, second: Got,
                         savesAccess: bool, savesRefresh: bool)

  // ---------- Token files ----------

  /** LoadFromPath followed by IsValid. */
  function ValidValue(data: Option<string>, now: int): Option<string> {
    if data.Some? && Load(data.value).Some? && Load(data.value).value.ValidAt(now)
    then Some(Load(data.value).value.value) else None
  }

  /** readAccessTokenValue: access.token, else session.token. */
  function AccessValue(f: ClientFiles, now: int): Option<string> {
    if ValidValue(f.access, now).Some? then ValidValue(f.access, now) else ValidValue(f.legacy, now)
  }

  // ---------- Specification ----------

  datatype Attempt = Attempt(renewal: Renewal, failure: Finding, files: ClientFiles)

  const NO_FINDING := Finding(StatusOk, Elsewhere(0), NoAction)

  predicate Complete(t: Refreshed) {
    t.NewTokens? && t.access != "" && t.refresh != ""
  }

  /** renewAccessToken: access token first, then the refresh token, stopping at the first failure. */
  function Renewed(f: ClientFiles, w: World): Attempt {
    if w.refreshed.NoTokens? then Attempt(Failed, Finding(Fail, CouldNotRenew, FixTokens), f)
    else if !Complete(w.refreshed) then Attempt(Failed, Finding(Fail, IncompleteAnswer, FixTokens), f)
    else
      var half := f.(access := SaveText(f.access, w.refreshed.access, w.refreshed.accessExpires, w.savesAccess));
      if !w.savesAccess then Attempt(Failed, Finding(Fail, NotSaved, MakeWritable), half)
      else
        var full := half.(refresh := SaveText(f.refresh, w.refreshed.refresh, w.refreshed.refreshExpires,
                                              w.savesRefresh));
        if !w.savesRefresh then Attempt(Failed, Finding(Fail, NotSaved, MakeWritable), full)
        else Attempt(Done, NO_FINDING, full)
  }

  /** How the final answer to GET /health/op is judged. */
  function Judge(renewal: Renewal, g: Got): Finding {
    match g
    case NoAnswer => Finding(Fail, GetFailed, ReadDaemonLog)
    case Got(status, report) =>
      if status == 401 && renewal == Done then Finding(Warn, RejectedFreshToken, CheckEndpoint)
      else if status == 401 then Finding(Warn, RejectedToken, AllowRefresh)
      else if status == 404 then Finding(Warn, DaemonTooOld, UpdateDaemon)
      else if status == 409 then Finding(Warn, ProbeBusy, Wait)
      else if status != 200 then Finding(Fail, BadStatus(status), ReadDaemonLog)
      else if report.None? then Finding(Fail, UnreadableBody, UpdateDaemon)
      else Folded(report.value)
  }

  function Rank(s: Status): nat {
    match s case Skip => 0 case StatusOk => 1 case Warn => 2 case Fail => 3
  }

  /** The more severe of two; the first wins a tie. */
  function Worse(a: Finding, b: Finding): Finding {
    if Rank(b.status) > Rank(a.status) then b else a
  }

  function WorstOf(parts: seq<Finding>): Finding
    requires parts != []
  {
    var last := |parts| - 1;
    if last == 0 then parts[0] else Worse(WorstOf(parts[..last]), parts[last])
  }

  /** The last skipped component's advice, if there is any. */
  function Advice(parts: seq<Finding>, otherwise: Action): Action {
    if parts == [] then otherwise
    else
      var last := |parts| - 1;
      if parts[last].status == Skip && parts[last].action != NoAction then parts[last].action
      else Advice(parts[..last], otherwise)
  }

  function FoldedParts(parts: seq<Finding>, summary: Summary): Finding
    requires parts != []
  {
    var worst := WorstOf(parts);
    Finding(worst.status, summary, if worst.status == StatusOk then Advice(parts, worst.action) else worst.action)
  }

  function Folded(r: Report): Finding {
    FoldedParts([r.cli, r.integration, r.session], OfReport(r))
  }

  /** foldOpComponents. */
  method FoldOpComponents(parts: seq<Finding>, summary: Summary) returns (f: Finding)
    requires parts != []
    ensures f == FoldedParts(parts, summary)
  {
    var worst := parts[0];
    var i := 0;
    while i < |parts|
      invariant 0 <= i <= |parts|
      invariant worst == if i == 0 then parts[0] else WorstOf(parts[..i])
    {
      if Rank(parts[i].status) > Rank(worst.status) {
        worst := parts[i];
      }
      assert parts[..i + 1][..i] == parts[..i];
      i := i + 1;
    }
    assert parts[..i] == parts;
    var action := worst.action;
    if worst.status == StatusOk {
      i := 0;
      while i < |parts|
        invariant 0 <= i <= |parts|
        invariant action == Advice(parts[..i], worst.action)
      {
        if parts[i].status == Skip && parts[i].action != NoAction {
          action := parts[i].action;
        }
        assert parts[..i + 1][..i] == parts[..i];
        i := i + 1;
      }
      assert parts[..i] == parts;
    }
    f := Finding(worst.status, summary, action);
  }

  /** The reported status is the most severe one, taken from the first component that has it; and a
      component that was skipped never hides one that was not. */
  lemma {:induction false} WorstIsTheFirstMostSevere(parts: seq<Finding>) returns (i: nat)
    requires parts != []
    ensures i < |parts| && WorstOf(parts) == parts[i]
    ensures forall j :: 0 <= j < |parts| ==> Rank(parts[j].status) <= Rank(parts[i].status)
    ensures forall j :: 0 <= j < i ==> Rank(parts[j].status) < Rank(parts[i].status)
    decreases |parts|
  {
    var last := |parts| - 1;
    if last == 0 {
      i := 0;
    } else {
      var k := WorstIsTheFirstMostSevere(parts[..last]);
      i := if Rank(parts[last].status) > Rank(parts[k].status) then last else k;
      assert forall j :: 0 <= j < last ==> parts[..last][j] == parts[j];
    }
  }

  /** The state of a run after daemon_op: calls counts requests to /token/refresh. */
  datatype Session = Session(renewal: Renewal, failure: Finding, files: ClientFiles, calls: nat, daemonOp: Finding)

  function Mention(renewal: Renewal, f: Finding): Finding {
    if renewal == Done then f.(summary := AfterRenewal(f.summary)) else f
  }

  function AfterAttempt(a: Attempt, g: Got): Session {
    Session(a.renewal, a.failure, a.files, 1,
            if a.renewal == Failed then a.failure else Mention(a.renewal, Judge(a.renewal, g)))
  }

  /** checkDaemonOp, given whether the access and refresh files hold valid tokens. */
  function Ask(hasAccess: bool, hasRefresh: bool, noRefresh: bool, f: ClientFiles, w: World): Session {
    if !w.reachable then Session(Idle, NO_FINDING, f, 0, Finding(Skip, NotReachable, NoAction))
    else if !hasAccess then
      if !hasRefresh then Session(Idle, NO_FINDING, f, 0, Finding(Fail, NothingToAuthenticateWith, FixTokens))
      else if noRefresh then Session(Declined, NO_FINDING, f, 0, Finding(Skip, RenewalForbidden, AllowRefresh))
      else AfterAttempt(Renewed(f, w), w.first)
    else if w.first.Got? && w.first.status == 401 && !noRefresh && hasRefresh then AfterAttempt(Renewed(f, w), w.second)
    else Session(Idle, NO_FINDING, f, 0, Judge(Idle, w.first))
  }

  function Diagnose(f: ClientFiles, noRefresh: bool, w: World): Session {
    Ask(AccessValue(f, w.now).Some?, ValidValue(f.refresh, w.now).Some?, noRefresh, f, w)
  }

  /** checkTokens, given what renewal did and whether the three files hold valid tokens. */
  function TokensFinding(renewal: Renewal, failure: Finding, access: bool, refresh: bool, legacy: bool): Finding {
    match renewal
    case Failed => failure
    case Done => Finding(StatusOk, RenewedNow, NoAction)
    case Declined => Finding(StatusOk, NeedsRenewal, NoAction)
    case Idle =>
      if access && refresh then Finding(StatusOk, BothValid, NoAction)
      else if refresh then Finding(StatusOk, RefreshOnly, NoAction)
      else if access || legacy then Finding(Warn, CannotBeRenewed, FixTokens)
      else Finding(Fail, NoneUsable, FixTokens)
  }

  /** The tokens check at the end of a run. */
  function TokensAfter(s: Session, now: int): Finding {
    TokensFinding(s.renewal, s.failure,
                  ValidValue(s.files.access, now).Some?, ValidValue(s.files.refresh, now).Some?,
                  ValidValue(s.files.legacy, now).Some?)
  }

  // ---------- doctor, field by field ----------

  class Doctor {
    const noRefresh: bool
    var renewal: Renewal
    var renewalFailure: Finding
    var access: Option<string>
    var refresh: Option<string>
    var legacy: Option<string>
    /** Requests sent to /token/refresh, and token files rewritten. */
    ghost var calls: nat
    ghost var writes: nat

    function Files(): ClientFiles
      reads this
    {
      ClientFiles(access, refresh, legacy)
    }

    constructor (noRefresh: bool, f: ClientFiles)
      ensures this.noRefresh == noRefresh && Files() == f && renewal == Idle && renewalFailure == NO_FINDING
      ensures calls == 0 && writes == 0
    {
      this.noRefresh, renewal, renewalFailure := noRefresh, Idle, NO_FINDING;
      access, refresh, legacy, calls, writes := f.access, f.refresh, f.legacy, 0, 0;
    }

    /** renewAccessToken. */
    method RenewAccessToken(w: World) returns (ok: bool)
      requires renewal == Idle && renewalFailure == NO_FINDING
      modifies this
      ensures Attempt(renewal, renewalFailure, Files()) == Renewed(old(Files()), w)
      ensures ok <==> renewal == Done
      ensures calls == old(calls) + 1
    {
      calls := calls + 1;
      if w.refreshed.NoTokens? {
        renewal, renewalFailure := Failed, Finding(Fail, CouldNotRenew, FixTokens);
        return false;
      }
      if w.refreshed.access == "" || w.refreshed.refresh == "" {
        renewal, renewalFailure := Failed, Finding(Fail, IncompleteAnswer, FixTokens);
        return false;
      }
      access := SaveText(access, w.refreshed.access, w.refreshed.accessExpires, w.savesAccess);
      writes := writes + 1;
      var saved := w.savesAccess;
      if saved {
        refresh := SaveText(refresh, w.refreshed.refresh, w.refreshed.refreshExpires, w.savesRefresh);
        writes := writes + 1;
        saved := w.savesRefresh;
      }
      if !saved {
        renewal, renewalFailure := Failed, Finding(Fail, NotSaved, MakeWritable);
        return false;
      }
      renewal := Done;
      return true;
    }

    /** checkDaemonOp with queryDaemonOp. */
    method CheckDaemonOp(hasAccess: bool, hasRefresh: bool, w: World) returns (check: Check)
      requires renewal == Idle && renewalFailure == NO_FINDING && calls == 0 && writes == 0
      modifies this
      ensures var s := Ask(hasAccess, hasRefresh, noRefresh, old(Files()), w);
              && check == AsCheck("daemon_op", s.daemonOp)
              && renewal == s.renewal && renewalFailure == s.failure && Files() == s.files && calls == s.calls
      ensures noRefresh ==> calls == 0 && writes == 0
    {
      if !w.reachable {
        return AsCheck("daemon_op", Finding(Skip, NotReachable, NoAction));
      }
      if !hasAccess {
        if !hasRefresh {
          return AsCheck("daemon_op", Finding(Fail, NothingToAuthenticateWith, FixTokens));
        }
        if noRefresh {
          renewal := Declined;
          return AsCheck("daemon_op", Finding(Skip, RenewalForbidden, AllowRefresh));
        }
        var ok := RenewAccessToken(w);
        if !ok {
          return AsCheck("daemon_op", renewalFailure);
        }
      }
      var got := w.first;
      if got.Got? && got.status == 401 && renewal == Idle && !noRefresh {
        if hasRefresh {
          var ok := RenewAccessToken(w);
          if !ok {
            return AsCheck("daemon_op", renewalFailure);
          }
          got := w.second;
        }
      }
      var finding := JudgeAnswer(renewal, got);
      if renewal == Done {
        finding := finding.(summary := AfterRenewal(finding.summary));
      }
      check := AsCheck("daemon_op", finding);
    }

    /** checkTokens. */
    method CheckTokens(accessValid: bool, refreshValid: bool, legacyValid: bool) returns (check: Check)
      ensures check == AsCheck("tokens", TokensFinding(renewal, renewalFailure, accessValid, refreshValid, legacyValid))
    {
      if renewal == Failed {
        check := AsCheck("tokens", renewalFailure);
      } else if renewal == Done {
        check := AsCheck("tokens", Finding(StatusOk, RenewedNow, NoAction));
      } else if renewal == Declined {
        check := AsCheck("tokens", Finding(StatusOk, NeedsRenewal, NoAction));
      } else if accessValid && refreshValid {
        check := AsCheck("tokens", Finding(StatusOk, BothValid, NoAction));
      } else if refreshValid {
        check := AsCheck("tokens", Finding(StatusOk, RefreshOnly, NoAction));
      } else if accessValid || legacyValid {
        check := AsCheck("tokens", Finding(Warn, CannotBeRenewed, FixTokens));
      } else {
        check := AsCheck("tokens", Finding(Fail, NoneUsable, FixTokens));
      }
    }

    /** run: the checks in order, and the report folded over them. The checks about the binary, the
        shim, the endpoint, the daemon's health and the local op are given. */
    method Run(before: seq<Check>, after: seq<Check>, w: World)
      returns (checks: seq<Check>, status: Status, exitCode: int)
      requires renewal == Idle && renewalFailure == NO_FINDING && calls == 0 && writes == 0
      modifies this
      ensures var s := Diagnose(old(Files()), noRefresh, w);
              && renewal == s.renewal && renewalFailure == s.failure && Files() == s.files && calls == s.calls
              && checks == before + [AsCheck("daemon_op", s.daemonOp), AsCheck("tokens", TokensAfter(s, w.now))] + after
      ensures calls <= 1 && (noRefresh ==> calls == 0 && writes == 0)
      ensures exitCode == if exists c <- checks :: c.status == Fail then 1 else 0
      ensures status == if exists c <- checks :: c.status == Fail then Fail
                        else if exists c <- checks :: c.status == Warn then Warn else StatusOk
    {
      var hasAccess, hasRefresh := AccessValue(Files(), w.now).Some?, ValidValue(refresh, w.now).Some?;
      var daemonOp := CheckDaemonOp(hasAccess, hasRefresh, w);
      var tokens := CheckTokens(ValidValue(access, w.now).Some?, ValidValue(refresh, w.now).Some?,
                                ValidValue(legacy, w.now).Some?);
      checks := before + [daemonOp, tokens] + after;
      status, exitCode := FoldStatuses(checks);
    }
  }

  /** The report's status and exit code. */
  method FoldStatuses(checks: seq<Check>) returns (status: Status, exitCode: int)
    ensures exitCode == if exists c <- checks :: c.status == Fail then 1 else 0
    ensures status == if exists c <- checks :: c.status == Fail then Fail
                      else if exists c <- checks :: c.status == Warn then Warn else StatusOk
  {
    status, exitCode := StatusOk, 0;
    var i := 0;
    while i < |checks|
      invariant 0 <= i <= |checks|
      invariant exitCode == if exists c <- checks[..i] :: c.status == Fail then 1 else 0
      invariant status == if exists c <- checks[..i] :: c.status == Fail then Fail
                          else if exists c <- checks[..i] :: c.status == Warn then Warn else StatusOk
    {
      var c := checks[i];
      assert checks[..i + 1] == checks[..i] + [c];
      if c.status == Fail {
        status := Fail;
        exitCode := 1;
      } else if c.status == Warn {
        if status == StatusOk {
          status := Warn;
        }
      }
      i := i + 1;
    }
    assert checks[..i] == checks;
  }

  /** The answer to GET /health/op is none at all, or none the daemon is known to give, or not readable. */
  predicate Unusable(g: Got) {
    || g.NoAnswer?
    || (g.status != 200 && g.status != 401 && g.status != 404 && g.status != 409)
    || (g.status == 200 && g.report.None?)
  }

  /** It is a report with a component of that status. */
  predicate ReportHas(g: Got, status: Status) {
    && g.Got? && g.status == 200 && g.report.Some?
    && var r := g.report.value;
       r.cli.status == status || r.integration.status == status || r.session.status == status
  }

  /** What the daemon_op status tells the user: a failure is an unusable answer or a failing component; a
      warning is a refusal the daemon is known for or a warning component with none failing; all is well
      only if a component says so and none objects; and only a report of skips is a skip. */
  lemma JudgesExactlyWhen(renewal: Renewal, g: Got)
    ensures var status := Judge(renewal, g).status;
            && (status == Fail <==> Unusable(g) || ReportHas(g, Fail))
            && (status == Warn <==>
                 || (g.Got? && (g.status == 401 || g.status == 404 || g.status == 409))
                 || (ReportHas(g, Warn) && !ReportHas(g, Fail)))
            && (status == StatusOk <==> ReportHas(g, StatusOk) && !ReportHas(g, Warn) && !ReportHas(g, Fail))
  {
    if g.Got? && g.status == 200 && g.report.Some? {
      var r := g.report.value;
      var parts := [r.cli, r.integration, r.session];
      var i := WorstIsTheFirstMostSevere(parts);
      assert parts[0] == r.cli && parts[1] == r.integration && parts[2] == r.session;
    }
  }

  predicate Advises(f: Finding) {
    f.status == Skip && f.action != NoAction
  }

  /** Advice is that of the last component with any, or the other action if there is none (k is |parts|). */
  lemma {:induction false} AdviceIsTheLast(parts: seq<Finding>, otherwise: Action) returns (k: nat)
    ensures k <= |parts| && (k < |parts| ==> Advises(parts[k]))
    ensures forall j :: 0 <= j < |parts| && Advises(parts[j]) ==> j <= k < |parts|
    ensures Advice(parts, otherwise) == if k < |parts| then parts[k].action else otherwise
    decreases |parts|
  {
    k := |parts|;
    if parts != [] {
      var last := |parts| - 1;
      if Advises(parts[last]) {
        k := last;
      } else {
        var i := AdviceIsTheLast(parts[..last], otherwise);
        k := if i < last then i else |parts|;
        assert forall j :: 0 <= j < last ==> parts[..last][j] == parts[j];
      }
    }
  }

  /** The action shown is that of the first most severe component i, except that when all is well the last
      skipped component k with advice to give is heard. */
  lemma ActionExactly(parts: seq<Finding>, summary: Summary) returns (i: nat, k: nat)
    requires parts != []
    ensures i < |parts| && forall j :: 0 <= j < |parts| ==> Rank(parts[j].status) <= Rank(parts[i].status)
    ensures forall j :: 0 <= j < i ==> Rank(parts[j].status) < Rank(parts[i].status)
    ensures k <= |parts| && (k < |parts| ==> Advises(parts[k]))
    ensures forall j :: 0 <= j < |parts| && Advises(parts[j]) ==> j <= k < |parts|
    ensures FoldedParts(parts, summary)
         == Finding(parts[i].status, summary,
                    if parts[i].status == StatusOk && k < |parts| then parts[k].action else parts[i].action)
  {
    i := WorstIsTheFirstMostSevere(parts);
    k := AdviceIsTheLast(parts, parts[i].action);
  }

  /** The last switch of queryDaemonOp. */
  method JudgeAnswer(renewal: Renewal, g: Got) returns (f: Finding)
    ensures f == Judge(renewal, g)
    ensures f.status == Fail <==> Unusable(g) || ReportHas(g, Fail)
  {
    JudgesExactlyWhen(renewal, g);
    if g.NoAnswer? {
      return Finding(Fail, GetFailed, ReadDaemonLog);
    }
    if g.status == 401 && renewal == Done {
      return Finding(Warn, RejectedFreshToken, CheckEndpoint);
    }
    if g.status == 401 {
      return Finding(Warn, RejectedToken, AllowRefresh);
    }
    if g.status == 404 {
      return Finding(Warn, DaemonTooOld, UpdateDaemon);
    }
    if g.status == 409 {
      return Finding(Warn, ProbeBusy, Wait);
    }
    if g.status != 200 {
      return Finding(Fail, BadStatus(g.status), ReadDaemonLog);
    }
    if g.report.None? {
      return Finding(Fail, UnreadableBody, UpdateDaemon);
    }
    var r := g.report.value;
    f := FoldOpComponents([r.cli, r.integration, r.session], OfReport(r));
  }

  // ---------- What a run guarantees ----------

  lemma AsksExactlyWhen(hasAccess: bool, hasRefresh: bool, noRefresh: bool, f: ClientFiles, w: World)
    ensures var s := Ask(hasAccess, hasRefresh, noRefresh, f, w);
            && s.calls <= 1
            && (s.calls == 1 <==>
                 w.reachable && !noRefresh && hasRefresh && (!hasAccess || (w.first.Got? && w.first.status == 401)))
            && (s.calls == 1 <==> s.renewal == Done || s.renewal == Failed)
            && (s.calls == 0 ==> s.files == f)
  {}

  /** doctor asks for a renewal exactly when it is allowed to, has a valid refresh token, and either has
      no valid access token or had it rejected; never more than once, and otherwise it writes nothing. */
  lemma RenewsExactlyWhen(f: ClientFiles, noRefresh: bool, w: World)
    ensures var s := Diagnose(f, noRefresh, w);
            && s.calls <= 1
            && (s.calls == 1 <==>
                 && w.reachable && !noRefresh && ValidValue(f.refresh, w.now).Some?
                 && (AccessValue(f, w.now).None? || (w.first.Got? && w.first.status == 401)))
            && (s.calls == 1 <==> s.renewal == Done || s.renewal == Failed)
            && (s.calls == 0 ==> s.files == f)
  {
    AsksExactlyWhen(AccessValue(f, w.now).Some?, ValidValue(f.refresh, w.now).Some?, noRefresh, f, w);
  }

  /** doctor reads a token file exactly as the proxy does, apart from ignoring values it cannot use. */
  lemma DoctorReadsAsTheProxyDoes(data: Option<string>, f: ClientFiles, now: int)
    ensures ValidValue(data, now) == if Read(data, now).valid then Some(Read(data, now).value) else None
    ensures AccessValue(f, now) == if Read(f.access, now).valid then Some(Read(f.access, now).value)
                                   else if Read(f.legacy, now).valid then Some(Read(f.legacy, now).value)
                                   else None
  {
    ValidValueIsRead(data, now);
    ValidValueIsRead(f.access, now);
    ValidValueIsRead(f.legacy, now);
  }

  lemma ValidValueIsRead(data: Option<string>, now: int)
    ensures ValidValue(data, now) == if Read(data, now).valid then Some(Read(data, now).value) else None
  {
    if data.Some? {
      ReadAgreesWithLoad(data.value, now);
    }
  }

  /** The outcome of a renewal, and the files it leaves: it is done exactly when the answer was complete and
      both writes worked; each file is the new one exactly when it was reached and its write worked. */
  lemma RenewalLeaves(f: ClientFiles, w: World)
    ensures var a, t := Renewed(f, w), w.refreshed;
            var complete := t.NewTokens? && t.access != "" && t.refresh != "";
            && a.renewal == (if complete && w.savesAccess && w.savesRefresh then Done else Failed)
            && (a.renewal == Failed ==> a.failure.status == Fail)
            && a.files.legacy == f.legacy
            && a.files.access
                 == (if complete && w.savesAccess then Some(Render(t.access, t.accessExpires)) else f.access)
            && a.files.refresh == (if complete && w.savesAccess && w.savesRefresh
                                   then Some(Render(t.refresh, t.refreshExpires)) else f.refresh)
  {}

  /** The answer a run goes by: the first, or the second if the first was a 401 that led to a renewal. */
  function Consulted(hasAccess: bool, hasRefresh: bool, noRefresh: bool, w: World): Got {
    if hasAccess && hasRefresh && !noRefresh && w.first.Got? && w.first.status == 401 then w.second else w.first
  }

  /** A run gets to the point of judging an answer. */
  predicate Judges(hasAccess: bool, hasRefresh: bool, noRefresh: bool, w: World) {
    var renews := hasRefresh && !noRefresh && (!hasAccess || (w.first.Got? && w.first.status == 401));
    && w.reachable
    && (hasAccess || (hasRefresh && !noRefresh))
    && (renews ==> Complete(w.refreshed) && w.savesAccess && w.savesRefresh)
  }

  lemma AskJudges(a: bool, r: bool, noRefresh: bool, f: ClientFiles, w: World)
    ensures var s := Ask(a, r, noRefresh, f, w);
            && (Judges(a, r, noRefresh, w) ==>
                 exists renewal :: s.daemonOp.status == Judge(renewal, Consulted(a, r, noRefresh, w)).status)
            && (!Judges(a, r, noRefresh, w) ==>
                 s.daemonOp.status == if !w.reachable || (!a && r && noRefresh) then Skip else Fail)
  {
    RenewalLeaves(f, w);
    var s := Ask(a, r, noRefresh, f, w);
    if Judges(a, r, noRefresh, w) {
      assert s.daemonOp.status == Judge(s.renewal, Consulted(a, r, noRefresh, w)).status;
    }
  }

  /** What daemon_op tells the user of a whole run. It judges an answer exactly when the daemon is in reach,
      there is a token to ask with, and a renewal, if one was needed, worked. Otherwise it fails, except
      that it is skipped when there is no daemon to ask or --no-refresh stood in the way. */
  lemma DaemonOpExactlyWhen(f: ClientFiles, noRefresh: bool, w: World)
    ensures var a, r := AccessValue(f, w.now).Some?, ValidValue(f.refresh, w.now).Some?;
            var status, g, judged := Diagnose(f, noRefresh, w).daemonOp.status, Consulted(a, r, noRefresh, w),
                                     Judges(a, r, noRefresh, w);
            && (status == Fail <==>
                 if judged then Unusable(g) || ReportHas(g, Fail) else w.reachable && (a || !r || !noRefresh))
            && (status == Warn <==>
                 && judged
                 && (|| (g.Got? && (g.status == 401 || g.status == 404 || g.status == 409))
                     || (ReportHas(g, Warn) && !ReportHas(g, Fail))))
            && (status == StatusOk <==>
                 judged && ReportHas(g, StatusOk) && !ReportHas(g, Warn) && !ReportHas(g, Fail))
  {
    var a, r := AccessValue(f, w.now).Some?, ValidValue(f.refresh, w.now).Some?;
    AskJudges(a, r, noRefresh, f, w);
    if Judges(a, r, noRefresh, w) {
      var renewal :| Diagnose(f, noRefresh, w).daemonOp.status == Judge(renewal, Consulted(a, r, noRefresh, w)).status;
      JudgesExactlyWhen(renewal, Consulted(a, r, noRefresh, w));
    }
  }

  lemma JudgingNamesNoRenewal(renewal: Renewal, g: Got)
    ensures !Judge(renewal, g).summary.AfterRenewal? && Judge(renewal, g).summary != RenewedNow
  {}

  predicate Consistent(s: Session, f: ClientFiles, w: World, a: bool, r: bool, l: bool) {
    && (s.renewal == Failed ==> s.daemonOp == TokensFinding(s.renewal, s.failure, a, r, l) && s.daemonOp.status == Fail)
    && (s.renewal == Done ==>
         && w.refreshed.NewTokens?
         && s.files == f.(access := Some(Render(w.refreshed.access, w.refreshed.accessExpires)),
                          refresh := Some(Render(w.refreshed.refresh, w.refreshed.refreshExpires))))
    && (s.renewal == Done <==> s.daemonOp.summary.AfterRenewal?)
    && (s.renewal == Done <==> TokensFinding(s.renewal, s.failure, a, r, l).summary == RenewedNow)
  }

  lemma AttemptIsConsistent(f: ClientFiles, w: World, g: Got, a: bool, r: bool, l: bool)
    ensures Consistent(AfterAttempt(Renewed(f, w), g), f, w, a, r, l)
  {
    JudgingNamesNoRenewal(Renewed(f, w).renewal, g);
  }

  lemma AskIsConsistent(hasAccess: bool, hasRefresh: bool, noRefresh: bool, f: ClientFiles, w: World, a: bool, r: bool,
                        l: bool)
    ensures Consistent(Ask(hasAccess, hasRefresh, noRefresh, f, w), f, w, a, r, l)
  {
    AttemptIsConsistent(f, w, w.first, a, r, l);
    AttemptIsConsistent(f, w, w.second, a, r, l);
    JudgingNamesNoRenewal(Idle, w.first);
  }

  /** When renewal failed both checks say the same thing; and both mention a renewal exactly when it was
      done, which means that both files hold the pair the daemon issued. */
  lemma ReportsAgreeWithWhatWasDone(f: ClientFiles, noRefresh: bool, w: World, a: bool, r: bool, l: bool)
    ensures Consistent(Diagnose(f, noRefresh, w), f, w, a, r, l)
  {
    AskIsConsistent(AccessValue(f, w.now).Some?, ValidValue(f.refresh, w.now).Some?, noRefresh, f, w, a, r, l);
  }

  lemma TokensFailWhen(s: Session, now: int)
    requires s.renewal == Failed ==> s.failure.status == Fail
    ensures TokensAfter(s, now).status == Fail <==>
            || s.renewal == Failed
            || (s.renewal == Idle && AccessValue(s.files, now).None? && ValidValue(s.files.refresh, now).None?)
    ensures TokensAfter(s, now).status == Warn <==>
            s.renewal == Idle && AccessValue(s.files, now).Some? && ValidValue(s.files.refresh, now).None?
  {}

  lemma RenewalStateOf(hasAccess: bool, hasRefresh: bool, noRefresh: bool, f: ClientFiles, w: World)
    ensures var s := Ask(hasAccess, hasRefresh, noRefresh, f, w);
            && (s.renewal == Failed ==> s.failure.status == Fail)
            && (!hasRefresh ==> s.renewal == Idle)
            && (s.renewal == Idle ==> s.files == f)
  {}

  /** What the tokens check tells the user: it fails exactly when renewal failed or the run found no
      valid token in any of the three files, and warns exactly when it found an access token, under
      either name, but no refresh token. */
  lemma TokensFailExactlyWhen(f: ClientFiles, noRefresh: bool, w: World)
    ensures var s := Diagnose(f, noRefresh, w);
            && (TokensAfter(s, w.now).status == Fail <==>
                 s.renewal == Failed || (AccessValue(f, w.now).None? && ValidValue(f.refresh, w.now).None?))
            && (TokensAfter(s, w.now).status == Warn <==>
                 AccessValue(f, w.now).Some? && ValidValue(f.refresh, w.now).None?)
  {
    RenewalStateOf(AccessValue(f, w.now).Some?, ValidValue(f.refresh, w.now).Some?, noRefresh, f, w);
    TokensFailWhen(Diagnose(f, noRefresh, w), w.now);
  }

  /** Against a daemon that issued pair p, renewal done means both files load to that very pair. */
  lemma RenewalDoneLeavesTheIssuedPair(f: ClientFiles, noRefresh: bool, w: World, p: Pair, zone: int)
    requires Reloadable(p.access, zone) && Reloadable(p.refresh, zone)
    requires Hex(p.access.value) && Hex(p.refresh.value)
    requires w.refreshed == TokensOf(p, zone) && Diagnose(f, noRefresh, w).renewal == Done
    ensures var s := Diagnose(f, noRefresh, w);
            && s.files.access.Some? && Load(s.files.access.value) == Some(p.access.Saved())
            && s.files.refresh.Some? && Load(s.files.refresh.value) == Some(p.refresh.Saved())
            && s.files.legacy == f.legacy
  {
    ReportsAgreeWithWhatWasDone(f, noRefresh, w, true, true, true);
    HexFits(p.access.value);
    HexFits(p.refresh.value);
    LoadUndoesSave(p.access, zone);
    LoadUndoesSave(p.refresh, zone);
  }

  /** A renewal whose second write fails, whatever led to it, leaves this machine behind the daemon: the
      access file is the new one, the refresh file still the old one, which the daemon has rotated out. */
  lemma FailedSecondWriteLeavesTheOldRefreshToken(f: ClientFiles, noRefresh: bool, w: World)
    requires Diagnose(f, noRefresh, w).calls == 1
    requires Complete(w.refreshed) && w.savesAccess && !w.savesRefresh
    ensures var s := Diagnose(f, noRefresh, w);
            && s.renewal == Failed && s.files.refresh == f.refresh
            && s.files.access == Some(Render(w.refreshed.access, w.refreshed.accessExpires))
  {}
}
