/** One run of `op-forward proxy`: which token it tries, when it refreshes and retries, what it writes,
    and what it makes of the answers (cmd/proxy.go). */
module Proxy {
  import opened Optional
  import opened Tokens
  import opened TimeText
  import opened TokenFile
  import opened Execution
  import opened ExitContract
  import opened Server

  /** The contents of the client's three token files; None is a file that cannot be read. */
  datatype ClientFiles = ClientFiles(access: Option<string>, refresh: Option<string>, legacy: Option<string>)

  /** access.token, or session.token when the former yields no value. */
  function Chosen(f: ClientFiles, now: int): Reading {
    var a := Read(f.access, now);
    if a.value == "" then Read(f.legacy, now) else a
  }

  /** refresh.token's value, or session.token's when the former yields none. Values do not depend on
      the time of reading. */
  function RefreshValue(f: ClientFiles): string {
    var r := Read(f.refresh, 0).value;
    if r == "" then Read(f.legacy, 0).value else r
  }

  datatype Sent = ExecuteSent(bearer: string) | RefreshSent(bearer: string)

  /** The four strings of a refresh answer, or no usable answer. */
  datatype Refreshed =
    | NoTokens
    | NewTokens(access: string, accessExpires: string, refresh: string, refreshExpires: string)

  /** Everything a run does not decide itself: the clock, the probe, the answers it would get, what the
      files hold when it looks again, and whether its two saves succeed. */
  datatype World = World(now: int, reachable: bool, first: Received, later: ClientFiles, refreshed: Refreshed,
                         retry: Received, savesAccess: bool, savesRefresh: bool)

  datatype Outcome = Outcome(sent: seq<Sent>, files: ClientFiles, final: Received) {
    /** A request was let through: the last reply is not a 401. */
    predicate Authenticated() {
      final.Received? && final.reply.status != UNAUTHORIZED
    }
  }

  function SaveText(prior: Option<string>, value: string, expires: string, saved: bool): Option<string> {
    if saved then Some(Render(value, expires)) else prior
  }

  function Store(f: ClientFiles, t: Refreshed, w: World): ClientFiles
    requires t.NewTokens?
  {
    f.(access := SaveText(f.access, t.access, t.accessExpires, w.savesAccess),
       refresh := SaveText(f.refresh, t.refresh, t.refreshExpires, w.savesRefresh))
  }

  predicate Tries(c: Reading) {
    c.valid && c.value != ""
  }

  /** The refresh, the two saves and the retry, with r as the refresh value. */
  function Renew(r: string, held: ClientFiles, w: World): Outcome {
    if r == "" then Outcome([], held, NothingReceived)
    else if w.refreshed.NoTokens? then Outcome([RefreshSent(r)], held, NothingReceived)
    else Outcome([RefreshSent(r), ExecuteSent(w.refreshed.access)], Store(held, w.refreshed, w), w.retry)
  }

  /** runProxy after its first look at the files: c is the token it would try, `refreshable` says whether
      refresh.token yields a value, and r is the refresh value in the files it holds at the refresh. */
  function Converse(c: Reading, refreshable: bool, r: string, f: ClientFiles, held: ClientFiles, w: World): Outcome {
    if (c.value == "" && !refreshable) || !w.reachable then Outcome([], f, NothingReceived)
    else if Tries(c) && (w.first.NothingReceived? || w.first.reply.status != UNAUTHORIZED)
    then Outcome([ExecuteSent(c.value)], f, w.first)
    else
      var renewed := Renew(r, held, w);
      renewed.(sent := (if Tries(c) then [ExecuteSent(c.value)] else []) + renewed.sent)
  }

  /** runProxy. Its error value is ProxyError of the final reply. */
  function Run(f: ClientFiles, w: World): Outcome {
    var c := Chosen(f, w.now);
    Converse(c, Read(f.refresh, 0).value != "", RefreshValue(w.later), f, w.later, w)
  }

  // ---------- What a run sends and relays ----------

  predicate Refused(r: Received) {
    r.Received? && r.reply.status == UNAUTHORIZED
  }

  /** The run comes to ask for a refresh. */
  predicate AsksToRefresh(f: ClientFiles, w: World) {
    var c := Chosen(f, w.now);
    && w.reachable && (c.value != "" || Read(f.refresh, 0).value != "") && RefreshValue(w.later) != ""
    && (c.valid && c.value != "" ==> Refused(w.first))
  }

  /** For arbitrary answers: the requests of a run, in order, and that its result is the answer to the last
      one if that was an execute request, and nothing otherwise. A first answer is relayed unless it is a
      401, and the answer after a refresh always is. */
  lemma RunSendsAndRelays(f: ClientFiles, w: World)
    ensures var c, r, run := Chosen(f, w.now), RefreshValue(w.later), Run(f, w);
            var tried, refreshes := w.reachable && c.valid && c.value != "", AsksToRefresh(f, w);
            && run.sent == (if tried then [ExecuteSent(c.value)] else [])
                         + (if refreshes then [RefreshSent(r)] else [])
                         + (if refreshes && w.refreshed.NewTokens? then [ExecuteSent(w.refreshed.access)] else [])
            && run.final == (if refreshes && w.refreshed.NewTokens? then w.retry
                             else if tried && !Refused(w.first) then w.first else NothingReceived)
            && (if refreshes && w.refreshed.NewTokens? then run.files == Store(w.later, w.refreshed, w)
                else run.files == f || run.files == w.later)
  {
    var c, r := Chosen(f, w.now), RefreshValue(w.later);
    ConverseSendsAndRelays(c, Read(f.refresh, 0).value != "", r, f, w.later, w);
  }

  lemma ConverseSendsAndRelays(c: Reading, refreshable: bool, r: string, f: ClientFiles, held: ClientFiles, w: World)
    ensures var run := Converse(c, refreshable, r, f, held, w);
            var tried := w.reachable && c.valid && c.value != "";
            var refreshes := && w.reachable && (c.value != "" || refreshable) && r != ""
                             && (c.valid && c.value != "" ==> Refused(w.first));
            && run.sent == (if tried then [ExecuteSent(c.value)] else [])
                         + (if refreshes then [RefreshSent(r)] else [])
                         + (if refreshes && w.refreshed.NewTokens? then [ExecuteSent(w.refreshed.access)] else [])
            && run.final == (if refreshes && w.refreshed.NewTokens? then w.retry
                             else if tried && !Refused(w.first) then w.first else NothingReceived)
            && (if refreshes && w.refreshed.NewTokens? then run.files == Store(held, w.refreshed, w)
                else run.files == f || run.files == held)
  {}

  // ---------- At most once ----------

  function Executes(sent: seq<Sent>): nat {
    if sent == [] then 0 else (if sent[0].ExecuteSent? then 1 else 0) + Executes(sent[1..])
  }

  /** The daemon at one moment, and the request as it arrives there. */
  datatype Moment = Moment(mem: Pair, now: int, request: Request)

  function AnswerAt(m: Moment, bearer: string): Reply {
    Answer(AcceptsAccess(m.mem, bearer, m.now), m.request)
  }

  /** What arrives is the daemon's reply, unless it is lost on the way. */
  predicate Genuine(r: Received, actual: Reply) {
    r.Received? ==> r.reply == actual
  }

  /** How many op processes the execute requests among `sent` start: a first attempt, which carries c,
      meets the daemon as it is at m1, and a retry, which follows a refresh, as it is at m2. */
  function Launches(sent: seq<Sent>, c: Reading, retryBearer: string, m1: Moment, m2: Moment): nat {
    var first := ExecuteSent(c.value) in sent && Tries(c) && AnswerAt(m1, c.value).started;
    var retry := Executes(sent) > (if Tries(c) then 1 else 0) && AnswerAt(m2, retryBearer).started;
    (if first then 1 else 0) + (if retry then 1 else 0)
  }

  lemma ExecutesOf(sent: seq<Sent>)
    requires |sent| <= 3
    ensures Executes(sent) == (if |sent| > 0 && sent[0].ExecuteSent? then 1 else 0)
                            + (if |sent| > 1 && sent[1].ExecuteSent? then 1 else 0)
                            + (if |sent| > 2 && sent[2].ExecuteSent? then 1 else 0)
  {
    if |sent| > 1 {
      assert sent[1..][1..] == sent[2..];
    }
    if |sent| == 3 {
      assert sent[2..][1..] == [];
    }
  }

  /** A retry follows only a first attempt that was never made or was answered 401. */
  lemma RetryOnlyAfterNoLaunch(c: Reading, refreshable: bool, r: string, f: ClientFiles, held: ClientFiles, w: World,
                               reply: Reply)
    requires Genuine(w.first, reply) && (reply.started ==> reply.status != UNAUTHORIZED)
    ensures var sent := Converse(c, refreshable, r, f, held, w).sent;
            && |sent| <= 3 && Executes(sent) <= 2 && |sent| - Executes(sent) <= 1
            && (Executes(sent) > (if Tries(c) then 1 else 0) && ExecuteSent(c.value) in sent && Tries(c)
                ==> !reply.started)
  {
    ExecutesOf(Converse(c, refreshable, r, f, held, w).sent);
  }

  /** Whatever the files hold, whatever other clients and the daemon do meanwhile and whichever replies
      are lost, a run sends at most two execute requests and one refresh, and starts op at most once. */
  lemma AtMostOneLaunch(f: ClientFiles, w: World, m1: Moment, m2: Moment, retryBearer: string)
    requires Genuine(w.first, AnswerAt(m1, Chosen(f, w.now).value))
    ensures Executes(Run(f, w).sent) <= 2 && |Run(f, w).sent| - Executes(Run(f, w).sent) <= 1
    ensures Launches(Run(f, w).sent, Chosen(f, w.now), retryBearer, m1, m2) <= 1
  {
    var c := Chosen(f, w.now);
    RetryOnlyAfterNoLaunch(c, Read(f.refresh, 0).value != "", RefreshValue(w.later), f, w.later, w,
                           AnswerAt(m1, c.value));
  }

  // ---------- A run against one daemon, alone ----------

  /** A run with no other client's step: the daemon's clock readings for the three requests, which
      replies are lost, the values it would generate, and the outcomes of all five saves. */
  datatype Solo = Solo(now: int, reachable: bool, t1: int, t2: int, t3: int, lost1: bool, lost2: bool, lost3: bool,
                       freshAccess: string, freshRefresh: string, zone: int, ok: Saves,
                       savesAccess: bool, savesRefresh: bool, request: Request)

  function NextPair(e: Solo): Pair {
    Pair(Generate(Access, e.freshAccess, e.t2), Generate(Refresh, e.freshRefresh, e.t2))
  }

  predicate PrintableAnswer(e: Solo) {
    Printable(NextPair(e).access.expires, e.zone) && Printable(NextPair(e).refresh.expires, e.zone)
  }

  /** The body of a refresh answer, with the expiries as the daemon prints them. */
  function TokensOf(p: Pair, zone: int): Refreshed
    requires Printable(p.access.expires, zone) && Printable(p.refresh.expires, zone)
  {
    NewTokens(p.access.value, Format(p.access.expires, zone), p.refresh.value, Format(p.refresh.expires, zone))
  }

  function Deliver(reply: Reply, lost: bool): Received {
    if lost then NothingReceived else Received(reply, true)
  }

  /** The answers the daemon gives to the bearers first and r, and then to the new access token. */
  function SoloWorld(first: string, r: string, f: ClientFiles, mem: Pair, e: Solo): World
    requires PrintableAnswer(e)
  {
    World(e.now, e.reachable,
          Deliver(Answer(AcceptsAccess(mem, first, e.t1), e.request), e.lost1),
          f,
          if AcceptsRefresh(mem, r, e.t2) && !e.lost2 then TokensOf(NextPair(e), e.zone) else NoTokens,
          Deliver(Answer(AcceptsAccess(NextPair(e), e.freshAccess, e.t3), e.request), e.lost3),
          e.savesAccess, e.savesRefresh)
  }

  /** A run that would try c and refresh with r. */
  function Talk(c: Reading, refreshable: bool, r: string, f: ClientFiles, mem: Pair, e: Solo): Outcome
    requires PrintableAnswer(e)
  {
    Converse(c, refreshable, r, f, f, SoloWorld(c.value, r, f, mem, e))
  }

  function SoloRun(f: ClientFiles, mem: Pair, e: Solo): Outcome
    requires PrintableAnswer(e)
  {
    Talk(Chosen(f, e.now), Read(f.refresh, 0).value != "", RefreshValue(f), f, mem, e)
  }

  /** A solo run is a run of the proxy, with the answers taken from the one daemon. */
  lemma SoloRunIsARun(f: ClientFiles, mem: Pair, e: Solo)
    requires PrintableAnswer(e)
    ensures SoloRun(f, mem, e) == Run(f, SoloWorld(Chosen(f, e.now).value, RefreshValue(f), f, mem, e))
  {
    var w := SoloWorld(Chosen(f, e.now).value, RefreshValue(f), f, mem, e);
    assert w.now == e.now && w.later == f;
  }

  /** The daemon's memory after a run: rotated exactly when its refresh was sent and granted. */
  function MemoryAfter(run: Outcome, r: string, mem: Pair, e: Solo): Pair {
    if RefreshSent(r) in run.sent && AcceptsRefresh(mem, r, e.t2) then NextPair(e) else mem
  }

  /** The host's token files after a refresh with r, if that is granted. */
  function HostAfterRefresh(r: string, mem: Pair, d: Disk, e: Solo): Disk {
    if AcceptsRefresh(mem, r, e.t2) then SavedAll(d, NextPair(e), e.ok) else d
  }

  /** The host's token files after a run, written exactly when the memory is rotated. */
  function HostAfter(run: Outcome, r: string, mem: Pair, d: Disk, e: Solo): Disk {
    if RefreshSent(r) in run.sent then HostAfterRefresh(r, mem, d, e) else d
  }

  /** A run that gets past its first attempt is that attempt followed by the renewal. */
  lemma TalkRenews(c: Reading, refreshable: bool, r: string, f: ClientFiles, mem: Pair, e: Solo)
    requires PrintableAnswer(e) && e.reachable && (c.value == "" ==> refreshable)
    requires var first := SoloWorld(c.value, r, f, mem, e).first;
             Tries(c) ==> first.Received? && first.reply.status == UNAUTHORIZED
    ensures var run := Talk(c, refreshable, r, f, mem, e);
            var renewed := Renew(r, f, SoloWorld(c.value, r, f, mem, e));
            && run.sent == (if Tries(c) then [ExecuteSent(c.value)] else []) + renewed.sent
            && run.files == renewed.files && run.final == renewed.final
            && MemoryAfter(run, r, mem, e) == (if r != "" && AcceptsRefresh(mem, r, e.t2) then NextPair(e) else mem)
            && (RefreshSent(r) in run.sent <==> r != "")
  {
    if r != "" {
      var renewed := Renew(r, f, SoloWorld(c.value, r, f, mem, e));
      assert renewed.sent[0] == RefreshSent(r);
    }
  }

  lemma TalkEndsEarly(c: Reading, refreshable: bool, r: string, f: ClientFiles, mem: Pair, e: Solo)
    requires PrintableAnswer(e)
    requires var first := SoloWorld(c.value, r, f, mem, e).first;
             || (c.value == "" && !refreshable) || !e.reachable
             || (Tries(c) && (first.NothingReceived? || first.reply.status != UNAUTHORIZED))
    ensures var run := Talk(c, refreshable, r, f, mem, e);
            && run.sent == (if Tries(c) && e.reachable then [ExecuteSent(c.value)] else [])
            && run.files == f && MemoryAfter(run, r, mem, e) == mem && RefreshSent(r) !in run.sent
            && run.final == if Tries(c) && e.reachable then SoloWorld(c.value, r, f, mem, e).first else NothingReceived
  {}

  lemma AppendInTwo(log: seq<Sent>, first: seq<Sent>, rest: seq<Sent>)
    ensures log + first + rest == log + (first + rest)
  {}

  class Client {
    var access: Option<string>
    var refresh: Option<string>
    var legacy: Option<string>
    /** The requests sent so far. */
    ghost var log: seq<Sent>

    function Files(): ClientFiles
      reads this
    {
      ClientFiles(access, refresh, legacy)
    }

    constructor (f: ClientFiles)
      ensures Files() == f && log == []
    {
      access, refresh, legacy, log := f.access, f.refresh, f.legacy, [];
    }

    /** executeWithAuth against a daemon in reach. */
    method ExecuteWithAuth(server: Server, token: string, t: int, e: Solo, lost: bool) returns (r: Received)
      requires IsInt64(e.request.timeoutMs)
      modifies this`log, server`launches
      ensures log == old(log) + [ExecuteSent(token)]
      ensures r == Deliver(Answer(AcceptsAccess(server.Memory(), token, t), e.request), lost)
      ensures server.launches <= old(server.launches) + 1
      ensures r.Received? && r.reply.status == UNAUTHORIZED ==> server.launches == old(server.launches)
    {
      log := log + [ExecuteSent(token)];
      BearerArrives(token);
      var reply := server.HandleExecute("Bearer " + token, t, e.request);
      r := Deliver(reply, lost);
    }

    /** attemptRefresh. */
    method AttemptRefresh(server: Server, token: string, e: Solo) returns (r: Refreshed)
      requires PrintableAnswer(e)
      modifies this`log, server`accessToken, server`refreshToken, server.files
      ensures log == old(log) + [RefreshSent(token)]
      ensures var granted := AcceptsRefresh(old(server.Memory()), token, e.t2);
              && r == (if granted && !e.lost2 then TokensOf(NextPair(e), e.zone) else NoTokens)
              && server.Memory() == (if granted then NextPair(e) else old(server.Memory()))
              && server.files.Contents()
                   == HostAfterRefresh(token, old(server.Memory()), old(server.files.Contents()), e)
    {
      log := log + [RefreshSent(token)];
      BearerArrives(token);
      var answer := server.HandleTokenRefresh(true, "Bearer " + token, e.t2, e.freshAccess, e.freshRefresh, e.ok);
      r := if answer.NewPair? && !e.lost2 then TokensOf(answer.pair, e.zone) else NoTokens;
    }

    method ReadAccess(now: int) returns (c: Reading)
      ensures c == Chosen(Files(), now)
    {
      c := Read(access, now);
      if c.value == "" {
        c := Read(legacy, now);
      }
    }

    method ReadRefresh() returns (r: string)
      ensures r == RefreshValue(Files())
    {
      r := Read(refresh, 0).value;
      if r == "" {
        r := Read(legacy, 0).value;
      }
    }

    /** The two saves and the retry. */
    method StoreAndRetry(server: Server, t: Refreshed, e: Solo) returns (error: CommandError)
      requires t.NewTokens? && IsInt64(e.request.timeoutMs)
      modifies this, server`launches
      ensures Files() == old(Files()).(access := SaveText(old(access), t.access, t.accessExpires, e.savesAccess),
                                       refresh := SaveText(old(refresh), t.refresh, t.refreshExpires, e.savesRefresh))
      ensures log == old(log) + [ExecuteSent(t.access)]
      ensures error == ProxyError(Deliver(Answer(AcceptsAccess(server.Memory(), t.access, e.t3), e.request), e.lost3))
      ensures server.launches <= old(server.launches) + 1
    {
      access := SaveText(access, t.access, t.accessExpires, e.savesAccess);
      refresh := SaveText(refresh, t.refresh, t.refreshExpires, e.savesRefresh);
      var resp := ExecuteWithAuth(server, t.access, e.t3, e, e.lost3);
      error := ProxyError(resp);
    }

    /** The refresh, the saves and the retry with a given refresh value. */
    method RenewWith(server: Server, refreshToken: string, first: string, e: Solo) returns (error: CommandError)
      requires PrintableAnswer(e) && IsInt64(e.request.timeoutMs)
      modifies this, server, server.files
      ensures var run := Renew(refreshToken, old(Files()),
                               SoloWorld(first, refreshToken, old(Files()), old(server.Memory()), e));
              && error == ProxyError(run.final) && Files() == run.files && log == old(log) + run.sent
      ensures server.Memory() == if refreshToken != "" && AcceptsRefresh(old(server.Memory()), refreshToken, e.t2)
                                 then NextPair(e) else old(server.Memory())
      ensures server.files.Contents()
          == HostAfterRefresh(refreshToken, old(server.Memory()), old(server.files.Contents()), e)
      ensures server.launches <= old(server.launches) + 1
    {
      if refreshToken == "" {
        return ExitStatus(INFRA_FAILURE);
      }
      var newTokens := AttemptRefresh(server, refreshToken, e);
      if newTokens.NoTokens? {
        return ExitStatus(INFRA_FAILURE);
      }
      ghost var before := old(log);
      error := StoreAndRetry(server, newTokens, e);
      AppendInTwo(before, [RefreshSent(refreshToken)], [ExecuteSent(newTokens.access)]);
    }

    /** The part of runProxy that follows a 401 or a token known to have expired. */
    method RenewAndRetry(server: Server, first: string, e: Solo) returns (error: CommandError)
      requires PrintableAnswer(e) && IsInt64(e.request.timeoutMs)
      modifies this, server, server.files
      ensures var r := RefreshValue(old(Files()));
              var run := Renew(r, old(Files()), SoloWorld(first, r, old(Files()), old(server.Memory()), e));
              && error == ProxyError(run.final) && Files() == run.files && log == old(log) + run.sent
              && server.Memory()
                   == (if r != "" && AcceptsRefresh(old(server.Memory()), r, e.t2) then NextPair(e)
                       else old(server.Memory()))
              && server.files.Contents() == HostAfterRefresh(r, old(server.Memory()), old(server.files.Contents()), e)
      ensures server.launches <= old(server.launches) + 1
    {
      var refreshToken := ReadRefresh();
      error := RenewWith(server, refreshToken, first, e);
    }

    /** runProxy up to the renewal: done when the run ends before it. */
    method FirstAttempt(server: Server, c: Reading, refreshable: bool, e: Solo)
      returns (done: bool, error: CommandError)
      requires PrintableAnswer(e) && IsInt64(e.request.timeoutMs)
      modifies this`log, server`launches
      ensures var first := Deliver(Answer(AcceptsAccess(server.Memory(), c.value, e.t1), e.request), e.lost1);
              && (done <==> (c.value == "" && !refreshable) || !e.reachable
                            || (Tries(c) && (first.NothingReceived? || first.reply.status != UNAUTHORIZED)))
              && (done && Tries(c) && e.reachable ==> error == ProxyError(first))
              && (done && !(Tries(c) && e.reachable) ==> error == ExitStatus(INFRA_FAILURE))
      ensures log == old(log) + if Tries(c) && e.reachable then [ExecuteSent(c.value)] else []
      ensures server.launches <= old(server.launches) + if done then 1 else 0
    {
      if c.value == "" && !refreshable {
        return true, ExitStatus(INFRA_FAILURE);
      }
      if !e.reachable {
        return true, ExitStatus(INFRA_FAILURE);
      }
      if c.valid && c.value != "" {
        var resp := ExecuteWithAuth(server, c.value, e.t1, e, e.lost1);
        if resp.NothingReceived? || resp.reply.status != UNAUTHORIZED {
          return true, ProxyError(resp);
        }
      }
      return false, Nil;
    }

    /** runProxy once it has its access token. */
    method Exchange(server: Server, c: Reading, refreshable: bool, e: Solo) returns (error: CommandError)
      requires PrintableAnswer(e) && IsInt64(e.request.timeoutMs)
      modifies this, server, server.files
      ensures var r := RefreshValue(old(Files()));
              var run := Talk(c, refreshable, r, old(Files()), old(server.Memory()), e);
              && error == ProxyError(run.final) && Files() == run.files && log == old(log) + run.sent
              && server.Memory() == MemoryAfter(run, r, old(server.Memory()), e)
              && server.files.Contents() == HostAfter(run, r, old(server.Memory()), old(server.files.Contents()), e)
      ensures server.launches <= old(server.launches) + 1
    {
      ghost var f, mem, before := Files(), server.Memory(), log;
      ghost var r := RefreshValue(f);
      ghost var tried := if Tries(c) then [ExecuteSent(c.value)] else [];
      var done;
      done, error := FirstAttempt(server, c, refreshable, e);
      assert Files() == f && server.Memory() == mem;
      if done {
        TalkEndsEarly(c, refreshable, r, f, mem, e);
        return;
      }
      assert log == before + tried;
      ghost var renewed := Renew(r, f, SoloWorld(c.value, r, f, mem, e));
      TalkRenews(c, refreshable, r, f, mem, e);
      error := RenewAndRetry(server, c.value, e);
      AppendInTwo(before, tried, renewed.sent);
    }

    /** runProxy against one daemon. */
    method RunProxy(server: Server, e: Solo) returns (error: CommandError)
      requires PrintableAnswer(e) && IsInt64(e.request.timeoutMs)
      modifies this, server, server.files
      ensures var run := SoloRun(old(Files()), old(server.Memory()), e);
              && error == ProxyError(run.final) && Files() == run.files && log == old(log) + run.sent
              && server.Memory() == MemoryAfter(run, RefreshValue(old(Files())), old(server.Memory()), e)
              && server.files.Contents()
                   == HostAfter(run, RefreshValue(old(Files())), old(server.Memory()), old(server.files.Contents()), e)
      ensures server.launches <= old(server.launches) + 1
    {
      var c := ReadAccess(e.now);
      error := Exchange(server, c, Read(refresh, 0).value != "", e);
    }
  }

  // ---------- Recovery ----------

  /** The pair the daemon would issue survives a file. */
  predicate DrawsWell(e: Solo) {
    && Hex(e.freshAccess) && Hex(e.freshRefresh)
    && Reloadable(NextPair(e).access, e.zone) && Reloadable(NextPair(e).refresh, e.zone)
  }

  /** Nothing fails on the way: the daemon is in reach, no reply is lost, both client saves work, the
      request itself is a well-addressed one, and the values drawn are hexadecimal. */
  predicate Calm(e: Solo) {
    && e.reachable && !e.lost1 && !e.lost2 && !e.lost3 && e.savesAccess && e.savesRefresh && e.request.post
    && DrawsWell(e)
  }

  lemma TalkPassesExactlyWhen(c: Reading, refreshable: bool, r: string, f: ClientFiles, mem: Pair, e: Solo)
    requires Calm(e) && (c.value == "" && !refreshable ==> r == "")
    ensures Talk(c, refreshable, r, f, mem, e).Authenticated() <==>
            || (c.valid && AcceptsAccess(mem, c.value, e.t1))
            || (AcceptsRefresh(mem, r, e.t2) && e.t3 < e.t2 + ACCESS_TTL)
  {}

  /** With nothing failing on the way, a run that gets through relays the host's own answer to its request,
      be it the first attempt's or the retry's. */
  lemma TalkRelays(c: Reading, refreshable: bool, r: string, f: ClientFiles, mem: Pair, e: Solo)
    requires Calm(e) && Talk(c, refreshable, r, f, mem, e).Authenticated()
    ensures Talk(c, refreshable, r, f, mem, e).final == Received(Answer(true, e.request), true)
  {}

  lemma ReadValueIgnoresTheTime(data: Option<string>, now: int)
    ensures Read(data, now).value == Read(data, 0).value
  {}

  lemma NoAccessNoLegacy(f: ClientFiles, now: int)
    requires Chosen(f, now).value == "" && Read(f.refresh, 0).value == ""
    ensures RefreshValue(f) == ""
  {
    var legacy := f.legacy;
    ReadValueIgnoresTheTime(legacy, now);
  }

  /** With nothing failing and no other client's step, a run gets through exactly when its first token
      is accepted, or its refresh value is the daemon's current unexpired one and the retry comes within
      the new access token's hour. Nothing else in the files matters. */
  lemma RecoversExactlyWhen(f: ClientFiles, mem: Pair, e: Solo)
    requires Calm(e)
    ensures SoloRun(f, mem, e).Authenticated() <==>
            || (Chosen(f, e.now).valid && AcceptsAccess(mem, Chosen(f, e.now).value, e.t1))
            || (AcceptsRefresh(mem, RefreshValue(f), e.t2) && e.t3 < e.t2 + ACCESS_TTL)
  {
    var c, refreshable := Chosen(f, e.now), Read(f.refresh, 0).value != "";
    if c.value == "" && !refreshable {
      NoAccessNoLegacy(f, e.now);
    }
    TalkPassesExactlyWhen(c, refreshable, RefreshValue(f), f, mem, e);
  }

  lemma SuccessIsTheHostsAnswer(f: ClientFiles, mem: Pair, e: Solo)
    requires Calm(e) && SoloRun(f, mem, e).Authenticated()
    ensures SoloRun(f, mem, e).final == Received(Answer(true, e.request), true)
  {
    TalkRelays(Chosen(f, e.now), Read(f.refresh, 0).value != "", RefreshValue(f), f, mem, e);
  }

  /** What a written pair reads back as. */
  lemma StoredPairLoads(f: ClientFiles, mem: Pair, e: Solo)
    requires Calm(e)
    ensures var stored := Store(f, TokensOf(NextPair(e), e.zone), SoloWorld("", "", f, mem, e));
            && stored.access.Some? && Load(stored.access.value) == Some(NextPair(e).access.Saved())
            && stored.refresh.Some? && Load(stored.refresh.value) == Some(NextPair(e).refresh.Saved())
            && stored.legacy == f.legacy
  {
    var next := NextPair(e);
    HexFits(e.freshAccess);
    HexFits(e.freshRefresh);
    LoadUndoesSave(next.access, e.zone);
    LoadUndoesSave(next.refresh, e.zone);
  }

  lemma TalkFilesAfterGrant(c: Reading, refreshable: bool, r: string, f: ClientFiles, mem: Pair, e: Solo)
    requires PrintableAnswer(e) && AcceptsRefresh(mem, r, e.t2)
    requires RefreshSent(r) in Talk(c, refreshable, r, f, mem, e).sent
    ensures var run := Talk(c, refreshable, r, f, mem, e);
            && MemoryAfter(run, r, mem, e) == NextPair(e)
            && run.files == if e.lost2 then f else
                              Store(f, TokensOf(NextPair(e), e.zone), SoloWorld(c.value, r, f, mem, e))
  {}

  lemma TalkStoresWhatItRotated(c: Reading, refreshable: bool, r: string, f: ClientFiles, mem: Pair, e: Solo)
    requires Calm(e) && AcceptsRefresh(mem, r, e.t2)
    ensures var run := Talk(c, refreshable, r, f, mem, e);
            if RefreshSent(r) in run.sent
            then MemoryAfter(run, r, mem, e) == NextPair(e)
                 && run.files == Store(f, TokensOf(NextPair(e), e.zone), SoloWorld("", "", f, mem, e))
            else MemoryAfter(run, r, mem, e) == mem && run.files == f
  {}

  /** Recovery: a client whose refresh value is the daemon's current unexpired one gets through, with
      any access and legacy files at all; and if it refreshed, its two files load to exactly the pair the
      daemon now holds, while otherwise neither side has changed. */
  lemma HolderOfTheRefreshValueRecovers(f: ClientFiles, mem: Pair, e: Solo)
    requires Calm(e)
    requires RefreshValue(f) == mem.refresh.value != "" && mem.refresh.ValidAt(e.t2) && e.t3 < e.t2 + ACCESS_TTL
    ensures var run := SoloRun(f, mem, e);
            var after := MemoryAfter(run, RefreshValue(f), mem, e);
            && run.Authenticated() && run.final == Received(Answer(true, e.request), true)
            && run.files.legacy == f.legacy
            && if RefreshSent(RefreshValue(f)) in run.sent
               then after == NextPair(e)
                    && run.files.access.Some? && Load(run.files.access.value) == Some(after.access.Saved())
                    && run.files.refresh.Some? && Load(run.files.refresh.value) == Some(after.refresh.Saved())
               else run.files == f && after == mem
  {
    RecoversExactlyWhen(f, mem, e);
    SuccessIsTheHostsAnswer(f, mem, e);
    StoredPairLoads(f, mem, e);
    TalkStoresWhatItRotated(Chosen(f, e.now), Read(f.refresh, 0).value != "", RefreshValue(f), f, mem, e);
  }

  /** If the host's own saves work as well, that refresh leaves host and client with the same tokens. */
  lemma RefreshLeavesHostAndClientAlike(f: ClientFiles, mem: Pair, d: Disk, e: Solo)
    requires Calm(e) && e.ok == Saves(true, true, true)
    requires RefreshValue(f) == mem.refresh.value != "" && mem.refresh.ValidAt(e.t2) && e.t3 < e.t2 + ACCESS_TTL
    requires RefreshSent(RefreshValue(f)) in SoloRun(f, mem, e).sent
    ensures var run := SoloRun(f, mem, e);
            var host := HostAfter(run, RefreshValue(f), mem, d, e);
            && run.files.access.Some? && Load(run.files.access.value).Some?
            && run.files.refresh.Some? && Load(run.files.refresh.value).Some?
            && host.access == host.legacy == Holds(Load(run.files.access.value).value)
            && host.refresh == Holds(Load(run.files.refresh.value).value)
  {
    HolderOfTheRefreshValueRecovers(f, mem, e);
  }

  /** A saved token's file yields its value. */
  lemma SavedRefreshIsRead(access: Option<string>, legacy: Option<string>, t: Token, zone: int)
    requires Reloadable(t, zone) && FitsOneLine(t.value)
    ensures RefreshValue(ClientFiles(access, Some(SavedText(t, zone)), legacy)) == t.value
  {
    LoadUndoesSave(t, zone);
    ReadAgreesWithLoad(SavedText(t, zone), 0);
  }

  /** The advice given with every authentication failure: copying the host's refresh.token is enough,
      whatever the other two files contain. */
  lemma CopiedRefreshTokenRepairs(access: Option<string>, legacy: Option<string>, mem: Pair, zone: int, e: Solo)
    requires Calm(e) && Reloadable(mem.refresh, zone) && FitsOneLine(mem.refresh.value)
    requires mem.refresh.ValidAt(e.t2) && e.t3 < e.t2 + ACCESS_TTL
    ensures SoloRun(ClientFiles(access, Some(SavedText(mem.refresh, zone)), legacy), mem, e).Authenticated()
  {
    var f := ClientFiles(access, Some(SavedText(mem.refresh, zone)), legacy);
    SavedRefreshIsRead(access, legacy, mem.refresh, zone);
    HolderOfTheRefreshValueRecovers(f, mem, e);
  }
}
