/** The daemon in its own form: a Server object whose handlers read and swap its two tokens and write
    the token files, and the start-up sequence that builds it. Each method is tied to the step system of
    module Lifecycle, so the run theorems speak about these handlers. */
module Server {
  import opened Tokens
  import opened Text
  import opened Execution
  import L = Lifecycle

  // ---------- The bearer ----------

  /** extractBearer on the Authorization header's value. */
  function ExtractBearer(header: string): string {
    match SplitFirst(header, ' ')
    case Whole(_) => ""
    case Two(scheme, rest) => if scheme == "Bearer" then rest else ""
  }

  /** The header a client builds delivers exactly the value it put in. */
  lemma BearerArrives(value: string)
    ensures ExtractBearer("Bearer " + value) == value
  {
    SplitFirstAt("Bearer", ' ', value);
    assert "Bearer" + [' '] + value == "Bearer " + value;
  }

  /** And no other header delivers a value: not one with another scheme, with the scheme in another case,
      or with nothing after it. */
  lemma BearerExactlyWhen(header: string, value: string)
    requires value != ""
    ensures ExtractBearer(header) == value <==> header == "Bearer " + value
  {
    BearerArrives(value);
    if ExtractBearer(header) == value {
      var i := Find(header, ' ');
      assert header == header[..i] + [' '] + header[i + 1..];
      assert "Bearer" + [' '] + value == "Bearer " + value;
    }
  }

  // ---------- Token files ----------

  class TokenDirectory {
    var access: File
    var refresh: File
    var legacy: File

    function Contents(): Disk
      reads this
    {
      Disk(access, refresh, legacy)
    }

    constructor (d: Disk)
      ensures Contents() == d
    {
      access, refresh, legacy := d.access, d.refresh, d.legacy;
    }

    /** SaveToPath on each of the three paths; false is an error the callers see. */
    method SaveAccess(t: Token, saved: bool)
      modifies this
      ensures Contents() == old(Contents()).(access := Save(old(access), t, saved))
    {
      if saved {
        access := Holds(t.Saved());
      }
    }

    method SaveRefresh(t: Token, saved: bool)
      modifies this
      ensures Contents() == old(Contents()).(refresh := Save(old(refresh), t, saved))
    {
      if saved {
        refresh := Holds(t.Saved());
      }
    }

    method SaveLegacy(t: Token, saved: bool)
      modifies this
      ensures Contents() == old(Contents()).(legacy := Save(old(legacy), t, saved))
    {
      if saved {
        legacy := Holds(t.Saved());
      }
    }

    /** MigrateLegacyToken. */
    method MigrateLegacyToken(now: int, saved: bool)
      modifies this
      ensures Contents() == L.MigrateDisk(old(Contents()), now, saved)
    {
      if refresh != Missing {
        return;
      }
      if !legacy.Holds? {
        return;
      }
      var t := legacy.token;
      if !t.ValidAt(now) {
        return;
      }
      SaveRefresh(t, saved);
    }

    /** LoadOrGenerateRefresh: the token, whether it is new, and whether saving a new one failed. */
    method LoadOrGenerateRefresh(now: int, minted: string, saved: bool) returns (t: Token, isNew: bool, failed: bool)
      modifies this
      ensures isNew <==> !L.Reuses(old(Contents()), now)
      ensures failed <==> isNew && !saved
      ensures t == if isNew then Generate(Refresh, minted, now) else old(refresh).token
      ensures Contents() == if isNew then old(Contents()).(refresh := Save(old(refresh), t, saved)) else old(Contents())
    {
      if refresh.Holds? && refresh.token.ValidAt(now) {
        return refresh.token, false, false;
      }
      t := Generate(Refresh, minted, now);
      SaveRefresh(t, saved);
      isNew, failed := true, !saved;
    }
  }

  // ---------- The server ----------

  datatype RefreshAnswer = NotPost | Denied | NewPair(pair: Pair)

  /** The three saves of the refresh handler, each of which may fail with only a warning. */
  function SavedAll(d: Disk, next: Pair, ok: Saves): Disk {
    Disk(Save(d.access, next.access, ok.access), Save(d.refresh, next.refresh, ok.refresh),
         Save(d.legacy, next.access, ok.legacy))
  }

  class Server {
    var accessToken: Token
    var refreshToken: Token
    const files: TokenDirectory
    /** How many op processes this daemon has started. */
    ghost var launches: nat

    function Memory(): Pair
      reads this
    {
      Pair(accessToken, refreshToken)
    }

    constructor (access: Token, refresh: Token, files: TokenDirectory)
      ensures Memory() == Pair(access, refresh) && this.files == files && launches == 0
    {
      accessToken, refreshToken, this.files, launches := access, refresh, files, 0;
    }

    /** authenticateAccess. */
    method AuthenticateAccess(header: string, now: int) returns (ok: bool)
      ensures ok <==> AcceptsAccess(Memory(), ExtractBearer(header), now)
    {
      var bearerVal := ExtractBearer(header);
      if bearerVal == "" {
        return false;
      }
      var tokenVal, valid := accessToken.value, accessToken.ValidAt(now);
      ok := bearerVal == tokenVal && valid;
    }

    /** handleTokenRefresh: all-or-nothing in memory, file by file on disk. */
    method HandleTokenRefresh(post: bool, header: string, now: int, freshAccess: string, freshRefresh: string,
                              ok: Saves)
      returns (answer: RefreshAnswer)
      modifies this`accessToken, this`refreshToken, files
      ensures var next := Pair(Generate(Access, freshAccess, now), Generate(Refresh, freshRefresh, now));
              if post && AcceptsRefresh(old(Memory()), ExtractBearer(header), now)
              then answer == NewPair(next) && Memory() == next
                  && files.Contents() == SavedAll(old(files.Contents()), next, ok)
              else answer == (if post then Denied else NotPost)
                   && Memory() == old(Memory()) && files.Contents() == old(files.Contents())
    {
      if !post {
        return NotPost;
      }
      var bearerVal := ExtractBearer(header);
      if bearerVal == "" {
        return Denied;
      }
      if bearerVal != refreshToken.value || !refreshToken.ValidAt(now) {
        return Denied;
      }
      var newAccess := Generate(Access, freshAccess, now);
      var newRefresh := Generate(Refresh, freshRefresh, now);
      files.SaveAccess(newAccess, ok.access);
      files.SaveRefresh(newRefresh, ok.refresh);
      files.SaveLegacy(newAccess, ok.legacy);
      accessToken := newAccess;
      refreshToken := newRefresh;
      answer := NewPair(Pair(newAccess, newRefresh));
    }

    /** handleExecute: it never touches the tokens, and an op process is started only for a request that
        authenticated, so never for one answered 401. */
    method HandleExecute(header: string, now: int, r: Request) returns (reply: Reply)
      requires IsInt64(r.timeoutMs)
      modifies this`launches
      ensures reply == Answer(AcceptsAccess(Memory(), ExtractBearer(header), now), r)
      ensures launches == old(launches) + (if reply.started then 1 else 0)
      ensures reply.started ==> reply.status != UNAUTHORIZED
    {
      if !r.post {
        return Reply(METHOD_NOT_ALLOWED, NO_RESULT, false);
      }
      var authenticated := AuthenticateAccess(header, now);
      if !authenticated {
        return Reply(UNAUTHORIZED, NO_RESULT, false);
      }
      if r.outdated {
        return Reply(UPGRADE_REQUIRED, NO_RESULT, false);
      }
      if !r.wellFormed {
        return Reply(BAD_REQUEST, NO_RESULT, false);
      }
      var outcome := Execute(r.timeoutMs, r.host);
      launches := launches + if outcome.started then 1 else 0;
      if outcome.Failed? {
        return Reply(SERVER_ERROR, NO_RESULT, outcome.started);
      }
      reply := Reply(OK, outcome.result, outcome.started);
    }
  }

  /** Outcomes of the start-up sequence's saves. */
  datatype StartupSaves = StartupSaves(migration: bool, refresh: bool, access: bool, legacy: bool)

  /** The refresh token a start finds or makes, after migration. */
  function StartupRefresh(d: Disk, now: int, freshRefresh: string, ok: StartupSaves): Token {
    var m := L.MigrateDisk(d, now, ok.migration);
    if L.Reuses(m, now) then m.refresh.token else Generate(Refresh, freshRefresh, now)
  }

  /** Whether a start gets as far as serving. */
  predicate StartupSucceeds(d: Disk, now: int, ok: StartupSaves) {
    (L.Reuses(L.MigrateDisk(d, now, ok.migration), now) || ok.refresh) && ok.access
  }

  /** The token files after a start, complete or cut short by a failed save. */
  function StartupDisk(d: Disk, now: int, freshRefresh: string, freshAccess: string, ok: StartupSaves): Disk {
    var m := L.MigrateDisk(d, now, ok.migration);
    var access := Generate(Access, freshAccess, now);
    var r := if L.Reuses(m, now) then m.refresh else Save(m.refresh, Generate(Refresh, freshRefresh, now), ok.refresh);
    if !L.Reuses(m, now) && !ok.refresh then m
    else if !ok.access then m.(refresh := r)
    else Disk(Holds(access.Saved()), r, Save(m.legacy, access, ok.legacy))
  }

  /** Which refresh token a start serves with: the stored one while it is good; else, if there is none at
      all, the old session token, when migrating it works and its expiry, cut to the second, has not passed;
      else a new one. */
  lemma StartServesWith(d: Disk, now: int, freshRefresh: string, ok: StartupSaves)
    ensures StartupRefresh(d, now, freshRefresh, ok) ==
            if d.refresh.Holds? && now < d.refresh.token.expires then d.refresh.token
            else if d.refresh.Missing? && d.legacy.Holds? && now < Truncate(d.legacy.token.expires) && ok.migration
            then Token(d.legacy.token.value, Truncate(d.legacy.token.expires))
            else Token(freshRefresh, now + REFRESH_TTL)
  {}

  /** runServe up to the listener: nil when it stops with an error. */
  method Serve(files: TokenDirectory, now: int, freshRefresh: string, freshAccess: string, ok: StartupSaves)
    returns (server: Server?)
    modifies files
    ensures server != null <==> StartupSucceeds(old(files.Contents()), now, ok)
    ensures files.Contents() == StartupDisk(old(files.Contents()), now, freshRefresh, freshAccess, ok)
    ensures server != null ==>
              && fresh(server) && server.files == files
              && server.Memory() == Pair(Generate(Access, freshAccess, now),
                                         StartupRefresh(old(files.Contents()), now, freshRefresh, ok))
              && files.access == Holds(server.accessToken.Saved())
              && Mirrors(files.refresh, server.refreshToken)
              && (ok.legacy ==> files.legacy == Holds(server.accessToken.Saved()))
  {
    files.MigrateLegacyToken(now, ok.migration);
    var refreshToken, isNew, failed := files.LoadOrGenerateRefresh(now, freshRefresh, ok.refresh);
    if failed {
      return null;
    }
    var accessToken := Generate(Access, freshAccess, now);
    files.SaveAccess(accessToken, ok.access);
    if !ok.access {
      return null;
    }
    files.SaveLegacy(accessToken, ok.legacy);
    server := new Server(accessToken, refreshToken, files);
  }

  // ---------- The methods are runs of the step system ----------

  /** The check and the draw of a new pair. */
  lemma GrantIsTwoSteps(s: L.State, bearer: string, a: string, r: string, next: Pair) returns (s1: L.State, s2: L.State)
    requires s.proc.Serving? && s.proc.lock.Free? && AcceptsRefresh(s.proc.mem, bearer, s.now)
    requires L.Unused(s, a) && L.Unused(s, r) && a != r
    requires next == Pair(Generate(Access, a, s.now), Generate(Refresh, r, s.now))
    ensures L.Step(s, L.Ask(bearer), s1) && L.Step(s1, L.Mint(a, r), s2)
    ensures s2 == s.(proc := s.proc.(lock := L.Saving(bearer, next, 0, Saves(false, false, false))),
                     seen := s.seen[a := L.Made(Access, s.now)][r := L.Made(Refresh, s.now)])
  {
    s1 := L.Next(s, L.Ask(bearer));
    s2 := L.Next(s1, L.Mint(a, r));
  }

  /** The three saves, once the handler has its new pair. */
  lemma SavesAreThreeSteps(s: L.State, mem: Pair, bearer: string, next: Pair, synced: Saves, checks: map<nat, L.Check>,
                           ok: Saves)
    returns (s1: L.State, s2: L.State, s3: L.State)
    requires s.proc == L.Serving(mem, L.Saving(bearer, next, 0, Saves(false, false, false)), synced, checks)
    ensures L.Step(s, L.SaveNext(ok.access), s1) && L.Step(s1, L.SaveNext(ok.refresh), s2)
        && L.Step(s2, L.SaveNext(ok.legacy), s3)
    ensures s3 == s.(proc := L.Serving(mem, L.Saving(bearer, next, 3, ok), synced, checks),
                     disk := SavedAll(s.disk, next, ok))
  {
    s1 := L.Next(s, L.SaveNext(ok.access));
    s2 := L.Next(s1, L.SaveNext(ok.refresh));
    s3 := L.Next(s2, L.SaveNext(ok.legacy));
  }

  /** The swap and the answer. */
  lemma CommitIsTwoSteps(s: L.State, mem: Pair, bearer: string, next: Pair, synced: Saves, checks: map<nat, L.Check>,
                         ok: Saves)
    returns (s1: L.State, s2: L.State)
    requires s.proc == L.Serving(mem, L.Saving(bearer, next, 3, ok), synced, checks)
    ensures L.Step(s, L.Swap, s1) && L.Step(s1, L.Reply, s2)
    ensures s2 == s.(proc := L.Serving(next, L.Free, ok, checks))
  {
    s1 := L.Next(s, L.Swap);
    s2 := L.Next(s1, L.Reply);
  }

  /** A granted refresh request is exactly seven steps under the lock, ending as the method does. */
  lemma RefreshIsSevenSteps(s: L.State, bearer: string, a: string, r: string, ok: Saves) returns (mid: seq<L.State>)
    requires s.proc.Serving? && s.proc.lock.Free? && AcceptsRefresh(s.proc.mem, bearer, s.now)
    requires L.Unused(s, a) && L.Unused(s, r) && a != r
    ensures |mid| == 8 && mid[0] == s
    ensures L.Step(mid[0], L.Ask(bearer), mid[1]) && L.Step(mid[1], L.Mint(a, r), mid[2])
    ensures L.Step(mid[2], L.SaveNext(ok.access), mid[3]) && L.Step(mid[3], L.SaveNext(ok.refresh), mid[4])
    ensures L.Step(mid[4], L.SaveNext(ok.legacy), mid[5]) && L.Step(mid[5], L.Swap, mid[6])
        && L.Step(mid[6], L.Reply, mid[7])
    ensures mid[5].proc.Serving? && mid[5].proc.mem == s.proc.mem
    ensures var next := Pair(Generate(Access, a, s.now), Generate(Refresh, r, s.now));
            mid[7] == s.(proc := s.proc.(mem := next, synced := ok), disk := SavedAll(s.disk, next, ok),
                         seen := s.seen[a := L.Made(Access, s.now)][r := L.Made(Refresh, s.now)])
  {
    var next := Pair(Generate(Access, a, s.now), Generate(Refresh, r, s.now));
    var s1, s2 := GrantIsTwoSteps(s, bearer, a, r, next);
    var s3, s4, s5 := SavesAreThreeSteps(s2, s.proc.mem, bearer, next, s.proc.synced, s.proc.checks, ok);
    var s6, s7 := CommitIsTwoSteps(s5, s.proc.mem, bearer, next, s.proc.synced, s.proc.checks, ok);
    mid := [s, s1, s2, s3, s4, s5, s6, s7];
  }

  /** An access check is exactly two steps, and with nothing between them its verdict is the method's
      answer. Neither step changes anything else; of handleExecute nothing else touches the tokens. */
  lemma AccessCheckIsTwoSteps(s: L.State, id: nat, bearer: string) returns (s1: L.State, s2: L.State)
    requires s.proc.Serving? && s.proc.lock.Free? && bearer != "" && id !in s.proc.checks
    ensures L.Step(s, L.OpenCheck(id, bearer), s1) && L.Step(s1, L.CloseCheck(id), s2) && s2 == s
    ensures s1.proc.Serving? && id in s1.proc.checks
    ensures s1.proc.checks[id].Verdict() <==> AcceptsAccess(s.proc.mem, bearer, s.now)
  {
    s1 := L.Next(s, L.OpenCheck(id, bearer));
    s2 := L.Next(s1, L.CloseCheck(id));
    assert s2.proc.checks == s.proc.checks;
  }

  /** A start that succeeds is exactly four steps, ending as Serve does. */
  lemma StartupIsFourSteps(s: L.State, freshRefresh: string, freshAccess: string, ok: StartupSaves)
    returns (mid: seq<L.State>)
    requires s.proc.Down? && L.Unused(s, freshRefresh) && L.Unused(s, freshAccess) && freshRefresh != freshAccess
    requires StartupSucceeds(s.disk, s.now, ok)
    ensures |mid| == 5 && mid[0] == s
    ensures L.Step(mid[0], L.Migrate(ok.migration), mid[1])
        && L.Step(mid[1], L.LoadRefresh(freshRefresh, ok.refresh), mid[2])
    ensures L.Step(mid[2], L.MintAccess(freshAccess, ok.access), mid[3])
        && L.Step(mid[3], L.MirrorAccess(ok.legacy), mid[4])
    ensures mid[4].disk == StartupDisk(s.disk, s.now, freshRefresh, freshAccess, ok) && mid[4].now == s.now
    ensures L.Reuses(L.MigrateDisk(s.disk, s.now, ok.migration), s.now)
        ==> mid[4].seen == s.seen[freshAccess := L.Made(Access, s.now)]
    ensures mid[4].proc
         == L.Serving(Pair(Generate(Access, freshAccess, s.now), StartupRefresh(s.disk, s.now, freshRefresh, ok)),
                      L.Free, Saves(true, true, ok.legacy), map[])
  {
    var s1 := L.Next(s, L.Migrate(ok.migration));
    var s2 := L.Next(s1, L.LoadRefresh(freshRefresh, ok.refresh));
    var s3 := L.Next(s2, L.MintAccess(freshAccess, ok.access));
    mid := [s, s1, s2, s3, L.Next(s3, L.MirrorAccess(ok.legacy))];
  }

  /** A start that fails is the first two or three of these steps, the last of which leaves no daemon
      and the files as Serve leaves them. */
  lemma FailedStartIsThoseStepsCutShort(s: L.State, freshRefresh: string, freshAccess: string, ok: StartupSaves)
    returns (mid: seq<L.State>)
    requires s.proc.Down? && L.Unused(s, freshRefresh) && L.Unused(s, freshAccess) && freshRefresh != freshAccess
    requires !StartupSucceeds(s.disk, s.now, ok)
    ensures 3 <= |mid| <= 4 && mid[0] == s
    ensures L.Step(mid[0], L.Migrate(ok.migration), mid[1])
        && L.Step(mid[1], L.LoadRefresh(freshRefresh, ok.refresh), mid[2])
    ensures |mid| == 4 ==> L.Step(mid[2], L.MintAccess(freshAccess, ok.access), mid[3])
    ensures var last := mid[|mid| - 1];
            last.proc.Down? && last.disk == StartupDisk(s.disk, s.now, freshRefresh, freshAccess, ok)
  {
    var s1 := L.Next(s, L.Migrate(ok.migration));
    var s2 := L.Next(s1, L.LoadRefresh(freshRefresh, ok.refresh));
    mid := [s, s1, s2];
    if s2.proc.HasRefresh? {
      mid := mid + [L.Next(s2, L.MintAccess(freshAccess, ok.access))];
    }
  }

  /** A second `serve` for an endpoint already served fails only when it binds, after its start-up has
      rewritten the files: the access token they then show is not accepted by the running daemon, at any
      time, while its refresh token, unless expired, is still the one on disk. */
  lemma SecondServeDisplacesTheAccessToken(mem: Pair, d: Disk, now: int, freshRefresh: string, freshAccess: string,
                                           ok: StartupSaves)
    requires Mirrors(d.access, mem.access) && Mirrors(d.refresh, mem.refresh)
    requires freshAccess != mem.access.value && freshAccess != mem.refresh.value
    ensures var after := StartupDisk(d, now, freshRefresh, freshAccess, ok);
            && (StartupSucceeds(d, now, ok) ==>
                 && after.access.Holds?
                 && forall t :: !AcceptsAccess(mem, after.access.token.value, t))
            && (!StartupSucceeds(d, now, ok) ==> after.access == d.access)
            && (d.refresh.token.ValidAt(now) ==> after.refresh == d.refresh)
  {}
}
