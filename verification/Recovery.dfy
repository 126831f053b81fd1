/** Clients over time: what a daemon restart means for them, and what one run leaves for the next. */
module Recovery {
  import opened Agreement
  import opened Execution
  import opened ExitContract
  import opened Lifecycle
  import opened Optional
  import opened Proxy
  import opened Text
  import opened TimeText
  import opened TokenFile
  import opened Tokens
  import S = Server

  // ---------- From the host to the caller of the shim ----------

  /** With nothing failing on the way, whoever calls the shim of an authenticated client gets what the host
      made of the request: success exactly when op ended in time with status 0 in its low byte, and any other
      low byte but 127 unchanged, also when the run had to refresh first. */
  lemma CallerSeesTheHostsStatus(m: Machine, f: ClientFiles, mem: Pair, e: Solo)
    requires m.HasProxy() && Calm(e) && SoloRun(f, mem, e).Authenticated()
    ensures var end, h := ShimDecision(m, ProcessStatus(ProxyError(SoloRun(f, mem, e).final))), e.request.host;
            var inTime := && Passes(true, e.request) && Starts(e.request)
                          && h.elapsed < Limit(e.request.timeoutMs) && h.end.Exited?;
            && (end == Exits(0) <==> inTime && h.end.code % 256 == 0)
            && (inTime && h.end.code % 256 != INFRA_FAILURE ==> end == Exits(h.end.code % 256))
  {
    SuccessIsTheHostsAnswer(f, mem, e);
    SuccessExactlyWhen(m, e.request);
    if Passes(true, e.request) && Starts(e.request) && e.request.host.elapsed < Limit(e.request.timeoutMs)
       && e.request.host.end.Exited? {
      ChildsOwnStatusArrives(m, e.request);
    }
  }

  // ---------- Which file counts ----------

  predicate Blank(data: Option<string>) {
    data.None? || TrimSpace(data.value) == ""
  }

  lemma BlankHasNoValue(data: Option<string>, now: int)
    requires Blank(data)
    ensures Read(data, now) == Reading("", false)
  {}

  /** access.token counts if it holds anything, and session.token stands in for it, and for refresh.token,
      only if they do not. */
  lemma SessionTokenStandsIn(f: ClientFiles, t: Token, zone: int, now: int)
    requires Reloadable(t, zone) && FitsOneLine(t.value)
    ensures var file, reading := Some(SavedText(t, zone)), Reading(t.value, t.Saved().ValidAt(now));
            && (f.access == file ==> Chosen(f, now) == reading)
            && (f.refresh == file ==> RefreshValue(f) == t.value)
            && (f.legacy == file && Blank(f.access) ==> Chosen(f, now) == reading)
            && (f.legacy == file && Blank(f.refresh) ==> RefreshValue(f) == t.value)
  {
    SavedTokenIsRead(t, zone, now);
    SavedTokenIsRead(t, zone, 0);
    if Blank(f.access) {
      BlankHasNoValue(f.access, now);
    }
    if Blank(f.refresh) {
      BlankHasNoValue(f.refresh, 0);
    }
  }

  /** The upgrade from one token to two: on a host and a client that hold nothing but the same session.token,
      good for longer than the migration, the new daemon's refresh token is that value, and the client's next
      run gets through. */
  lemma UpgradeKeepsClients(d: Disk, now: int, freshRefresh: string, freshAccess: string, ok: S.StartupSaves,
                            zone: int, e: Solo)
    requires d.refresh.Missing? && d.legacy.Holds? && ok.migration
    requires Reloadable(d.legacy.token, zone) && FitsOneLine(d.legacy.token.value)
    requires now < Truncate(d.legacy.token.expires) && e.t2 < Truncate(d.legacy.token.expires)
    requires Calm(e) && e.t3 < e.t2 + ACCESS_TTL
    ensures var mem := Pair(Generate(Access, freshAccess, now), S.StartupRefresh(d, now, freshRefresh, ok));
            && mem.refresh.value == d.legacy.token.value
            && SoloRun(ClientFiles(None, None, Some(SavedText(d.legacy.token, zone))), mem, e).Authenticated()
  {
    var f := ClientFiles(None, None, Some(SavedText(d.legacy.token, zone)));
    var mem := Pair(Generate(Access, freshAccess, now), S.StartupRefresh(d, now, freshRefresh, ok));
    S.StartServesWith(d, now, freshRefresh, ok);
    SessionTokenStandsIn(f, d.legacy.token, zone, 0);
    HolderOfTheRefreshValueRecovers(f, mem, e);
  }

  // ---------- After a restart of the daemon ----------

  /** After a crash and any number of starts, complete or not, the daemon holds the token that refresh.token
      showed, if it has not expired, no rotation was saved before the latest start and none made since. */
  lemma RestartedDaemonHolds(t: Trace, i: nat, l: nat, j: nat)
    requires t.Legal() && i < l < |t.events| && l < j < |t.states|
    requires t.events[i] == Crash && t.states[i].proc.Serving? && t.states[i].disk.refresh.Holds?
    requires t.events[l].LoadRefresh? && NoneLands(t, i + 1, l)
    requires NoStartBetween(t, l + 1, j) && NoneSwaps(t, l + 1, j)
    requires t.states[j].proc.Serving? && t.states[i].disk.refresh.token.ValidAt(t.states[j].now)
    ensures t.states[j].proc.mem.refresh == t.states[i].disk.refresh.token
  {
    var r := t.states[i].disk.refresh.token;
    RunInv(t, i);
    assert Step(t.states[i], t.events[i], t.states[i + 1]);
    LeavesUntil(t, i + 1, l, r.value);
    ClockNeverGoesBack(t, l, j);
    assert Step(t.states[l], t.events[l], t.states[l + 1]);
    LoadedTokenStays(t, l + 1, j, r);
  }

  /** What refresh.token shows when a daemon is killed whose refresh token had been saved. */
  lemma KeptIsOnDisk(t: Trace, i: nat)
    requires t.Legal() && i < |t.states| && t.states[i].proc.Serving?
    requires NewIsSaved(t.states[i]) || t.states[i].proc.synced.refresh
    ensures Mirrors(t.states[i].disk.refresh, Kept(t.states[i]))
  {
    RunInv(t, i);
  }

  /** Clients recover from restarts on their own: one whose refresh value is the last the daemon had saved
      when it was killed, at whatever point, gets through to the daemon running after any number of starts,
      unless that value has expired or has been rotated out since. */
  lemma ClientsRecoverAfterARestart(t: Trace, i: nat, l: nat, j: nat, f: ClientFiles, e: Solo)
    requires t.Legal() && i < l < |t.events| && l < j < |t.states|
    requires t.events[i] == Crash && t.states[i].proc.Serving?
    requires NewIsSaved(t.states[i]) || t.states[i].proc.synced.refresh
    requires t.events[l].LoadRefresh? && NoneLands(t, i + 1, l)
    requires NoStartBetween(t, l + 1, j) && NoneSwaps(t, l + 1, j) && t.states[j].proc.Serving?
    requires RefreshValue(f) == Kept(t.states[i]).value != ""
    requires Calm(e) && t.states[j].now <= e.t2 < Truncate(Kept(t.states[i]).expires) && e.t3 < e.t2 + ACCESS_TTL
    ensures SoloRun(f, t.states[j].proc.mem, e).Authenticated()
  {
    KeptIsOnDisk(t, i);
    RestartedDaemonHolds(t, i, l, j);
    HolderOfTheRefreshValueRecovers(f, t.states[j].proc.mem, e);
  }

  // ---------- After a refresh ----------

  /** None of the three files yields v. */
  predicate NewTo(v: string, f: ClientFiles) {
    v != Read(f.access, 0).value && v != Read(f.refresh, 0).value && v != Read(f.legacy, 0).value
  }

  lemma SavedTokenIsRead(t: Token, zone: int, now: int)
    requires Reloadable(t, zone) && FitsOneLine(t.value)
    ensures Read(Some(SavedText(t, zone)), now) == Reading(t.value, t.Saved().ValidAt(now))
  {
    LoadUndoesSave(t, zone);
    ReadAgreesWithLoad(SavedText(t, zone), now);
  }

  /** What a run stored, as the next run reads it. */
  lemma StoredTokensAreRead(f: ClientFiles, e: Solo, w: World, now: int)
    requires DrawsWell(e) && w.savesAccess == e.savesAccess && w.savesRefresh == e.savesRefresh
    ensures var g := Store(f, TokensOf(NextPair(e), e.zone), w);
            && RefreshValue(g) == (if e.savesRefresh then e.freshRefresh else RefreshValue(f))
            && Chosen(g, now) == (if e.savesAccess then Reading(e.freshAccess, NextPair(e).access.Saved().ValidAt(now))
                                  else Chosen(f, now))
  {
    var next := NextPair(e);
    HexFits(e.freshAccess);
    HexFits(e.freshRefresh);
    SavedTokenIsRead(next.access, e.zone, now);
    SavedTokenIsRead(next.refresh, e.zone, 0);
  }

  lemma NewToWhatIsChosen(v: string, f: ClientFiles, now: int)
    requires NewTo(v, f)
    ensures v != Chosen(f, now).value && v != RefreshValue(f)
  {
    ReadValueIgnoresTheTime(f.access, now);
    ReadValueIgnoresTheTime(f.legacy, now);
  }

  /** The files a run leaves, seen by the next run. */
  lemma FilesAfterARefresh(f: ClientFiles, mem: Pair, e: Solo, now: int)
    requires DrawsWell(e) && AcceptsRefresh(mem, RefreshValue(f), e.t2)
    requires RefreshSent(RefreshValue(f)) in SoloRun(f, mem, e).sent
    ensures var g := SoloRun(f, mem, e).files;
            && MemoryAfter(SoloRun(f, mem, e), RefreshValue(f), mem, e) == NextPair(e)
            && RefreshValue(g) == (if !e.lost2 && e.savesRefresh then e.freshRefresh else RefreshValue(f))
            && Chosen(g, now) == (if !e.lost2 && e.savesAccess
                                  then Reading(e.freshAccess, NextPair(e).access.Saved().ValidAt(now))
                                  else Chosen(f, now))
  {
    var c, r := Chosen(f, e.now), RefreshValue(f);
    TalkFilesAfterGrant(c, Read(f.refresh, 0).value != "", r, f, mem, e);
    StoredTokensAreRead(f, e, SoloWorld(c.value, r, f, mem, e), now);
  }

  /** The case analysis: c and r are what the next run reads, and oldC and oldR what it would have read
      had nothing been stored. */
  lemma PassesOnlyWithNewTokens(next: Pair, e1: Solo, e2: Solo, c: Reading, oldC: Reading, r: string, oldR: string)
    requires next == NextPair(e1) && e1.freshAccess != "" && e1.freshRefresh != ""
    requires c == if !e1.lost2 && e1.savesAccess
                  then Reading(e1.freshAccess, next.access.Saved().ValidAt(e2.now)) else oldC
    requires r == if !e1.lost2 && e1.savesRefresh then e1.freshRefresh else oldR
    requires oldC.value != e1.freshAccess && oldR != e1.freshRefresh
    ensures || (c.valid && AcceptsAccess(next, c.value, e2.t1))
            || (AcceptsRefresh(next, r, e2.t2) && e2.t3 < e2.t2 + ACCESS_TTL)
       <==> && !e1.lost2
            && (|| (e1.savesRefresh && e2.t2 < e1.t2 + REFRESH_TTL && e2.t3 < e2.t2 + ACCESS_TTL)
                || (e1.savesAccess && e2.now < Truncate(e1.t2 + ACCESS_TTL) && e2.t1 < e1.t2 + ACCESS_TTL))
  {}

  /** A refresh that the daemon granted takes effect there whether or not its answer arrives. The client's
      next run, however calm, gets through exactly when the answer did arrive and the run stored either
      the new refresh token, still good, or the new access token, still good on both clocks. So a lost
      answer locks the client out. */
  lemma NextRunPassesExactlyWhen(f: ClientFiles, mem: Pair, e1: Solo, e2: Solo)
    requires DrawsWell(e1) && Calm(e2)
    requires NewTo(e1.freshAccess, f) && NewTo(e1.freshRefresh, f) && e1.freshAccess != e1.freshRefresh
    requires AcceptsRefresh(mem, RefreshValue(f), e1.t2)
    requires RefreshSent(RefreshValue(f)) in SoloRun(f, mem, e1).sent
    ensures var run := SoloRun(f, mem, e1);
            SoloRun(run.files, MemoryAfter(run, RefreshValue(f), mem, e1), e2).Authenticated() <==>
            && !e1.lost2
            && (|| (e1.savesRefresh && e2.t2 < e1.t2 + REFRESH_TTL && e2.t3 < e2.t2 + ACCESS_TTL)
                || (e1.savesAccess && e2.now < Truncate(e1.t2 + ACCESS_TTL) && e2.t1 < e1.t2 + ACCESS_TTL))
  {
    FilesAfterARefresh(f, mem, e1, e2.now);
    NewToWhatIsChosen(e1.freshAccess, f, e2.now);
    NewToWhatIsChosen(e1.freshRefresh, f, e2.now);
    var g := SoloRun(f, mem, e1).files;
    RecoversExactlyWhen(g, NextPair(e1), e2);
    PassesOnlyWithNewTokens(NextPair(e1), e1, e2, Chosen(g, e2.now), Chosen(f, e2.now), RefreshValue(g),
                            RefreshValue(f));
  }
}
