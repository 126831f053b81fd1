/** Runs that show the two exceptions to rotation to be real, put together from whole starts and whole
    refreshes: the first case of Agreement.OldValueReturnsExactlyWhenNoSaveLanded and of
    Rotation.LatePassExactlyWhenReadBefore. */
module Witnesses {
  import opened Tokens
  import opened Lifecycle
  import opened Rotation
  import S = Server

  /** A stretch of a run, from any state. */
  ghost predicate Path(states: seq<State>, events: seq<Event>) {
    && |states| == |events| + 1
    && forall i :: 0 <= i < |events| ==> Step(states[i], events[i], states[i + 1])
  }

  /** One stretch after another; the last state of the first is the first of the second. */
  lemma Join(s1: seq<State>, e1: seq<Event>, s2: seq<State>, e2: seq<Event>) returns (s: seq<State>, e: seq<Event>)
    requires Path(s1, e1) && Path(s2, e2) && s1[|s1| - 1] == s2[0]
    ensures Path(s, e) && |e| == |e1| + |e2|
    ensures forall i :: 0 <= i < |s1| ==> s[i] == s1[i]
    ensures forall i :: 0 <= i < |e1| ==> e[i] == e1[i]
    ensures forall i :: |e1| <= i < |s| ==> s[i] == s2[i - |e1|]
    ensures forall i :: |e1| <= i < |e| ==> e[i] == e2[i - |e1|]
  {
    s, e := s1 + s2[1..], e1 + e2;
    forall i | 0 <= i < |e| ensures Step(s[i], e[i], s[i + 1]) {
      if i < |e1| {
        assert s[i] == s1[i] && s[i + 1] == s1[i + 1];
      } else {
        assert s[i] == s2[i - |e1|] && s[i + 1] == s2[i - |e1| + 1];
      }
    }
  }

  lemma OneStep(s: State, e: Event) returns (states: seq<State>)
    requires Enabled(s, e)
    ensures Path(states, [e]) && states[0] == s && states[1] == Next(s, e)
  {
    states := [s, Next(s, e)];
  }

  function Startup(r: string, a: string): seq<Event> {
    [Migrate(true), LoadRefresh(r, true), MintAccess(a, true), MirrorAccess(true)]
  }

  function Refreshing(bearer: string, a: string, r: string, ok: Saves): seq<Event> {
    [Ask(bearer), Mint(a, r), SaveNext(ok.access), SaveNext(ok.refresh), SaveNext(ok.legacy), Swap, Reply]
  }

  /** The values generate() draws in the run below, in order. */
  predicate Fresh(s: State, names: seq<string>) {
    && |names| == 6
    && (forall n <- names :: Unused(s, n))
    && (forall i, j :: 0 <= i < j < 6 ==> names[i] != names[j])
  }

  lemma StartupPath(s: State, r: string, a: string) returns (states: seq<State>)
    requires s.proc.Down? && Reuses(s.disk, s.now) && Unused(s, r) && Unused(s, a) && r != a
    ensures Path(states, Startup(r, a)) && states[0] == s
    ensures var last := states[4];
            && last.proc.Serving? && last.proc.lock.Free? && last.proc.checks == map[]
            && last.proc.mem == Pair(Generate(Access, a, s.now), s.disk.refresh.token)
            && last.disk.refresh == s.disk.refresh && last.now == s.now
            && last.seen == s.seen[a := Made(Access, s.now)]
  {
    var ok := S.StartupSaves(true, true, true, true);
    states := S.StartupIsFourSteps(s, r, a, ok);
    var es := Startup(r, a);
    assert Step(states[0], es[0], states[1]) && Step(states[1], es[1], states[2]);
    assert Step(states[2], es[2], states[3]) && Step(states[3], es[3], states[4]);
  }

  lemma RefreshPath(s: State, a: string, r: string, ok: Saves) returns (states: seq<State>)
    requires s.proc.Serving? && s.proc.lock.Free? && AcceptsRefresh(s.proc.mem, s.proc.mem.refresh.value, s.now)
    requires Unused(s, a) && Unused(s, r) && a != r
    ensures Path(states, Refreshing(s.proc.mem.refresh.value, a, r, ok)) && states[0] == s
    ensures states[5].proc.Serving? && states[5].proc.mem == s.proc.mem
    ensures var last := states[7];
            && last.proc.Serving? && last.proc.checks == s.proc.checks && last.proc.mem.access.value == a
            && last.disk.refresh == Save(s.disk.refresh, Generate(Refresh, r, s.now), ok.refresh) && last.now == s.now
            && last.seen == s.seen[a := Made(Access, s.now)][r := Made(Refresh, s.now)]
  {
    states := S.RefreshIsSevenSteps(s, s.proc.mem.refresh.value, a, r, ok);
  }

  // ---------- A refresh value comes back ----------

  /** A start and a refresh whose refresh.token save fails. */
  lemma UnsavedRotation(s0: State, r: string, a: string, a2: string, r2: string) returns (s: seq<State>, e: seq<Event>)
    requires s0.proc.Down? && Reuses(s0.disk, s0.now) && s0.disk.refresh.token.value != ""
    requires Unused(s0, r) && Unused(s0, a) && Unused(s0, a2) && Unused(s0, r2)
    requires r != a && a != a2 && a != r2 && a2 != r2
    ensures Path(s, e) && s[0] == s0 && |e| == 11
    ensures AskGranted(s[4], e[4], s0.disk.refresh.token.value) && e[9] == Swap
    ensures var last := s[11];
            && last.proc.Serving? && last.disk.refresh == s0.disk.refresh && last.now == s0.now
            && last.seen == s0.seen[a := Made(Access, s0.now)][a2 := Made(Access, s0.now)][r2 := Made(Refresh, s0.now)]
  {
    var v, ok := s0.disk.refresh.token.value, Saves(true, false, true);
    var p1 := StartupPath(s0, r, a);
    var p2 := RefreshPath(p1[4], a2, r2, ok);
    s, e := Join(p1, Startup(r, a), p2, Refreshing(v, a2, r2, ok));
    assert s[4] == p2[0] && e[4] == Ask(v) && e[9] == Refreshing(v, a2, r2, ok)[5];
  }

  /** A crash, a start, and one more request with the token in refresh.token. */
  lemma AskAfterRestart(s0: State, r: string, a: string) returns (s: seq<State>, e: seq<Event>)
    requires s0.proc.Serving? && Reuses(s0.disk, s0.now) && s0.disk.refresh.token.value != ""
    requires Unused(s0, r) && Unused(s0, a) && r != a
    ensures Path(s, e) && s[0] == s0 && |e| == 6
    ensures e[0] == Crash && AskGranted(s[5], e[5], s0.disk.refresh.token.value)
  {
    var v := s0.disk.refresh.token.value;
    var p1 := OneStep(s0, Crash);
    var p2 := StartupPath(p1[1], r, a);
    var p3 := OneStep(p2[4], Ask(v));
    s, e := Join(p1, [Crash], p2, Startup(r, a));
    s, e := Join(s, e, p3, [Ask(v)]);
  }

  /** From any files whose refresh token is good: the daemon starts, refreshes for the holder of that
      token but fails to save refresh.token, is killed, starts again, and accepts the same token once
      more. The two acceptances are events 4 and 16. */
  lemma RotatedOutValueComesBack(s0: State, names: seq<string>) returns (t: Trace)
    requires Init(s0) && Reuses(s0.disk, s0.now) && s0.disk.refresh.token.value != "" && Fresh(s0, names)
    ensures t.Legal() && t.states[0] == s0 && |t.events| == 17
    ensures t.events[9] == Swap && t.events[11] == Crash
    ensures AskGranted(t.states[4], t.events[4], s0.disk.refresh.token.value)
    ensures AskGranted(t.states[16], t.events[16], s0.disk.refresh.token.value)
  {
    assert forall i :: 0 <= i < 6 ==> names[i] in names;
    var s1, e1 := UnsavedRotation(s0, names[0], names[1], names[2], names[3]);
    var s2, e2 := AskAfterRestart(s1[11], names[4], names[5]);
    var s, e := Join(s1, e1, s2, e2);
    t := Trace(s, e);
  }

  // ---------- A replaced access token passes ----------

  /** A start and the locked read of a request with the new access token. */
  lemma StartAndRead(s0: State, r: string, a: string) returns (s: seq<State>, e: seq<Event>)
    requires s0.proc.Down? && Reuses(s0.disk, s0.now) && Unused(s0, r) && Unused(s0, a) && r != a
    ensures Path(s, e) && s[0] == s0 && |e| == 5
    ensures var last := s[5];
            && last.proc.Serving? && last.proc.lock.Free? && last.proc.checks == map[0 := Check(a, a, true)]
            && last.proc.mem == Pair(Generate(Access, a, s0.now), s0.disk.refresh.token) && last.now == s0.now
            && last.seen == s0.seen[a := Made(Access, s0.now)]
  {
    var p1 := StartupPath(s0, r, a);
    var p2 := OneStep(p1[4], OpenCheck(0, a));
    s, e := Join(p1, Startup(r, a), p2, [OpenCheck(0, a)]);
  }

  /** A refresh with every save working, and the verdict of the pending request. */
  lemma RefreshAndJudge(s0: State, a: string, a2: string, r2: string) returns (s: seq<State>, e: seq<Event>)
    requires s0.proc.Serving? && s0.proc.lock.Free? && s0.proc.checks == map[0 := Check(a, a, true)]
    requires s0.proc.mem.access.value == a && a != a2 && a2 != r2 && Unused(s0, a2) && Unused(s0, r2)
    requires AcceptsRefresh(s0.proc.mem, s0.proc.mem.refresh.value, s0.now)
    ensures Path(s, e) && s[0] == s0 && |e| == 8
    ensures Forgets(s[5], e[5]) && e[5] == Swap && s[5].proc.mem.access.value == a
    ensures e[7] == CloseCheck(0) && s[7].proc.Serving? && 0 in s[7].proc.checks
    ensures s[7].proc.checks[0] == Check(a, a, true) && s[7].proc.mem.access.value == a2
  {
    var v, ok := s0.proc.mem.refresh.value, Saves(true, true, true);
    var p1 := RefreshPath(s0, a2, r2, ok);
    var p2 := OneStep(p1[7], CloseCheck(0));
    s, e := Join(p1, Refreshing(v, a2, r2, ok), p2, [CloseCheck(0)]);
    assert Step(s[5], e[5], s[6]);
  }

  /** From any files whose refresh token is good: a request with the current access token has its locked
      read, a refresh replaces the pair and every save works, and the request still passes. */
  lemma ReplacedAccessTokenPasses(s0: State, names: seq<string>) returns (t: Trace)
    requires Init(s0) && Reuses(s0.disk, s0.now) && s0.disk.refresh.token.value != "" && Fresh(s0, names)
    ensures t.Legal() && t.states[0] == s0 && |t.events| == 13
    ensures Forgets(t.states[10], t.events[10]) && t.events[10] == Swap
    ensures t.events[12] == CloseCheck(0) && t.states[12].proc.Serving? && 0 in t.states[12].proc.checks
    ensures var c := t.states[12].proc.checks[0];
            && c.bearer == t.states[10].proc.mem.access.value != t.states[12].proc.mem.access.value
            && c.Verdict()
  {
    assert forall i :: 0 <= i < 6 ==> names[i] in names;
    var s1, e1 := StartAndRead(s0, names[0], names[1]);
    var s2, e2 := RefreshAndJudge(s1[5], names[1], names[2], names[3]);
    var s, e := Join(s1, e1, s2, e2);
    t := Trace(s, e);
  }
}
