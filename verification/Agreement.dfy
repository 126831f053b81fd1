/** How the token files relate to the daemon's memory over whole runs, and what a restart finds. */
module Agreement {
  import opened Tokens
  import opened Lifecycle
  import opened Rotation

  /** While the token lock is free, each file shows the in-memory token exactly when the latest save
      of that file by this process succeeded. */
  lemma AgreementIsPerFile(t: Trace, k: nat)
    requires t.Legal() && k < |t.states|
    requires t.states[k].proc.Serving? && t.states[k].proc.lock.Free?
    ensures var s := t.states[k];
            && (s.proc.synced.access <==> s.disk.access == Holds(s.proc.mem.access.Saved()))
            && (s.proc.synced.legacy <==> s.disk.legacy == Holds(s.proc.mem.access.Saved()))
            && (s.proc.synced.refresh <==> Mirrors(s.disk.refresh, s.proc.mem.refresh))
            && s.proc.mem.refresh.value in s.seen
            && (s.seen[s.proc.mem.refresh.value].Made? ==>
                 (s.proc.synced.refresh <==> s.disk.refresh == Holds(s.proc.mem.refresh.Saved())))
  {
    RunInv(t, k);
  }

  predicate FailedSave(e: Event) {
    match e
    case LoadRefresh(_, saved) => !saved
    case MintAccess(_, saved) => !saved
    case MirrorAccess(saved) => !saved
    case SaveNext(saved) => !saved
    case _ => false
  }

  predicate AllSaved(s: State) {
    s.proc.Serving? ==>
      && s.proc.synced == Saves(true, true, true)
      && (s.proc.lock.Saving? ==>
           && s.proc.lock.attempted <= 3
           && s.proc.lock.ok == Saves(s.proc.lock.attempted > 0, s.proc.lock.attempted > 1, s.proc.lock.attempted > 2))
  }

  lemma {:induction false} AllSavedSoFar(t: Trace, k: nat)
    requires t.Legal() && k < |t.states|
    requires forall i :: 0 <= i < k ==> !FailedSave(t.events[i])
    ensures AllSaved(t.states[k])
  {
    if k > 0 {
      AllSavedSoFar(t, k - 1);
      assert Step(t.states[k - 1], t.events[k - 1], t.states[k]);
    }
  }

  /** If no save has failed so far, then whenever the lock is free all three files hold the in-memory
      pair with expiries cut to the second (a refresh token found on disk is held as found). */
  lemma MemoryAndDiskAgree(t: Trace, k: nat)
    requires t.Legal() && k < |t.states|
    requires forall i :: 0 <= i < k ==> !FailedSave(t.events[i])
    requires t.states[k].proc.Serving? && t.states[k].proc.lock.Free?
    ensures var s := t.states[k];
            && s.disk.access == Holds(s.proc.mem.access.Saved())
            && s.disk.legacy == Holds(s.proc.mem.access.Saved())
            && s.proc.mem.refresh.value in s.seen
            && (s.disk.refresh == Holds(s.proc.mem.refresh.Saved())
                || (s.disk.refresh == Holds(s.proc.mem.refresh) && s.seen[s.proc.mem.refresh.value].Planted?))
  {
    AllSavedSoFar(t, k);
    AgreementIsPerFile(t, k);
    RunInv(t, k);
  }

  // ---------- What a restart finds ----------

  ghost predicate NoStartBetween(t: Trace, i: nat, j: nat)
    requires t.Legal() && j <= |t.events|
  {
    forall m :: i <= m < j ==> !t.events[m].LoadRefresh?
  }

  /** From the moment a start has its refresh token, refresh.token exists. */
  lemma {:induction false} RefreshFileExists(t: Trace, k: nat)
    requires t.Legal() && k < |t.states|
    requires t.states[k].proc.HasRefresh? || t.states[k].proc.HasPair? || t.states[k].proc.Serving?
    ensures !t.states[k].disk.refresh.Missing?
  {
    if k > 0 {
      assert Step(t.states[k - 1], t.events[k - 1], t.states[k]);
      if !t.events[k - 1].LoadRefresh? {
        RefreshFileExists(t, k - 1);
      }
    }
  }

  predicate NotYetStarted(s: State) {
    s.proc.Down? || s.proc.Migrated?
  }

  lemma {:induction false} KeptWhileDown(t: Trace, i: nat, j: nat)
    requires t.Legal() && i <= j <= |t.events| && NoStartBetween(t, i, j)
    requires NotYetStarted(t.states[i]) && !t.states[i].disk.refresh.Missing?
    ensures NotYetStarted(t.states[j]) && t.states[j].disk.refresh == t.states[i].disk.refresh
    decreases j
  {
    if i < j {
      KeptWhileDown(t, i, j - 1);
      assert Step(t.states[j - 1], t.events[j - 1], t.states[j]);
    }
  }

  lemma {:induction false} ClockNeverGoesBack(t: Trace, i: nat, j: nat)
    requires t.Legal() && i <= j < |t.states|
    ensures t.states[i].now <= t.states[j].now
    decreases j
  {
    if i < j {
      ClockNeverGoesBack(t, i, j - 1);
      assert Step(t.states[j - 1], t.events[j - 1], t.states[j]);
    }
  }

  /** The handler's new refresh token has reached refresh.token but not yet memory. */
  predicate NewIsSaved(s: State)
    requires s.proc.Serving?
  {
    s.proc.lock.Saving? && s.proc.lock.attempted > 1 && s.proc.lock.ok.refresh
  }

  /** The refresh token that refresh.token shows while the handler is at work. */
  function Kept(s: State): Token
    requires s.proc.Serving?
  {
    if NewIsSaved(s) then s.proc.lock.next.refresh else s.proc.mem.refresh
  }

  /** Kill a daemon at any point, inside the refresh handler or not: the next start finds refresh.token
      as it was, and keeps that token unless it has expired by then. It is the newly generated token if
      that one had been saved, and otherwise the one in memory if its own save had succeeded. */
  lemma RestartFindsPreviousOrNew(t: Trace, i: nat, l: nat)
    requires t.Legal() && i < l < |t.events|
    requires t.events[i] == Crash && t.states[i].proc.Serving?
    requires NoStartBetween(t, i, l) && t.events[l].LoadRefresh?
    ensures var f := t.states[i].disk.refresh;
            && (NewIsSaved(t.states[i]) || t.states[i].proc.synced.refresh ==> Mirrors(f, Kept(t.states[i])))
            && var now := t.states[l].now;
               if f.Holds? && f.token.ValidAt(now) then t.states[l + 1].proc == HasRefresh(f.token)
               else t.states[l + 1].proc == (if t.events[l].saved
                                             then HasRefresh(Generate(Refresh, t.events[l].minted, now)) else Down)
  {
    RunInv(t, i);
    RefreshFileExists(t, i);
    assert Step(t.states[i], t.events[i], t.states[i + 1]);
    KeptWhileDown(t, i + 1, l);
    assert Step(t.states[l], t.events[l], t.states[l + 1]);
  }

  predicate Keeps(s: State, r: Token) {
    match s.proc
    case HasRefresh(x) => x == r
    case HasPair(p) => p.refresh == r
    case Serving(mem, _, _, _) => mem.refresh == r
    case _ => true
  }

  lemma {:induction false} LoadedTokenStays(t: Trace, l: nat, j: nat, r: Token)
    requires t.Legal() && l <= j < |t.states| && Keeps(t.states[l], r)
    requires forall m :: l <= m < j ==> t.events[m] != Swap && !t.events[m].LoadRefresh?
    ensures Keeps(t.states[j], r)
    decreases j
  {
    if l < j {
      LoadedTokenStays(t, l, j - 1, r);
      assert Step(t.states[j - 1], t.events[j - 1], t.states[j]);
    }
  }

  /** No refresh.token save of the handler succeeds from event i up to event j. */
  ghost predicate NoneLands(t: Trace, i: nat, j: nat)
    requires t.Legal() && j <= |t.events|
  {
    forall m :: i <= m < j ==> !Persists(t.states[m], t.events[m])
  }

  /** What can have become of a file f that v is to be found in: if no later rotation's save landed it is
      still f, or a start has replaced it because it had expired; and if one landed, v is not in it. */
  predicate Leaves(s: State, v: string, f: File, none: bool) {
    && v in s.seen && !s.disk.refresh.Missing?
    && (s.proc.Serving? && s.proc.lock.Saving? ==> s.proc.lock.next.refresh.value != v)
    && (|| (none && s.disk.refresh == f)
        || (!s.disk.refresh.Carries(v) && (none && f.Carries(v) ==> f.token.expires <= s.now)))
  }

  lemma LeavesStep(s: State, e: Event, v: string, f: File, none: bool)
    requires Inv(s) && Enabled(s, e) && Leaves(s, v, f, none)
    ensures Leaves(Next(s, e), v, f, none && !Persists(s, e))
  {}

  lemma {:induction false} LeavesUntil(t: Trace, i: nat, j: nat, v: string)
    requires t.Legal() && i <= j <= |t.events|
    requires Leaves(t.states[i], v, t.states[i].disk.refresh, true)
    ensures Leaves(t.states[j], v, t.states[i].disk.refresh, NoneLands(t, i, j))
    decreases j
  {
    if i < j {
      LeavesUntil(t, i, j - 1, v);
      RunInv(t, j - 1);
      assert Step(t.states[j - 1], t.events[j - 1], t.states[j]);
      LeavesStep(t.states[j - 1], t.events[j - 1], v, t.states[i].disk.refresh, NoneLands(t, i, j - 1));
      assert NoneLands(t, i, j) <==> NoneLands(t, i, j - 1) && !Persists(t.states[j - 1], t.events[j - 1]);
    }
  }

  /** No rotation takes effect from event i up to event j. */
  ghost predicate NoneSwaps(t: Trace, i: nat, j: nat)
    requires t.Legal() && j <= |t.events|
  {
    forall m :: i <= m < j ==> t.events[m] != Swap
  }

  /** A process that has swapped since its start does not hold an older value v, nor is about to. */
  predicate Older(s: State, v: string, swapped: bool) {
    && v in s.seen
    && (s.proc.Serving? && s.proc.lock.Saving? ==> s.proc.lock.next.refresh.value != v)
    && (swapped ==> NotYetStarted(s) || (s.proc.Serving? && s.proc.mem.refresh.value != v))
  }

  lemma {:induction false} OlderUntil(t: Trace, l: nat, j: nat, v: string)
    requires t.Legal() && l <= j <= |t.events| && NoStartBetween(t, l, j)
    requires Older(t.states[l], v, false)
    ensures Older(t.states[j], v, !NoneSwaps(t, l, j))
    decreases j
  {
    if l < j {
      OlderUntil(t, l, j - 1, v);
      assert Step(t.states[j - 1], t.events[j - 1], t.states[j]);
      assert NoneSwaps(t, l, j) <==> NoneSwaps(t, l, j - 1) && t.events[j - 1] != Swap;
    }
  }

  /** After its latest start the daemon accepts a value of earlier days exactly when refresh.token held it
      at that start, its expiry there has not passed, and nothing has been rotated since. */
  lemma AcceptedWhenLoaded(t: Trace, l: nat, j: nat, v: string)
    requires t.Legal() && l < j < |t.events| && t.events[l].LoadRefresh? && t.events[j] == Ask(v)
    requires NoStartBetween(t, l + 1, j)
    requires v in t.states[l].seen && v != ""
    ensures var f := t.states[l].disk.refresh;
            AskGranted(t.states[j], t.events[j], v)
            <==> f.Carries(v) && t.states[j].now < f.token.expires && NoneSwaps(t, l + 1, j)
  {
    assert Step(t.states[l], t.events[l], t.states[l + 1]);
    ClockNeverGoesBack(t, l, j);
    assert Step(t.states[j], t.events[j], t.states[j + 1]);
    OlderUntil(t, l + 1, j, v);
    if NoneSwaps(t, l + 1, j) {
      var r := if t.states[l + 1].proc.HasRefresh? then t.states[l + 1].proc.refresh else Token("", 0);
      LoadedTokenStays(t, l + 1, j, r);
    }
  }

  /** Event i is the refresh.token save of a rotation, whether it succeeds or not. */
  predicate SavesSuccessor(s: State, e: Event) {
    s.proc.Serving? && s.proc.lock.Saving? && s.proc.lock.attempted == 1 && e.SaveNext?
  }

  /** Rotation is only as durable as the refresh.token saves, whose failures the handler merely logs.
      Once the daemon has been started again, however often, a value that was rotated out at i is accepted
      exactly when it was in refresh.token then, neither its successor's save nor any later one landed
      before the latest start l, the expiry on disk has not passed, and nothing was rotated since l. */
  lemma OldValueReturnsExactlyWhenNoSaveLanded(t: Trace, i: nat, l: nat, j: nat)
    requires t.Legal() && i < l < j < |t.events|
    requires SavesSuccessor(t.states[i], t.events[i])
    requires t.events[l].LoadRefresh? && NoStartBetween(t, l + 1, j)
    requires t.events[j] == Ask(t.states[i].proc.mem.refresh.value)
    ensures var f, v := t.states[i].disk.refresh, t.states[i].proc.mem.refresh.value;
            AskGranted(t.states[j], t.events[j], v)
            <==> && f.Carries(v) && NoneLands(t, i, l)
                 && t.states[j].now < f.token.expires && NoneSwaps(t, l + 1, j)
  {
    var v := t.states[i].proc.mem.refresh.value;
    RunInv(t, i);
    RefreshFileExists(t, i);
    LeavesUntil(t, i, l, v);
    ClockNeverGoesBack(t, l, j);
    AcceptedWhenLoaded(t, l, j, v);
  }

  /** As long as the daemon has not been started again, the old value is accepted under no condition. */
  lemma NotBackWithoutARestart(t: Trace, i: nat, j: nat)
    requires t.Legal() && i < j < |t.events|
    requires SavesSuccessor(t.states[i], t.events[i]) && NoStartBetween(t, i, j)
    ensures !AskGranted(t.states[j], t.events[j], t.states[i].proc.mem.refresh.value)
  {
    RunInv(t, i);
    SupersededUntil(t, i, j, t.states[i].proc.mem.refresh.value);
    assert Step(t.states[j], t.events[j], t.states[j + 1]);
  }

  /** v is on its way out of memory, or gone from it. */
  predicate Superseded(s: State, v: string) {
    && v in s.seen
    && (|| NotYetStarted(s)
        || (&& s.proc.Serving?
            && (s.proc.mem.refresh.value == v ==> s.proc.lock.Saving?)
            && (s.proc.lock.Saving? ==> s.proc.lock.next.refresh.value != v)))
  }

  lemma {:induction false} SupersededUntil(t: Trace, i: nat, j: nat, v: string)
    requires t.Legal() && i <= j <= |t.events| && NoStartBetween(t, i, j) && Superseded(t.states[i], v)
    ensures Superseded(t.states[j], v)
    decreases j
  {
    if i < j {
      SupersededUntil(t, i, j - 1, v);
      assert Step(t.states[j - 1], t.events[j - 1], t.states[j]);
    }
  }
}
