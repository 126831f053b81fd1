/** What holds over whole runs of the token lifecycle: which values can be accepted, when, and by
    which check, whatever the clients do and wherever the daemon is killed. */
module Rotation {
  import opened Tokens
  import opened Lifecycle

  // ---------- Refresh values ----------

  /** /token/refresh lets the holder of v through. */
  predicate AskGranted(s: State, e: Event, v: string) {
    e == Ask(v) && Enabled(s, e) && AcceptsRefresh(s.proc.mem, v, s.now)
  }

  /** The handler has just put the successor of the current refresh token in refresh.token. */
  predicate Persists(s: State, e: Event) {
    s.proc.Serving? && s.proc.lock.Saving? && s.proc.lock.attempted == 1 && e == SaveNext(true)
  }

  /** v can no longer reach the daemon's memory by any step. */
  predicate Retired(s: State, v: string) {
    && v in s.seen && !s.disk.refresh.Missing? && !s.disk.refresh.Carries(v)
    && match s.proc {
         case HasRefresh(r) => r.value != v
         case HasPair(p) => p.refresh.value != v
         case Serving(mem, lock, _, _) =>
           && (mem.refresh.value == v ==> lock.Saving? && lock.attempted > 1)
           && (lock.Saving? ==> lock.next.refresh.value != v)
         case _ => true
       }
  }

  lemma {:induction false} RetiredForGood(t: Trace, i: nat, j: nat, v: string)
    requires t.Legal() && i <= j < |t.states| && Retired(t.states[i], v)
    ensures Retired(t.states[j], v)
    decreases j
  {
    if i < j {
      RetiredForGood(t, i, j - 1, v);
      RunInv(t, j - 1);
      assert Step(t.states[j - 1], t.events[j - 1], t.states[j]);
    }
  }

  /** A refresh value whose successor reached refresh.token is never accepted again: not by this
      process, not after any number of crashes and restarts. */
  lemma RotatedOutNeverAccepted(t: Trace, i: nat, j: nat)
    requires t.Legal() && i < j < |t.events|
    requires Persists(t.states[i], t.events[i])
    ensures !AskGranted(t.states[j], t.events[j], t.states[i].proc.mem.refresh.value)
  {
    var v := t.states[i].proc.mem.refresh.value;
    RunInv(t, i);
    assert Step(t.states[i], t.events[i], t.states[i + 1]);
    assert Retired(t.states[i + 1], v);
    RetiredForGood(t, i + 1, j, v);
  }

  /** v was presented to this process, and its answer has been sent. */
  predicate Spent(s: State, v: string) {
    && s.proc.Serving? && v in s.seen && s.proc.mem.refresh.value != v
    && match s.proc.lock {
         case Free => true
         case Granted(p) => p != v
         case Saving(p, next, _, _) => p != v && next.refresh.value != v
         case Answering(p) => p != v
       }
  }

  predicate Answered(s: State, e: Event, v: string) {
    e == Reply && s.proc.Serving? && s.proc.lock == Answering(v)
  }

  lemma {:induction false} SpentForGood(t: Trace, i: nat, j: nat, v: string)
    requires t.Legal() && i <= j < |t.states| && Spent(t.states[i], v)
    requires forall m :: i <= m < j ==> t.events[m] != Crash
    ensures Spent(t.states[j], v)
    decreases j
  {
    if i < j {
      SpentForGood(t, i, j - 1, v);
      RunInv(t, j - 1);
      assert Step(t.states[j - 1], t.events[j - 1], t.states[j]);
    }
  }

  /** Of all the refresh requests one daemon process receives with the same value, at most one is
      answered with a new pair. */
  lemma SingleWinner(t: Trace, i: nat, j: nat, v: string)
    requires t.Legal() && i < j < |t.events|
    requires forall m :: i <= m < j ==> t.events[m] != Crash
    requires Answered(t.states[i], t.events[i], v)
    ensures !Answered(t.states[j], t.events[j], v)
  {
    RunInv(t, i);
    assert Step(t.states[i], t.events[i], t.states[i + 1]);
    SpentForGood(t, i + 1, j, v);
  }

  // ---------- Access values ----------

  predicate Gone(s: State, v: string) {
    && v in s.seen
    && match s.proc {
         case HasPair(p) => p.access.value != v
         case Serving(mem, lock, _, _) => mem.access.value != v && (lock.Saving? ==> lock.next.access.value != v)
         case _ => true
       }
  }

  /** The daemon's access token leaves memory, by rotation or with the process. */
  predicate Forgets(s: State, e: Event) {
    s.proc.Serving? && Enabled(s, e) && (e == Swap || e == Crash)
  }

  lemma {:induction false} GoneForGood(t: Trace, i: nat, j: nat, v: string)
    requires t.Legal() && i <= j < |t.states| && Gone(t.states[i], v)
    ensures Gone(t.states[j], v)
    decreases j
  {
    if i < j {
      GoneForGood(t, i, j - 1, v);
      RunInv(t, j - 1);
      assert Step(t.states[j - 1], t.events[j - 1], t.states[j]);
    }
  }

  /** Once an access token has left memory, no later locked read finds it there. */
  lemma ForgottenAccessNeverRead(t: Trace, i: nat, j: nat)
    requires t.Legal() && i < |t.events| && i < j < |t.states|
    requires Forgets(t.states[i], t.events[i])
    requires t.states[j].proc.Serving?
    ensures !AcceptsAccess(t.states[j].proc.mem, t.states[i].proc.mem.access.value, t.states[j].now)
  {
    var v := t.states[i].proc.mem.access.value;
    RunInv(t, i);
    assert Step(t.states[i], t.events[i], t.states[i + 1]);
    assert Gone(t.states[i + 1], v);
    GoneForGood(t, i + 1, j, v);
  }

  /** Event i is the locked read of check id, no crash or reuse of id separates it from state j, and
      the verdict of c is the check performed on the pair in memory at i. */
  ghost predicate ReadAt(t: Trace, i: nat, j: nat, id: nat, c: Check)
    requires t.Legal() && j < |t.states|
  {
    && i < j && t.events[i] == OpenCheck(id, c.bearer)
    && (forall m :: i < m < j ==> t.events[m] != Crash && t.events[m] != CloseCheck(id))
    && t.states[i].proc.Serving?
    && (c.Verdict() <==> AcceptsAccess(t.states[i].proc.mem, c.bearer, t.states[i].now))
  }

  /** Every pending access check goes back to one locked read, and its verdict is the check of the
      token pair as it was at that read, however many rotations happened since. */
  lemma {:induction false} VerdictIsTheLockPointCheck(t: Trace, j: nat, id: nat) returns (i: nat)
    requires t.Legal() && j < |t.states|
    requires t.states[j].proc.Serving? && id in t.states[j].proc.checks
    ensures ReadAt(t, i, j, id, t.states[j].proc.checks[id])
  {
    if j == 0 {
      assert false;
    } else {
      var before, e := t.states[j - 1], t.events[j - 1];
      assert Step(before, e, t.states[j]);
      if e.OpenCheck? && e.id == id {
        i := j - 1;
      } else {
        i := VerdictIsTheLockPointCheck(t, j - 1, id);
      }
    }
  }

  /** A request can pass with a token the daemon has already replaced. It does exactly when its own
      locked read came before the replacement and the token was acceptable at that read; and then the
      token was replaced by a rotation, since after a restart there is no such request at all. */
  lemma LatePassExactlyWhenReadBefore(t: Trace, i: nat, j: nat, id: nat)
    requires t.Legal() && i < j < |t.events|
    requires Forgets(t.states[i], t.events[i])
    requires t.events[j] == CloseCheck(id) && t.states[j].proc.Serving? && id in t.states[j].proc.checks
    requires t.states[j].proc.checks[id].bearer == t.states[i].proc.mem.access.value
    ensures var v, c := t.states[i].proc.mem.access.value, t.states[j].proc.checks[id];
            && (c.Verdict() <==>
                 exists k: nat :: k < i && ReadAt(t, k, j, id, c)
                     && AcceptsAccess(t.states[k].proc.mem, v, t.states[k].now))
            && (c.Verdict() ==> t.events[i] == Swap)
  {
    var k := VerdictIsTheLockPointCheck(t, j, id);
    if k > i {
      ForgottenAccessNeverRead(t, i, k);
    }
  }

  // ---------- Roles ----------

  /** The two tokens in memory always differ, so no bearer passes both handlers. */
  lemma NoBearerPassesBoth(t: Trace, k: nat, bearer: string)
    requires t.Legal() && k < |t.states| && t.states[k].proc.Serving?
    ensures t.states[k].proc.mem.access.value != t.states[k].proc.mem.refresh.value
    ensures !(AcceptsAccess(t.states[k].proc.mem, bearer, t.states[k].now)
              && AcceptsRefresh(t.states[k].proc.mem, bearer, t.states[k].now))
  {
    RunInv(t, k);
  }

  // ---------- Lifetimes ----------

  /** The daemon generates v for the given role. */
  predicate Generates(s: State, e: Event, v: string, role: Role) {
    && Enabled(s, e)
    && match e {
         case LoadRefresh(m, _) => m == v && role == Refresh && !Reuses(s.disk, s.now)
         case MintAccess(m, _) => m == v && role == Access
         case Mint(a, r) => (a == v && role == Access) || (r == v && role == Refresh)
         case _ => false
       }
  }

  lemma {:induction false} OriginsAreKept(t: Trace, i: nat, j: nat, v: string)
    requires t.Legal() && i <= j < |t.states| && v in t.states[i].seen
    ensures v in t.states[j].seen && t.states[j].seen[v] == t.states[i].seen[v]
    decreases j
  {
    if i < j {
      OriginsAreKept(t, i, j - 1, v);
      assert Step(t.states[j - 1], t.events[j - 1], t.states[j]);
    }
  }

  lemma GeneratedOriginIsKept(t: Trace, i: nat, j: nat, v: string, role: Role)
    requires t.Legal() && i < |t.events| && i < j < |t.states|
    requires Generates(t.states[i], t.events[i], v, role)
    ensures v in t.states[j].seen && t.states[j].seen[v] == Made(role, t.states[i].now)
  {
    assert Step(t.states[i], t.events[i], t.states[i + 1]);
    OriginsAreKept(t, i + 1, j, v);
  }

  /** Either handler would let the holder of v through now. */
  predicate Usable(s: State, v: string) {
    s.proc.Serving? && (AcceptsAccess(s.proc.mem, v, s.now) || AcceptsRefresh(s.proc.mem, v, s.now))
  }

  /** A generated value is accepted, by either handler, only within its lifetime counted from its
      generation, however often it was saved and loaded again; also when migration turned a mirrored
      access value into the refresh token, which then still lives one hour. */
  lemma AcceptedOnlyWithinLifetime(t: Trace, i: nat, j: nat, v: string, role: Role)
    requires t.Legal() && i < |t.events| && i < j < |t.states|
    requires Generates(t.states[i], t.events[i], v, role)
    requires Usable(t.states[j], v)
    ensures t.states[i].now <= t.states[j].now < t.states[i].now + Ttl(role)
    ensures Ttl(role) == (if role == Access then 1 else 30 * 24) * 3600 * 1_000_000_000
  {
    RunInv(t, j);
    GeneratedOriginIsKept(t, i, j, v, role);
  }

  /** A value that was on disk before the run is accepted only before the latest expiry it had there. */
  lemma PlantedOnlyBeforeItsExpiry(t: Trace, j: nat, v: string)
    requires t.Legal() && j < |t.states|
    requires v in t.states[0].seen && Usable(t.states[j], v)
    ensures t.states[j].now < t.states[0].seen[v].latest
  {
    RunInv(t, j);
    OriginsAreKept(t, 0, j, v);
  }

  /** A client keeps a generated token with its expiry cut to the second. If it still judges that
      token valid and the daemon still holds the value, the daemon accepts it. */
  lemma ClientNeverWrongAboutExpiry(t: Trace, i: nat, j: nat, v: string, role: Role)
    requires t.Legal() && i < |t.events| && i < j < |t.states|
    requires Generates(t.states[i], t.events[i], v, role)
    requires Generate(role, v, t.states[i].now).Saved().ValidAt(t.states[j].now)
    requires t.states[j].proc.Serving?
    ensures v == t.states[j].proc.mem.access.value ==> AcceptsAccess(t.states[j].proc.mem, v, t.states[j].now)
    ensures v == t.states[j].proc.mem.refresh.value ==> AcceptsRefresh(t.states[j].proc.mem, v, t.states[j].now)
  {
    RunInv(t, j);
    GeneratedOriginIsKept(t, i, j, v, role);
  }
}
