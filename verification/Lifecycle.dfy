/** The token lifecycle as a step system: one daemon process that starts, serves, is killed and
    starts again, its three token files, and a clock. Clients appear only through the bearer values
    they present, and a run may present any value at any time, so every theorem about runs holds for
    any number of clients behaving in any way. A step is as fine as the places where the daemon can
    be killed or another request can slip in: the refresh handler is seven steps under the token
    lock, and an access check is a locked read followed later by an unlocked comparison. */
module Lifecycle {
  import opened Tokens

  /** How a value came to exist. `Planted` values were on disk before the run began. */
  datatype Origin = Planted(latest: int) | Made(role: Role, born: int)

  /** What authenticateAccess copied under the lock, and the bearer it will compare with. */
  datatype Check = Check(bearer: string, value: string, valid: bool) {
    predicate Verdict() {
      bearer == value && valid
    }
  }

  /** The token lock. `Saving` counts how many of the three files have been attempted. */
  datatype Lock =
    | Free
    | Granted(presented: string)
    | Saving(presented: string, next: Pair, attempted: nat, ok: Saves)
    | Answering(presented: string)

  /** The daemon process: the stages of runServe, then serving. */
  datatype Proc =
    | Down
    | Migrated
    | HasRefresh(refresh: Token)
    | HasPair(pair: Pair)
    | Serving(mem: Pair, lock: Lock, synced: Saves, checks: map<nat, Check>)

  datatype State = State(now: int, proc: Proc, disk: Disk, seen: map<string, Origin>)

  datatype Event =
    | Tick(delta: nat)
    | Crash
    // runServe, in order
    | Migrate(saved: bool)
    | LoadRefresh(minted: string, saved: bool)
    | MintAccess(minted: string, saved: bool)
    | MirrorAccess(saved: bool)
    // handleTokenRefresh, in order
    | Ask(bearer: string)
    | Mint(freshAccess: string, freshRefresh: string)
    | SaveNext(saved: bool)
    | Swap
    | Reply
    // authenticateAccess: its locked read and its verdict
    | OpenCheck(id: nat, bearer: string)
    | CloseCheck(id: nat)

  // ---------- Steps ----------

  /** What generate() draws: a value that never existed before. */
  predicate Unused(s: State, v: string) {
    v !in s.seen && v != ""
  }

  predicate Enabled(s: State, e: Event) {
    match e
    case Tick(_) => true
    case Crash => !s.proc.Down?
    case Migrate(_) => s.proc.Down?
    case LoadRefresh(minted, _) => s.proc.Migrated? && Unused(s, minted)
    case MintAccess(minted, _) => s.proc.HasRefresh? && Unused(s, minted)
    case MirrorAccess(_) => s.proc.HasPair?
    case Ask(bearer) => s.proc.Serving? && (bearer != "" ==> s.proc.lock.Free?)
    case Mint(a, r) => s.proc.Serving? && s.proc.lock.Granted? && Unused(s, a) && Unused(s, r) && a != r
    case SaveNext(_) => s.proc.Serving? && s.proc.lock.Saving? && s.proc.lock.attempted < 3
    case Swap => s.proc.Serving? && s.proc.lock.Saving? && s.proc.lock.attempted == 3
    case Reply => s.proc.Serving? && s.proc.lock.Answering?
    case OpenCheck(id, bearer) => s.proc.Serving? && s.proc.lock.Free? && bearer != "" && id !in s.proc.checks
    case CloseCheck(id) => s.proc.Serving? && id in s.proc.checks
  }

  /** MigrateLegacyToken. */
  function MigrateDisk(d: Disk, now: int, saved: bool): Disk {
    if d.refresh.Missing? && d.legacy.Holds? && d.legacy.token.ValidAt(now)
    then d.(refresh := Save(d.refresh, d.legacy.token, saved))
    else d
  }

  /** LoadOrGenerateRefresh keeps the stored token when it loads and has not expired. */
  predicate Reuses(d: Disk, now: int) {
    d.refresh.Holds? && d.refresh.token.ValidAt(now)
  }

  /** The attempted-th of the handler's three saves. */
  function SaveStep(d: Disk, next: Pair, attempted: nat, saved: bool): Disk {
    if attempted == 0 then d.(access := Save(d.access, next.access, saved))
    else if attempted == 1 then d.(refresh := Save(d.refresh, next.refresh, saved))
    else d.(legacy := Save(d.legacy, next.access, saved))
  }

  function Note(ok: Saves, attempted: nat, saved: bool): Saves {
    if attempted == 0 then ok.(access := saved)
    else if attempted == 1 then ok.(refresh := saved)
    else ok.(legacy := saved)
  }

  function Next(s: State, e: Event): State
    requires Enabled(s, e)
  {
    match e
    case Tick(delta) => s.(now := s.now + delta)
    case Crash => s.(proc := Down)
    case Migrate(saved) => s.(proc := Migrated, disk := MigrateDisk(s.disk, s.now, saved))
    case LoadRefresh(minted, saved) =>
      if Reuses(s.disk, s.now) then s.(proc := HasRefresh(s.disk.refresh.token))
      else
        var t := Generate(Refresh, minted, s.now);
        s.(proc := if saved then HasRefresh(t) else Down,
           disk := s.disk.(refresh := Save(s.disk.refresh, t, saved)),
           seen := s.seen[minted := Made(Refresh, s.now)])
    case MintAccess(minted, saved) =>
      var t := Generate(Access, minted, s.now);
      s.(proc := if saved then HasPair(Pair(t, s.proc.refresh)) else Down,
         disk := s.disk.(access := Save(s.disk.access, t, saved)),
         seen := s.seen[minted := Made(Access, s.now)])
    case MirrorAccess(saved) =>
      s.(proc := Serving(s.proc.pair, Free, Saves(true, true, saved), map[]),
         disk := s.disk.(legacy := Save(s.disk.legacy, s.proc.pair.access, saved)))
    case Ask(bearer) =>
      if AcceptsRefresh(s.proc.mem, bearer, s.now) then s.(proc := s.proc.(lock := Granted(bearer))) else s
    case Mint(a, r) =>
      var next := Pair(Generate(Access, a, s.now), Generate(Refresh, r, s.now));
      s.(proc := s.proc.(lock := Saving(s.proc.lock.presented, next, 0, Saves(false, false, false))),
         seen := s.seen[a := Made(Access, s.now)][r := Made(Refresh, s.now)])
    case SaveNext(saved) =>
      var l := s.proc.lock;
      s.(proc := s.proc.(lock := l.(attempted := l.attempted + 1, ok := Note(l.ok, l.attempted, saved))),
         disk := SaveStep(s.disk, l.next, l.attempted, saved))
    case Swap =>
      var l := s.proc.lock;
      s.(proc := s.proc.(mem := l.next, lock := Answering(l.presented), synced := l.ok))
    case Reply => s.(proc := s.proc.(lock := Free))
    case OpenCheck(id, bearer) =>
      var c := Check(bearer, s.proc.mem.access.value, s.proc.mem.access.ValidAt(s.now));
      s.(proc := s.proc.(checks := s.proc.checks[id := c]))
    case CloseCheck(id) => s.(proc := s.proc.(checks := s.proc.checks - {id}))
  }

  // ---------- Runs ----------

  /** A run starts with no daemon, whatever the three files contain. */
  predicate Init(s: State) {
    && s.proc.Down?
    && (forall v <- s.seen :: s.seen[v].Planted?)
    && PlantedFile(s, s.disk.access) && PlantedFile(s, s.disk.refresh) && PlantedFile(s, s.disk.legacy)
  }

  predicate PlantedFile(s: State, f: File) {
    f.Holds? ==>
      && f.token.value in s.seen && s.seen[f.token.value].Planted?
      && f.token.expires <= s.seen[f.token.value].latest
  }

  predicate Step(s: State, e: Event, s': State) {
    Enabled(s, e) && s' == Next(s, e)
  }

  /** A run: its events, and the states before, between and after them. */
  datatype Trace = Trace(states: seq<State>, events: seq<Event>) {
    ghost predicate Legal() {
      && |states| == |events| + 1
      && Init(states[0])
      && forall i :: 0 <= i < |events| ==> Step(states[i], events[i], states[i + 1])
    }
  }

  // ---------- The invariant ----------

  /** Every expiry in circulation is the one fixed at generation, or that one cut to the second. */
  predicate Known(seen: map<string, Origin>, t: Token) {
    && t.value in seen
    && match seen[t.value] {
         case Planted(latest) => t.expires <= latest
         case Made(role, born) => t.expires == born + Ttl(role) || t.expires == Truncate(born + Ttl(role))
       }
  }

  predicate KnownFile(seen: map<string, Origin>, f: File) {
    f.Holds? ==>
      && Known(seen, f.token)
      && (seen[f.token.value].Made? ==>
           f.token.expires == Truncate(seen[f.token.value].born + Ttl(seen[f.token.value].role)))
  }

  predicate KnownDisk(seen: map<string, Origin>, d: Disk) {
    KnownFile(seen, d.access) && KnownFile(seen, d.refresh) && KnownFile(seen, d.legacy)
  }

  /** A generated token still in the memory of the process that generated it. */
  predicate Exact(seen: map<string, Origin>, t: Token, role: Role) {
    t.value in seen && seen[t.value].Made? && seen[t.value].role == role && t.expires == seen[t.value].born + Ttl(role)
  }

  predicate Untouched(f: File, next: Pair) {
    !f.Carries(next.access.value) && !f.Carries(next.refresh.value)
  }

  /** Until its save lands a file keeps its relation to memory; afterwards it shows the next pair. */
  predicate Tracks(f: File, landed: bool, current: Token, synced: bool, upcoming: Token, next: Pair) {
    if landed then f == Holds(upcoming.Saved())
    else Untouched(f, next) && (synced <==> Mirrors(f, current))
  }

  predicate InStep(d: Disk, mem: Pair, synced: Saves) {
    && (synced.access <==> Mirrors(d.access, mem.access))
    && (synced.refresh <==> Mirrors(d.refresh, mem.refresh))
    && (synced.legacy <==> Mirrors(d.legacy, mem.access))
  }

  predicate LockInv(s: State)
    requires s.proc.Serving?
  {
    var mem, d, synced := s.proc.mem, s.disk, s.proc.synced;
    match s.proc.lock
    case Free => InStep(d, mem, synced)
    case Granted(presented) => presented == mem.refresh.value && presented != "" && InStep(d, mem, synced)
    case Saving(presented, next, n, ok) =>
      && presented == mem.refresh.value && presented != ""
      && n <= 3
      && Exact(s.seen, next.access, Access) && Exact(s.seen, next.refresh, Refresh)
      && next.access.value != next.refresh.value
      && next.access.value != mem.access.value && next.access.value != mem.refresh.value
      && next.refresh.value != mem.access.value && next.refresh.value != mem.refresh.value
      && Tracks(d.access, n > 0 && ok.access, mem.access, synced.access, next.access, next)
      && Tracks(d.refresh, n > 1 && ok.refresh, mem.refresh, synced.refresh, next.refresh, next)
      && Tracks(d.legacy, n > 2 && ok.legacy, mem.access, synced.legacy, next.access, next)
    case Answering(presented) => presented in s.seen && presented != mem.refresh.value && InStep(d, mem, synced)
  }

  predicate ProcInv(s: State) {
    match s.proc
    case Down => true
    case Migrated => true
    case HasRefresh(r) => Known(s.seen, r) && Mirrors(s.disk.refresh, r)
    case HasPair(p) =>
      && Exact(s.seen, p.access, Access) && Known(s.seen, p.refresh) && p.access.value != p.refresh.value
      && s.disk.access == Holds(p.access.Saved()) && Mirrors(s.disk.refresh, p.refresh)
      && !s.disk.legacy.Carries(p.access.value)
    case Serving(mem, _, _, checks) =>
      && Exact(s.seen, mem.access, Access) && Known(s.seen, mem.refresh) && mem.access.value != mem.refresh.value
      && LockInv(s)
      && (forall id <- checks :: checks[id].value in s.seen)
  }

  predicate Inv(s: State) {
    && KnownDisk(s.seen, s.disk)
    && (forall v <- s.seen :: s.seen[v].Made? ==> s.seen[v].born <= s.now)
    && ProcInv(s)
  }

  lemma InitInv(s: State)
    requires Init(s)
    ensures Inv(s)
  {}

  lemma MigrateInv(s: State, e: Event)
    requires Inv(s) && Enabled(s, e) && e.Migrate?
    ensures Inv(Next(s, e))
  {}

  lemma LoadRefreshInv(s: State, e: Event)
    requires Inv(s) && Enabled(s, e) && e.LoadRefresh?
    ensures Inv(Next(s, e))
  {}

  lemma MintAccessInv(s: State, e: Event)
    requires Inv(s) && Enabled(s, e) && e.MintAccess?
    ensures Inv(Next(s, e))
  {
    var s' := Next(s, e);
    assert KnownDisk(s'.seen, s'.disk);
  }

  lemma MirrorAccessInv(s: State, e: Event)
    requires Inv(s) && Enabled(s, e) && e.MirrorAccess?
    ensures Inv(Next(s, e))
  {}

  lemma MintInv(s: State, e: Event)
    requires Inv(s) && Enabled(s, e) && e.Mint?
    ensures Inv(Next(s, e))
  {
    var s' := Next(s, e);
    assert Known(s'.seen, s'.proc.mem.refresh);
    assert KnownDisk(s'.seen, s'.disk);
  }

  lemma SaveInv(s: State, e: Event)
    requires Inv(s) && Enabled(s, e) && e.SaveNext?
    ensures Inv(Next(s, e))
  {}

  lemma LockInvKept(s: State, e: Event)
    requires Inv(s) && Enabled(s, e)
    requires e.Ask? || e.Swap? || e.Reply? || e.OpenCheck? || e.CloseCheck?
    ensures Inv(Next(s, e))
  {}

  /** Every step keeps the invariant. */
  lemma StepInv(s: State, e: Event)
    requires Inv(s) && Enabled(s, e)
    ensures Inv(Next(s, e))
  {
    match e
    case Tick(_) =>
    case Crash =>
    case Mint(_, _) => MintInv(s, e);
    case SaveNext(_) => SaveInv(s, e);
    case Migrate(_) => MigrateInv(s, e);
    case LoadRefresh(_, _) => LoadRefreshInv(s, e);
    case MintAccess(_, _) => MintAccessInv(s, e);
    case MirrorAccess(_) => MirrorAccessInv(s, e);
    case _ => LockInvKept(s, e);
  }

  /** The invariant holds in every state of every run. */
  lemma {:induction false} RunInv(t: Trace, k: nat)
    requires t.Legal() && k < |t.states|
    ensures Inv(t.states[k])
  {
    if k == 0 {
      InitInv(t.states[0]);
    } else {
      RunInv(t, k - 1);
      assert Step(t.states[k - 1], t.events[k - 1], t.states[k]);
      StepInv(t.states[k - 1], t.events[k - 1]);
    }
  }
}
