/** Starting a daemon on a Unix socket path: listenUnix over the socket's directory entry, its parent
    directory, the process umask and the listeners that are alive, for any sequence of starts and deaths
    on one path (internal/endpoint/transport_unix.go). */
module UnixListener {

  type Mode = bv12

  const OWNER_ONLY_DIR: Mode := 0x1C0   // 0700
  const OTHERS: Mode := 0x03F           // 0077
  const OWNER_ONLY_FILE: Mode := 0x180  // 0600
  const BIND_UMASK: Mode := 0x07F       // 0177
  const SOCKET_MODE: Mode := 0x1FF      // 0777, what bind asks for

  /** What is at the socket path: a socket bound by some daemon, or something else. */
  datatype Node = Nothing | Socket(mode: Mode, boundBy: nat) | Other(content: string)

  datatype Dir = NoDir | Dir(isDir: bool, mode: Mode, mine: bool)

  datatype World = World(node: Node, dir: Dir, umask: Mode, live: set<nat>)

  /** The operating system's side of one start: which calls succeed, and whether the probe of an
      existing socket is answered. */
  datatype Weather = Weather(id: nat, mkdirOk: bool, statOk: bool, lstatOk: bool, probe: bool,
                             removeOk: bool, bindOk: bool, chmodOk: bool)

  datatype Outcome =
    | Listening
    | NoDirectory | NotPrivate | NotASocket | InUse | CannotRemove | CannotBind | CannotRestrict

  // ---------- Specification ----------

  /** os.MkdirAll, which gives the requested mode only to what it creates. */
  function MadeDir(w: World): Dir {
    if w.dir.NoDir? then Dir(true, OWNER_ONLY_DIR & !w.umask, true) else w.dir
  }

  /** checkPrivateDir. */
  predicate Private(d: Dir) {
    d.Dir? && d.isDir && d.mode & OTHERS == 0 && d.mine
  }

  function Decide(w: World, e: Weather): Outcome {
    if !e.mkdirOk then NoDirectory
    else if !e.statOk || !Private(MadeDir(w)) then NotPrivate
    else if e.lstatOk && w.node.Other? then NotASocket
    else if e.lstatOk && w.node.Socket? && e.probe then InUse
    else if e.lstatOk && w.node.Socket? && !e.removeOk then CannotRemove
    else if !e.bindOk || (!e.lstatOk && !w.node.Nothing?) then CannotBind
    else if !e.chmodOk then CannotRestrict
    else Listening
  }

  function After(w: World, e: Weather): World {
    var made := if e.mkdirOk then w.(dir := MadeDir(w)) else w;
    match Decide(w, e)
    case Listening => made.(node := Socket(OWNER_ONLY_FILE, e.id), live := w.live + {e.id})
    case CannotRestrict => made.(node := Nothing)
    case CannotBind => made.(node := if e.lstatOk then Nothing else w.node)
    case _ => made
  }

  // ---------- listenUnix, call by call ----------

  class Machine {
    var node: Node
    var dir: Dir
    var umask: Mode
    var live: set<nat>
    /** A socket of this path has, for however short a time, had any other mode than 0600. */
    ghost var everExposed: bool

    function State(): World
      reads this
    {
      World(node, dir, umask, live)
    }

    constructor (w: World)
      ensures State() == w && !everExposed
    {
      node, dir, umask, live := w.node, w.dir, w.umask, w.live;
      everExposed := false;
    }

    /** net.Listen: a socket is created only where there is nothing, with the umask taken off its mode. */
    method Bind(id: nat, ok: bool) returns (bound: bool)
      modifies this`node, this`live, this`everExposed
      ensures everExposed <==> old(everExposed) || (bound && SOCKET_MODE & !umask != OWNER_ONLY_FILE)
      ensures bound <==> ok && old(node).Nothing?
      ensures node == if bound then Socket(SOCKET_MODE & !umask, id) else old(node)
      ensures live == if bound then old(live) + {id} else old(live)
    {
      bound := ok && node.Nothing?;
      if bound {
        node := Socket(SOCKET_MODE & !umask, id);
        live := live + {id};
        everExposed := everExposed || node.mode != OWNER_ONLY_FILE;
      }
    }

    /** os.Chmod of the bound socket, or the release of the listener when that fails. */
    method Restrict(id: nat, ok: bool)
      requires node.Socket? && id in live
      modifies this`node, this`live
      ensures node == if ok then Socket(OWNER_ONLY_FILE, old(node).boundBy) else Nothing
      ensures live == if ok then old(live) else old(live) - {id}
    {
      if ok {
        node := Socket(OWNER_ONLY_FILE, node.boundBy);
      } else {
        // Closing a listener also unlinks its socket.
        node, live := Nothing, live - {id};
      }
    }

    /** os.MkdirAll and checkPrivateDir. */
    method PrepareDir(e: Weather) returns (r: Outcome)
      modifies this`dir
      ensures dir == if e.mkdirOk then MadeDir(old(State())) else old(dir)
      ensures r == if !e.mkdirOk then NoDirectory else if !e.statOk || !Private(dir) then NotPrivate else Listening
    {
      if !e.mkdirOk {
        return NoDirectory;
      }
      if dir == NoDir {
        dir := Dir(true, OWNER_ONLY_DIR & !umask, true);
      }
      r := if !e.statOk || !Private(dir) then NotPrivate else Listening;
    }

    /** The inspection of what is already at the path; Listening stands for going on to bind. */
    method ClearPath(e: Weather) returns (r: Outcome)
      modifies this`node
      ensures r == if !e.lstatOk || old(node).Nothing? then Listening
                   else if old(node).Other? then NotASocket
                   else if e.probe then InUse
                   else if !e.removeOk then CannotRemove
                   else Listening
      ensures node == if r.Listening? && e.lstatOk then Nothing else old(node)
    {
      r := Listening;
      if e.lstatOk && node != Nothing {
        if !node.Socket? {
          return NotASocket;
        }
        if e.probe {
          return InUse;
        }
        if !e.removeOk {
          return CannotRemove;
        }
        node := Nothing;
      }
    }

    method ListenUnix(e: Weather) returns (r: Outcome)
      requires e.id !in live
      modifies this
      ensures r == Decide(old(State()), e) && State() == After(old(State()), e)
      ensures umask == old(umask) && everExposed == old(everExposed)
      ensures old(node).Other? ==> node == old(node)
      ensures r.Listening? ==> node == Socket(OWNER_ONLY_FILE, e.id) && Private(dir)
      ensures !r.Listening? ==> live == old(live)
    {
      r := PrepareDir(e);
      if r != Listening {
        return;
      }
      r := ClearPath(e);
      if r != Listening {
        return;
      }
      var saved := umask;
      umask := BIND_UMASK;
      var bound := Bind(e.id, e.bindOk);
      umask := saved;
      if !bound {
        return CannotBind;
      }
      Restrict(e.id, e.chmodOk);
      r := if e.chmodOk then Listening else CannotRestrict;
    }
  }

  // ---------- When a start succeeds, and what a failed one leaves ----------

  /** The directory is new, or an existing directory of the user's own that is closed to everyone else. */
  predicate GoodDir(d: Dir) {
    d.NoDir? || (d.isDir && d.mode & 0x03F == 0 && d.mine)
  }

  lemma NewDirIsClosed(umask: Mode)
    ensures (OWNER_ONLY_DIR & !umask) & OTHERS == 0
  {}

  /** A start succeeds exactly when every call works that has to, the directory is good, and the path is
      free or holds a dead socket that can be seen and removed. */
  lemma StartSucceedsExactlyWhen(w: World, e: Weather)
    ensures Decide(w, e) == Listening <==>
            && e.mkdirOk && e.statOk && GoodDir(w.dir)
            && (w.node.Nothing? || (e.lstatOk && w.node.Socket? && !e.probe && e.removeOk))
            && e.bindOk && e.chmodOk
    ensures Decide(w, e) == Listening ==>
              After(w, e).node == Socket(0x180, e.id) && After(w, e).live == w.live + {e.id}
  {
    NewDirIsClosed(w.umask);
  }

  /** A start that fails adds no listener and changes the path only by removing a dead socket; and it fails
      for whatever is there alive, or is no socket, if it sees it. */
  lemma FailedStartLeaves(w: World, e: Weather)
    requires Decide(w, e) != Listening
    ensures After(w, e).live == w.live && After(w, e).umask == w.umask
    ensures After(w, e).node == w.node || (w.node.Socket? && e.lstatOk && !e.probe && After(w, e).node == Nothing)
    ensures w.dir.Dir? ==> After(w, e).dir == w.dir
  {}

  // ---------- Any sequence of starts and deaths ----------

  /** Starts do not overlap. A daemon dies without cleaning up, or closes its listener, which unlinks
      whatever is at the path. Everyone else may put a non-socket where there is nothing, change or remove
      it, and do anything to the directory. */
  datatype Event =
    | Start(e: Weather)
    | Die(id: nat, unlinks: bool)
    | Place(content: string) | Clear | Rearrange(dir: Dir)

  predicate Enabled(w: World, v: Event) {
    match v
    case Start(e) => e.id !in w.live
    case Die(id, _) => id in w.live
    case Place(_) => !w.node.Socket?
    case Clear => w.node.Other?
    case Rearrange(_) => true
  }

  function Next(w: World, v: Event): World {
    match v
    case Start(e) => After(w, e)
    case Die(id, unlinks) => w.(live := w.live - {id}, node := if unlinks then Nothing else w.node)
    case Place(content) => w.(node := Other(content))
    case Clear => w.(node := Nothing)
    case Rearrange(d) => w.(dir := d)
  }

  /** A live listener answers a probe. */
  predicate Honest(w: World, v: Event) {
    v.Start? && w.node.Socket? && w.node.boundBy in w.live ==> v.e.probe
  }

  datatype Trace = Trace(states: seq<World>, events: seq<Event>) {
    ghost predicate Legal() {
      && |states| == |events| + 1
      && states[0].live == {}
      && forall i :: 0 <= i < |events| ==> Moves(states[i], events[i], states[i + 1])
    }
  }

  predicate Moves(w: World, v: Event, w': World) {
    Enabled(w, v) && Honest(w, v) && w' == Next(w, v)
  }

  /** Every live listener owns the socket at the path, and that socket is 0600. */
  predicate Sole(w: World) {
    forall id <- w.live :: w.node == Socket(OWNER_ONLY_FILE, id)
  }

  lemma MoveKeepsSole(w: World, v: Event, w': World)
    requires Sole(w) && Moves(w, v, w')
    ensures Sole(w') && w'.umask == w.umask
  {
    if v.Start? && w.live != {} {
      var id :| id in w.live;
      assert w.node == Socket(OWNER_ONLY_FILE, id);
    }
  }

  /** At every moment at most one listener is live, its socket is at the path with mode 0600, and the
      umask is what it was at the beginning. */
  lemma {:induction false} AtMostOneLiveListener(t: Trace, k: nat)
    requires t.Legal() && k < |t.states|
    ensures Sole(t.states[k]) && |t.states[k].live| <= 1 && t.states[k].umask == t.states[0].umask
  {
    if k > 0 {
      AtMostOneLiveListener(t, k - 1);
      assert Moves(t.states[k - 1], t.events[k - 1], t.states[k]);
      MoveKeepsSole(t.states[k - 1], t.events[k - 1], t.states[k]);
    }
    if t.states[k].live != {} {
      var id :| id in t.states[k].live;
      OnlyListener(t.states[k], id);
    }
  }

  lemma OnlyListener(w: World, id: nat)
    requires Sole(w) && id in w.live
    ensures w.live == {id}
  {
    forall other | other in w.live ensures other == id {
      assert w.node == Socket(OWNER_ONLY_FILE, other) == Socket(OWNER_ONLY_FILE, id);
    }
  }

  /** No start, successful or not, changes a non-socket at the path; and a start that succeeds has bound
      inside a private directory. */
  lemma StartsSpareNonSocketsAndBindPrivately(t: Trace, k: nat)
    requires t.Legal() && k < |t.events| && t.events[k].Start?
    ensures t.states[k].node.Other? ==> t.states[k + 1].node == t.states[k].node
    ensures t.states[k + 1].live != t.states[k].live ==>
              && t.states[k + 1].live == {t.events[k].e.id}
              && t.states[k + 1].node == Socket(OWNER_ONLY_FILE, t.events[k].e.id)
              && Private(t.states[k + 1].dir)
  {
    assert Moves(t.states[k], t.events[k], t.states[k + 1]);
    AtMostOneLiveListener(t, k);
    AtMostOneLiveListener(t, k + 1);
    if t.states[k + 1].live != t.states[k].live {
      OnlyListener(t.states[k + 1], t.events[k].e.id);
    }
  }

  /** The probe is what this rests on. While a listener is live, a start for which every system call
      succeeds takes the path over, leaving two live listeners, exactly when the probe goes unanswered. */
  lemma TakeoverExactlyWhenProbeSilent(w: World, e: Weather)
    requires Sole(w) && w.live != {} && e.id !in w.live && Private(w.dir)
    requires e.mkdirOk && e.statOk && e.lstatOk && e.removeOk && e.bindOk && e.chmodOk
    ensures |After(w, e).live| == |w.live| + (if e.probe then 0 else 1)
    ensures Decide(w, e) == if e.probe then InUse else Listening
  {
    var id :| id in w.live;
    assert w.node == Socket(OWNER_ONLY_FILE, id);
  }
}
