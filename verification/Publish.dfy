/** Stage-then-rename publication of a file: SaveToPath, writeTokenFile and replaceBinaryAt over a file
    system that records every state another process could observe, so that being killed at any point
    means leaving one of the recorded states behind. */
module Publish {
  import opened Optional
  import opened TimeText
  import opened TokenFile
  import opened Tokens

  type Files = map<string, string>

  function Look(files: Files, path: string): Option<string> {
    if path in files then Some(files[path]) else None
  }

  /** What os.WriteFile does: fail to open, or truncate, write in pieces, and end well or not. */
  datatype Writing = OpenFails | Writes(pieces: seq<nat>, complete: bool)

  /** How the operating system answers one publication. */
  datatype Weather = Weather(mkdirOk: bool, writing: Writing, renameOk: bool, removeOk: bool) {
    predicate Fair() {
      mkdirOk && writing.Writes? && writing.complete && renameOk
    }
  }

  // ---------- Specification: the states passed through ----------

  function Prefix(data: string, n: nat): string {
    if n <= |data| then data[..n] else data
  }

  function Partial(files: Files, tmp: string, data: string, pieces: seq<nat>): seq<Files> {
    seq(|pieces|, k requires 0 <= k < |pieces| => files[tmp := Prefix(data, pieces[k])])
  }

  function Staging(files: Files, tmp: string, data: string, w: Writing): seq<Files> {
    if w.OpenFails? then []
    else [files[tmp := ""]] + Partial(files, tmp, data, w.pieces) + (if w.complete then [files[tmp := data]] else [])
  }

  function Renamed(files: Files, tmp: string, path: string, data: string): Files {
    (files - {tmp})[path := data]
  }

  function Observed(files: Files, path: string, tmp: string, data: string, w: Weather): seq<Files> {
    if !w.mkdirOk then []
    else Staging(files, tmp, data, w.writing)
         + (if w.writing.OpenFails? || !w.writing.complete then []
            else if w.renameOk then [Renamed(files, tmp, path, data)]
            else if w.removeOk then [files - {tmp}]
            else [])
  }

  /** Publication is all or nothing at every observable state: a reader of the path sees the complete
      old contents, or, in the last state of a publication that succeeds, the complete new contents.
      No other path but the staging file is touched. */
  lemma NeverHalfPublished(files: Files, path: string, tmp: string, data: string, w: Weather, k: nat)
    requires path != tmp && k < |Observed(files, path, tmp, data, w)|
    ensures var state := Observed(files, path, tmp, data, w)[k];
            && Look(state, path) == (if w.Fair() && k == |Observed(files, path, tmp, data, w)| - 1
                                     then Some(data) else Look(files, path))
            && (forall q :: q != path && q != tmp ==> Look(state, q) == Look(files, q))
  {
  }

  /** The staging file is still there at the end exactly when the write broke off, or neither the rename
      nor the removal worked. */
  lemma StagingRemainsExactlyWhen(files: Files, path: string, tmp: string, data: string, w: Weather)
    requires path != tmp && w.mkdirOk && w.writing.Writes?
    ensures var all := Observed(files, path, tmp, data, w);
            && all != []
            && (tmp in all[|all| - 1] <==> !w.writing.complete || (!w.renameOk && !w.removeOk))
  {
    var staged := Staging(files, tmp, data, w.writing);
    if !w.writing.complete && w.writing.pieces != [] {
      assert staged[|staged| - 1] == Partial(files, tmp, data, w.writing.pieces)[|w.writing.pieces| - 1];
    }
  }

  // ---------- The three writers ----------

  class FileSystem {
    var files: Files
    /** Every state since creation, in order. */
    ghost var observed: seq<Files>

    constructor (initial: Files)
      ensures files == initial && observed == []
    {
      files := initial;
      observed := [];
    }

    method Put(path: string, data: string)
      modifies this
      ensures files == old(files)[path := data] && observed == old(observed) + [files]
    {
      files := files[path := data];
      observed := observed + [files];
    }

    /** os.WriteFile. */
    method WriteFile(path: string, data: string, w: Writing) returns (ok: bool)
      modifies this
      ensures ok <==> w.Writes? && w.complete
      ensures observed == old(observed) + Staging(old(files), path, data, w)
      ensures ok ==> files == old(files)[path := data]
      ensures w.OpenFails? ==> files == old(files)
      ensures forall q :: q != path ==> Look(files, q) == Look(old(files), q)
    {
      if w.OpenFails? {
        return false;
      }
      ghost var before, log := files, observed;
      Put(path, "");
      assert files == before[path := ""];
      var i := 0;
      while i < |w.pieces|
        invariant 0 <= i <= |w.pieces|
        invariant path in files && files == before[path := files[path]]
        invariant observed == log + [before[path := ""]] + Partial(before, path, data, w.pieces[..i])
      {
        Put(path, Prefix(data, w.pieces[i]));
        assert files == before[path := Prefix(data, w.pieces[i])];
        assert Partial(before, path, data, w.pieces[..i + 1])
            == Partial(before, path, data, w.pieces[..i]) + [before[path := Prefix(data, w.pieces[i])]];
        i := i + 1;
      }
      assert w.pieces[..i] == w.pieces;
      if w.complete {
        Put(path, data);
        assert files == before[path := data];
      }
      ok := w.complete;
    }

    /** os.Rename of a staged file over its target. */
    method Rename(tmp: string, path: string, ok: bool)
      requires tmp in files && tmp != path
      modifies this
      ensures ok ==> files == Renamed(old(files), tmp, path, old(files)[tmp]) && observed == old(observed) + [files]
      ensures !ok ==> files == old(files) && observed == old(observed)
    {
      if ok {
        files := (files - {tmp})[path := files[tmp]];
        observed := observed + [files];
      }
    }

    method Remove(path: string, ok: bool)
      modifies this
      ensures ok ==> files == old(files) - {path} && observed == old(observed) + [files]
      ensures !ok ==> files == old(files) && observed == old(observed)
    {
      if ok {
        files := files - {path};
        observed := observed + [files];
      }
    }

    /** auth.SaveToPath. */
    method SaveToPath(t: Token, zone: int, path: string, w: Weather) returns (ok: bool)
      requires Printable(t.expires, zone)
      modifies this
      ensures ok <==> w.Fair()
      ensures Look(files, path) == if ok then Some(SavedText(t, zone)) else Look(old(files), path)
      ensures observed == old(observed) + Observed(old(files), path, path + ".tmp", SavedText(t, zone), w)
    {
      ghost var before := files;
      if !w.mkdirOk {
        return false;
      }
      var content := SavedText(t, zone);
      var tmp := path + ".tmp";
      ok := WriteFile(tmp, content, w.writing);
      if !ok {
        return;
      }
      Rename(tmp, path, w.renameOk);
      assert before[tmp := content] - {tmp} == before - {tmp};
      if !w.renameOk {
        Remove(tmp, w.removeOk);
        return false;
      }
    }

    /** cmd.writeTokenFile. */
    method WriteTokenFile(path: string, value: string, expires: string, w: Weather) returns (ok: bool)
      modifies this
      ensures ok <==> w.Fair()
      ensures Look(files, path) == if ok then Some(Render(value, expires)) else Look(old(files), path)
      ensures observed == old(observed) + Observed(old(files), path, path + ".tmp", Render(value, expires), w)
    {
      ghost var before := files;
      if !w.mkdirOk {
        return false;
      }
      var content := Render(value, expires);
      var tmp := path + ".tmp";
      ok := WriteFile(tmp, content, w.writing);
      if !ok {
        return;
      }
      Rename(tmp, path, w.renameOk);
      assert before[tmp := content] - {tmp} == before - {tmp};
      if !w.renameOk {
        Remove(tmp, w.removeOk);
        return false;
      }
    }

    /** cmd.replaceBinaryAt, which creates no directory. */
    method ReplaceBinaryAt(execPath: string, newBinary: string, writing: Writing, renameOk: bool, removeOk: bool)
      returns (ok: bool)
      modifies this
      ensures var w := Weather(true, writing, renameOk, removeOk);
              && (ok <==> w.Fair())
              && Look(files, execPath) == (if ok then Some(newBinary) else Look(old(files), execPath))
              && observed == old(observed) + Observed(old(files), execPath, execPath + ".update", newBinary, w)
    {
      ghost var before := files;
      var tmpPath := execPath + ".update";
      ok := WriteFile(tmpPath, newBinary, writing);
      if !ok {
        return;
      }
      Rename(tmpPath, execPath, renameOk);
      assert before[tmpPath := newBinary] - {tmpPath} == before - {tmpPath};
      if !renameOk {
        Remove(tmpPath, removeOk);
        return false;
      }
    }
  }

  // ---------- Token files as their readers see them ----------

  /** What LoadFromPath makes of a path. */
  function View(files: Files, path: string): File {
    if path !in files then Missing
    else
      match Load(files[path])
      case None => Unreadable
      case Some(t) => Holds(t)
  }

  /** The save of module Tokens, which the lifecycle is built on, is what every observable state of a
      SaveToPath looks like through LoadFromPath: nothing happened, or all of it did. */
  lemma EveryStateIsASaveOrNone(files: Files, path: string, tmp: string, t: Token, zone: int, w: Weather, k: nat)
    requires path != tmp && Reloadable(t, zone) && FitsOneLine(t.value)
    requires k < |Observed(files, path, tmp, SavedText(t, zone), w)|
    ensures var all := Observed(files, path, tmp, SavedText(t, zone), w);
            View(all[k], path) == Save(View(files, path), t, w.Fair() && k == |all| - 1)
  {
    var all := Observed(files, path, tmp, SavedText(t, zone), w);
    NeverHalfPublished(files, path, tmp, SavedText(t, zone), w, k);
    LoadUndoesSave(t, zone);
    ViewIsOfTheLook(all[k], files, path);
    ViewIsOfTheLook(all[k], map[path := SavedText(t, zone)], path);
  }

  lemma ViewIsOfTheLook(a: Files, b: Files, path: string)
    ensures Look(a, path) == Look(b, path) ==> View(a, path) == View(b, path)
  {}

  // ---------- Successive writers, each of which may be killed ----------

  /** One writer, killed after `reached` observable states if that is not all of them. */
  datatype Attempt = Attempt(data: string, weather: Weather, reached: nat)

  function Survived(files: Files, path: string, tmp: string, a: Attempt): seq<Files> {
    var all := Observed(files, path, tmp, a.data, a.weather);
    if a.reached <= |all| then all[..a.reached] else all
  }

  function Leaves(files: Files, path: string, tmp: string, a: Attempt): Files {
    var states := Survived(files, path, tmp, a);
    if states == [] then files else states[|states| - 1]
  }

  function LeavesAll(files: Files, path: string, tmp: string, attempts: seq<Attempt>): Files
    decreases |attempts|
  {
    if attempts == [] then files
    else
      var last := |attempts| - 1;
      Leaves(LeavesAll(files, path, tmp, attempts[..last]), path, tmp, attempts[last])
  }

  /** The attempt lived to the end of a publication that succeeded. */
  predicate Landed(a: Attempt) {
    a.weather.Fair() && a.reached >= |a.weather.writing.pieces| + 3
  }

  function LastLanded(attempts: seq<Attempt>, initial: Option<string>): Option<string>
    decreases |attempts|
  {
    if attempts == [] then initial
    else
      var last := |attempts| - 1;
      if Landed(attempts[last]) then Some(attempts[last].data) else LastLanded(attempts[..last], initial)
  }

  lemma LeavesLanded(files: Files, path: string, tmp: string, a: Attempt)
    requires path != tmp
    ensures Look(Leaves(files, path, tmp, a), path) == if Landed(a) then Some(a.data) else Look(files, path)
  {
    var all := Observed(files, path, tmp, a.data, a.weather);
    var states := Survived(files, path, tmp, a);
    if states != [] {
      NeverHalfPublished(files, path, tmp, a.data, a.weather, |states| - 1);
    }
    if a.weather.Fair() {
      assert |all| == |a.weather.writing.pieces| + 3;
    }
  }

  /** After any number of writers one after another, killed wherever they were and whatever staging
      files they left behind, the path holds the complete data of the last publication that finished. */
  lemma {:induction false} ReaderSeesLastLanded(files: Files, path: string, tmp: string, attempts: seq<Attempt>)
    requires path != tmp
    ensures Look(LeavesAll(files, path, tmp, attempts), path) == LastLanded(attempts, Look(files, path))
    decreases |attempts|
  {
    if attempts != [] {
      var last := |attempts| - 1;
      ReaderSeesLastLanded(files, path, tmp, attempts[..last]);
      LeavesLanded(LeavesAll(files, path, tmp, attempts[..last]), path, tmp, attempts[last]);
    }
  }

  /** Also while a writer is at work, a reader sees the last finished publication or, at the very end,
      the one at hand. */
  lemma ReaderNeverSeesAMixture(files: Files, path: string, tmp: string, attempts: seq<Attempt>, a: Attempt, k: nat)
    requires path != tmp
    requires k < |Survived(LeavesAll(files, path, tmp, attempts), path, tmp, a)|
    ensures var seen := Look(Survived(LeavesAll(files, path, tmp, attempts), path, tmp, a)[k], path);
            || seen == LastLanded(attempts, Look(files, path))
            || (seen == Some(a.data) && Landed(a))
  {
    var before := LeavesAll(files, path, tmp, attempts);
    ReaderSeesLastLanded(files, path, tmp, attempts);
    NeverHalfPublished(before, path, tmp, a.data, a.weather, k);
    if a.weather.Fair() {
      assert |Observed(before, path, tmp, a.data, a.weather)| == |a.weather.writing.pieces| + 3;
    }
  }
}
