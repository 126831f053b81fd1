/** The version marker in an installed shim: rendering the shim, reading the marker back, and doctor's
    comparison (cmd/install.go, cmd/doctor.go). The text after the marker line does not matter to any
    of it, so the theorems hold for every such text. */
module ShimStamp {
  import opened Optional
  import opened Text

  // The template's lines. A literal costs the verifier one fact for every character wherever it is
  // mentioned, so the long ones are sums of short ones and the lemmas about them take lines as parameters.
  const SIGNATURE := "op-forward shim"
  const FIRST_LINE := "#!/bin/sh"
  const SECOND_TAIL := " \U{2014} forwards op" + " commands to host" + " daemon via SSH" + " tunnel."
  const SECOND_LINE := "# " + SIGNATURE + SECOND_TAIL
  const THIRD_LINE := "# Installed by" + " op-forward. Do" + " not edit" + " directly."
  const VERSION_PREFIX := "# op-forward" + "-shim-version: "

  const BIN_MARK := "{{OP_FORWARD_BIN}}"
  const VERSION_MARK := "{{VERSION}}"
  const REAL_MARK := "{{REAL_OP}}"

  function FourLines(l1: string, l2: string, l3: string, l4: string): string {
    l1 + "\n" + l2 + "\n" + l3 + "\n" + l4
  }

  /** The shim template up to its version placeholder. */
  function Head(): string {
    FourLines(FIRST_LINE, SECOND_LINE, THIRD_LINE, VERSION_PREFIX)
  }

  // ---------- strings.ReplaceAll ----------

  function ReplaceAll(s: string, p: string, r: string): string
    requires p != ""
    decreases |s|
  {
    if s == "" then ""
    else if HasPrefix(s, p) then r + ReplaceAll(s[|p|..], p, r)
    else [s[0]] + ReplaceAll(s[1..], p, r)
  }

  /** Text in which no occurrence of the pattern starts is passed over. */
  lemma {:induction false} ReplaceSkips(h: string, t: string, p: string, r: string)
    requires p != "" && forall i :: 0 <= i < |h| ==> !HasPrefix((h + t)[i..], p)
    ensures ReplaceAll(h + t, p, r) == h + ReplaceAll(t, p, r)
  {
    if h == "" {
      assert h + t == t;
    } else {
      var s := h + t;
      assert s[0..] == s && !HasPrefix(s[0..], p);
      assert s[1..] == h[1..] + t;
      forall i | 0 <= i < |h[1..]| ensures !HasPrefix((h[1..] + t)[i..], p) {
        assert s[i + 1..] == (h[1..] + t)[i..];
      }
      ReplaceSkips(h[1..], t, p, r);
    }
  }

  lemma ReplaceSkipsWithoutBraces(h: string, t: string, p: string, r: string)
    requires p != "" && p[0] == '{' && '{' !in h
    ensures ReplaceAll(h + t, p, r) == h + ReplaceAll(t, p, r)
  {
    forall i | 0 <= i < |h| ensures !HasPrefix((h + t)[i..], p) {
      assert (h + t)[i..][0] == h[i];
    }
    ReplaceSkips(h, t, p, r);
  }

  lemma ReplaceHits(t: string, p: string, r: string)
    requires p != ""
    ensures ReplaceAll(p + t, p, r) == r + ReplaceAll(t, p, r)
  {
    assert (p + t)[..|p|] == p && (p + t)[|p|..] == t;
  }

  // ---------- The stamp ----------

  predicate Plain(c: char) {
    IsDigit(c) || 'a' <= c <= 'z' || 'A' <= c <= 'Z' || c == '.' || c == '+' || c == '-' || c == '_' || c == '~'
  }

  /** shimVersionStamp. */
  function Stamp(v: string): (s: string)
    ensures |s| == |v| && forall c <- s :: Plain(c)
  {
    if v == "" then "" else [if Plain(v[0]) then v[0] else '_'] + Stamp(v[1..])
  }

  /** Stamping keeps exactly the versions made of plain characters, so stamping twice is stamping once. */
  lemma {:induction false} StampKeepsExactlyPlain(v: string)
    ensures Stamp(v) == v <==> forall c <- v :: Plain(c)
  {
    if v != "" {
      StampKeepsExactlyPlain(v[1..]);
      assert v == [v[0]] + v[1..];
      if forall c <- v :: Plain(c) {
        assert forall c <- v[1..] :: c in v;
      } else if forall c <- v[1..] :: Plain(c) {
        assert !Plain(v[0]) && Stamp(v)[0] == '_';
      } else {
        assert Stamp(v)[1..] == Stamp(v[1..]);
      }
    }
  }

  lemma StampIdempotent(v: string)
    ensures Stamp(Stamp(v)) == Stamp(v)
  {
    StampKeepsExactlyPlain(Stamp(v));
  }

  /** renderShim over a template that consists of a head, the version placeholder and the rest. */
  function RenderAfter(head: string, rest: string, bin: string, realOp: string, stamp: string): string {
    ReplaceAll(ReplaceAll(ReplaceAll(head + VERSION_MARK + "\n" + rest, BIN_MARK, bin), VERSION_MARK, stamp),
               REAL_MARK, realOp)
  }

  /** renderShim. */
  function RenderShim(rest: string, opForwardBin: string, realOp: string, version: string): string {
    RenderAfter(Head(), rest, opForwardBin, realOp, Stamp(version))
  }

  lemma BinMarkIsNotInVersionMark(t: string, r: string)
    ensures ReplaceAll(VERSION_MARK + t, BIN_MARK, r) == VERSION_MARK + ReplaceAll(t, BIN_MARK, r)
  {
    forall i | 0 <= i < |VERSION_MARK| ensures !HasPrefix((VERSION_MARK + t)[i..], BIN_MARK) {
      var s := (VERSION_MARK + t)[i..];
      if i == 0 {
        assert s[2] == 'V' && BIN_MARK[2] == 'O';
      } else if i == 1 {
        assert s[1] == 'V' && BIN_MARK[1] == '{';
      } else {
        assert s[0] == VERSION_MARK[i] && VERSION_MARK[i] != '{';
      }
    }
    ReplaceSkips(VERSION_MARK, t, BIN_MARK, r);
  }

  /** A pattern that does not occur in the head or the token is replaced in the rest only. */
  lemma ReplaceBeyondToken(head: string, token: string, rest: string, p: string, r: string)
    requires '{' !in head && p != "" && p[0] == '{'
    requires ReplaceAll(token + ("\n" + rest), p, r) == token + ReplaceAll("\n" + rest, p, r)
    ensures ReplaceAll(head + token + "\n" + rest, p, r) == head + token + "\n" + ReplaceAll(rest, p, r)
  {
    var y := ReplaceAll(rest, p, r);
    assert head + token + "\n" + rest == head + (token + ("\n" + rest));
    ReplaceSkipsWithoutBraces(head, token + ("\n" + rest), p, r);
    ReplaceSkipsWithoutBraces("\n", rest, p, r);
    assert head + (token + ("\n" + y)) == head + token + "\n" + y;
  }

  /** The token itself is replaced where it stands. */
  lemma ReplaceToken(head: string, token: string, y: string, stamp: string)
    requires '{' !in head && token != "" && token[0] == '{'
    ensures ReplaceAll(head + token + "\n" + y, token, stamp) == head + stamp + "\n" + ReplaceAll(y, token, stamp)
  {
    var z := ReplaceAll(y, token, stamp);
    assert head + token + "\n" + y == head + (token + ("\n" + y));
    ReplaceSkipsWithoutBraces(head, token + ("\n" + y), token, stamp);
    ReplaceHits("\n" + y, token, stamp);
    ReplaceSkipsWithoutBraces("\n", y, token, stamp);
    assert head + (stamp + ("\n" + z)) == head + stamp + "\n" + z;
  }

  /** Whatever the paths contain, a rendered template still begins with its head and the stamp. */
  lemma RenderedBegins(head: string, rest: string, bin: string, realOp: string, stamp: string) returns (tail: string)
    requires '{' !in head && '{' !in stamp
    ensures tail == ReplaceAll(ReplaceAll(ReplaceAll(rest, BIN_MARK, bin), VERSION_MARK, stamp), REAL_MARK, realOp)
    ensures RenderAfter(head, rest, bin, realOp, stamp) == head + stamp + "\n" + tail
  {
    var y := ReplaceAll(rest, BIN_MARK, bin);
    var z := ReplaceAll(y, VERSION_MARK, stamp);
    BinMarkIsNotInVersionMark("\n" + rest, bin);
    ReplaceBeyondToken(head, VERSION_MARK, rest, BIN_MARK, bin);
    ReplaceToken(head, VERSION_MARK, y, stamp);
    ReplaceSkipsWithoutBraces(head + stamp + "\n", z, REAL_MARK, realOp);
    tail := ReplaceAll(z, REAL_MARK, realOp);
  }

  // ---------- Reading the marker back ----------

  /** parseShimVersion: only the leading block of comments and empty lines is consulted. */
  function ParseShimVersion(content: string): Option<string>
    decreases |content|
  {
    var split := SplitFirst(content, '\n');
    var line := if split.Whole? then content else split.head;
    if HasPrefix(line, VERSION_PREFIX) then Some(TrimSpace(line[|VERSION_PREFIX|..]))
    else if line != "" && line[0] != '#' then None
    else if split.Whole? then None
    else ParseShimVersion(split.tail)
  }

  /** A header line that parsing passes over and rendering leaves alone. */
  predicate Comment(line: string) {
    '\n' !in line && '{' !in line && line != "" && line[0] == '#' && !HasPrefix(line, VERSION_PREFIX)
  }

  lemma CommentLineIsPassed(line: string, rest: string)
    requires Comment(line)
    ensures ParseShimVersion(line + "\n" + rest) == ParseShimVersion(rest)
  {
    SplitFirstAt(line, '\n', rest);
    assert line + ['\n'] + rest == line + "\n" + rest;
  }

  lemma MarkerLineIsRead(stamp: string, rest: string)
    requires forall c <- stamp :: Plain(c)
    ensures ParseShimVersion(VERSION_PREFIX + stamp + "\n" + rest) == Some(stamp)
  {
    var line := VERSION_PREFIX + stamp;
    assert '\n' !in VERSION_PREFIX && '\n' !in stamp;
    SplitFirstAt(line, '\n', rest);
    assert line + ['\n'] + rest == line + "\n" + rest;
    assert line[..|VERSION_PREFIX|] == VERSION_PREFIX && line[|VERSION_PREFIX|..] == stamp;
    if stamp != "" {
      assert stamp[0] in stamp && stamp[|stamp| - 1] in stamp;
      TrimKeepsBody("", stamp, "");
      assert "" + (stamp + "") == stamp;
    }
  }

  lemma MarkerAfterThreeComments(l1: string, l2: string, l3: string, stamp: string, tail: string)
    requires Comment(l1) && Comment(l2) && Comment(l3) && forall c <- stamp :: Plain(c)
    ensures ParseShimVersion(FourLines(l1, l2, l3, VERSION_PREFIX) + stamp + "\n" + tail) == Some(stamp)
  {
    var marker := VERSION_PREFIX + stamp + "\n" + tail;
    assert FourLines(l1, l2, l3, VERSION_PREFIX) + stamp + "\n" + tail
        == l1 + "\n" + (l2 + "\n" + (l3 + "\n" + marker));
    CommentLineIsPassed(l1, l2 + "\n" + (l3 + "\n" + marker));
    CommentLineIsPassed(l2, l3 + "\n" + marker);
    CommentLineIsPassed(l3, marker);
    MarkerLineIsRead(stamp, tail);
  }

  lemma FirstLineIsComment()
    ensures Comment(FIRST_LINE)
  {
    assert FIRST_LINE[1] == '!' && VERSION_PREFIX[1] == ' ';
  }

  lemma SecondLineIsComment()
    ensures Comment(SECOND_LINE)
  {
    assert '\n' !in SECOND_TAIL && '{' !in SECOND_TAIL;
    assert '\n' !in SIGNATURE && '{' !in SIGNATURE;
    assert SECOND_LINE[12] == SIGNATURE[10] == ' ' && VERSION_PREFIX[12] == '-';
  }

  lemma ThirdLineIsComment()
    ensures Comment(THIRD_LINE)
  {
    assert THIRD_LINE[2] == 'I' && VERSION_PREFIX[2] == 'o';
  }

  lemma HeaderLinesAreComments()
    ensures Comment(FIRST_LINE) && Comment(SECOND_LINE) && Comment(THIRD_LINE)
    ensures '{' !in Head()
  {
    FirstLineIsComment();
    SecondLineIsComment();
    ThirdLineIsComment();
    assert '{' !in VERSION_PREFIX;
    HeadOf(FIRST_LINE, SECOND_LINE, THIRD_LINE, VERSION_PREFIX);
  }

  lemma HeadOf(l1: string, l2: string, l3: string, p: string)
    requires '{' !in l1 && '{' !in l2 && '{' !in l3 && '{' !in p
    ensures '{' !in FourLines(l1, l2, l3, p)
  {}

  /** Reading the marker of a rendered shim gives exactly the stamped version, for every version and
      every pair of paths, including ones that contain newlines or placeholders. */
  lemma ParseUndoesRender(rest: string, bin: string, realOp: string, version: string)
    ensures ParseShimVersion(RenderShim(rest, bin, realOp, version)) == Some(Stamp(version))
  {
    HeaderLinesAreComments();
    var tail := RenderedBegins(Head(), rest, bin, realOp, Stamp(version));
    MarkerAfterThreeComments(FIRST_LINE, SECOND_LINE, THIRD_LINE, Stamp(version), tail);
  }

  lemma ScriptIsNoMarker(line: string)
    requires line != "" && line[0] != '#'
    ensures !HasPrefix(line, VERSION_PREFIX)
  {
    assert VERSION_PREFIX[0] == '#';
  }

  /** A line that is neither empty nor a comment ends the search: a marker after it is not read. */
  lemma ScriptEndsTheSearch(line: string, rest: string)
    requires line != "" && line[0] != '#' && '\n' !in line
    ensures ParseShimVersion(line + "\n" + rest) == None
  {
    SplitFirstAt(line, '\n', rest);
    assert line + ['\n'] + rest == line + "\n" + rest;
    ScriptIsNoMarker(line);
  }

  /** An empty line does not. */
  lemma EmptyLineIsPassed(rest: string)
    ensures ParseShimVersion("\n" + rest) == ParseShimVersion(rest)
    ensures ParseShimVersion("") == None
  {
    SplitFirstAt("", '\n', rest);
    assert "" + ['\n'] + rest == "\n" + rest;
  }

  // ---------- Where the paths land ----------

  lemma HasPrefixHere(b: string, t: string, p: string)
    requires p != "" && (t == "" || t[0] !in p)
    ensures b != "" ==> (HasPrefix(b + t, p) <==> HasPrefix(b, p))
  {
    if |p| <= |b| {
      assert (b + t)[..|p|] == b[..|p|];
    } else if |p| <= |b + t| {
      assert (b + t)[..|p|][|b|] == t[0];
    }
  }

  /** Replacement does not reach across a character that is not in the pattern. */
  lemma {:induction false} ReplaceInTwo(b: string, t: string, p: string, r: string)
    requires p != "" && (t == "" || t[0] !in p)
    ensures ReplaceAll(b + t, p, r) == ReplaceAll(b, p, r) + ReplaceAll(t, p, r)
    decreases |b|
  {
    if b == "" {
      assert b + t == t && ReplaceAll(b, p, r) + ReplaceAll(t, p, r) == ReplaceAll(t, p, r);
    } else {
      HasPrefixHere(b, t, p);
      if HasPrefix(b, p) {
        assert (b + t)[|p|..] == b[|p|..] + t;
        ReplaceInTwo(b[|p|..], t, p, r);
      } else {
        assert (b + t)[1..] == b[1..] + t;
        ReplaceInTwo(b[1..], t, p, r);
      }
    }
  }

  /** A quotation mark and then plain script: no placeholder begins in it or ends in it. */
  predicate Script(s: string) {
    s != "" && s[0] == '"' && '{' !in s
  }

  lemma ReplaceInScript(s: string, p: string, r: string)
    requires '{' !in s && p != "" && p[0] == '{'
    ensures ReplaceAll(s, p, r) == s
  {
    ReplaceSkipsWithoutBraces(s, "", p, r);
    assert s + "" == s && s + ReplaceAll("", p, r) == s;
  }

  lemma MarksAreBraced()
    ensures '"' !in BIN_MARK && '"' !in VERSION_MARK && '"' !in REAL_MARK
    ensures BIN_MARK[0] == '{' && VERSION_MARK[0] == '{' && REAL_MARK[0] == '{'
  {}

  /** One placeholder with script around it, and another piece of text after that. */
  lemma ReplaceAround(x: string, mark: string, y: string, p: string, r: string, mark': string)
    requires '{' !in x && (y == "" || y[0] == '"') && p != "" && p[0] == '{' && '"' !in p
    requires ReplaceAll(mark, p, r) == mark'
    ensures ReplaceAll(x + (mark + y), p, r) == x + (mark' + ReplaceAll(y, p, r))
  {
    ReplaceSkipsWithoutBraces(x, mark + y, p, r);
    ReplaceInTwo(mark, y, p, r);
  }

  lemma MarkForMark(p: string, r: string)
    requires p != ""
    ensures ReplaceAll(p, p, r) == r
  {
    ReplaceHits("", p, r);
    assert p + "" == p && r + ReplaceAll("", p, r) == r;
  }

  lemma OtherMarksStay()
    ensures forall r :: ReplaceAll(REAL_MARK, BIN_MARK, r) == REAL_MARK
    ensures forall r :: ReplaceAll(REAL_MARK, VERSION_MARK, r) == REAL_MARK
  {
    forall r
      ensures ReplaceAll(REAL_MARK, BIN_MARK, r) == REAL_MARK && ReplaceAll(REAL_MARK, VERSION_MARK, r) == REAL_MARK
    {
      ForeignMarkStays(REAL_MARK, BIN_MARK, r);
      ForeignMarkStays(REAL_MARK, VERSION_MARK, r);
    }
  }

  /** A placeholder is left alone by the replacement of another. */
  lemma ForeignMarkStays(mark: string, p: string, r: string)
    requires |mark| > 2 && mark[0] == '{' && mark[1] == '{' && '{' !in mark[2..]
    requires |p| > 2 && p[0] == '{' && p[1] == '{' && p[2] != '{' && p[2] != mark[2]
    ensures ReplaceAll(mark, p, r) == mark
  {
    forall i | 0 <= i < |mark| ensures !HasPrefix((mark + "")[i..], p) {
      var s := (mark + "")[i..];
      if i == 0 {
        assert s[2] == mark[2];
      } else if i == 1 {
        assert s[1] == mark[2] && mark[2] in mark[2..];
      } else {
        assert s[0] == mark[2..][i - 2];
      }
    }
    ReplaceSkips(mark, "", p, r);
    assert mark + "" == mark && mark + ReplaceAll("", p, r) == mark;
  }

  /** In a script that names the real op first and the binary second, each in quotation marks, each path
      lands in its own place. The real op's path is always verbatim; so is the binary's, unless it contains
      one of the two placeholders that are filled in after it. */
  lemma PathsLandInTheirPlaces(x: string, y: string, z: string, bin: string, realOp: string, stamp: string)
    requires '{' !in x && Script(y) && Script(z)
    ensures var script := x + (REAL_MARK + (y + (BIN_MARK + z)));
            ReplaceAll(ReplaceAll(ReplaceAll(script, BIN_MARK, bin), VERSION_MARK, stamp), REAL_MARK, realOp)
            == x + (realOp + (y + (ReplaceAll(ReplaceAll(bin, VERSION_MARK, stamp), REAL_MARK, realOp) + z)))
  {
    MarksAreBraced();
    OtherMarksStay();
    MarkForMark(BIN_MARK, bin);
    MarkForMark(REAL_MARK, realOp);
    var bin1 := ReplaceAll(bin, VERSION_MARK, stamp);
    var bin2 := ReplaceAll(bin1, REAL_MARK, realOp);
    ReplaceAround(y, BIN_MARK, z, BIN_MARK, bin, bin);
    ReplaceInScript(z, BIN_MARK, bin);
    ReplaceAround(x, REAL_MARK, y + (BIN_MARK + z), BIN_MARK, bin, REAL_MARK);
    ReplaceAround(y, bin, z, VERSION_MARK, stamp, bin1);
    ReplaceInScript(z, VERSION_MARK, stamp);
    ReplaceAround(x, REAL_MARK, y + (bin + z), VERSION_MARK, stamp, REAL_MARK);
    ReplaceAround(y, bin1, z, REAL_MARK, realOp, bin2);
    ReplaceInScript(z, REAL_MARK, realOp);
    ReplaceAround(x, REAL_MARK, y + (bin1 + z), REAL_MARK, realOp, realOp);
  }

  /** The rendered shim in full, for a template whose script is of that form. */
  lemma RenderedShimNamesItsPaths(x: string, y: string, z: string, bin: string, realOp: string, version: string)
    requires '{' !in x && Script(y) && Script(z)
    ensures RenderShim(x + (REAL_MARK + (y + (BIN_MARK + z))), bin, realOp, version)
         == Head() + Stamp(version) + "\n"
            + (x + (realOp + (y + (ReplaceAll(ReplaceAll(bin, VERSION_MARK, Stamp(version)), REAL_MARK, realOp) + z))))
    ensures '{' !in bin ==>
              ReplaceAll(ReplaceAll(bin, VERSION_MARK, Stamp(version)), REAL_MARK, realOp) == bin
  {
    HeaderLinesAreComments();
    PathsLandInTheirPlaces(x, y, z, bin, realOp, Stamp(version));
    var tail := RenderedBegins(Head(), x + (REAL_MARK + (y + (BIN_MARK + z))), bin, realOp, Stamp(version));
    MarksAreBraced();
    if '{' !in bin {
      ReplaceInScript(bin, VERSION_MARK, Stamp(version));
      ReplaceInScript(bin, REAL_MARK, realOp);
    }
  }

  // ---------- Doctor's version branch ----------

  datatype ShimState = NotShim | Unstamped | Stale(recorded: string) | Current

  /** Some occurrence of the signature. */
  predicate Contains(s: string, p: string) {
    exists i :: 0 <= i <= |s| && HasPrefix(s[i..], p)
  }

  /** checkShim on the contents of a shim that could be read. */
  function CheckShim(content: string, running: string): ShimState {
    if !Contains(content, SIGNATURE) then NotShim
    else
      match ParseShimVersion(content)
      case None => Unstamped
      case Some(recorded) => if recorded != Stamp(running) then Stale(recorded) else Current
  }

  lemma SignatureInside(before: string, after: string)
    ensures Contains(before + SIGNATURE + after, SIGNATURE)
  {
    var s := before + SIGNATURE + after;
    assert s[|before|..] == SIGNATURE + after;
    assert HasPrefix(s[|before|..], SIGNATURE);
  }

  lemma SecondLineIsInside(l1: string, signature: string, t2: string, l3: string, x: string, y: string)
    ensures FourLines(l1, "# " + signature + t2, l3, x) + y
         == (l1 + "\n" + "# ") + signature + (t2 + ("\n" + l3 + "\n" + x + y))
  {}

  lemma SignatureInSecondLine(l1: string, t2: string, l3: string, x: string, y: string)
    ensures Contains(FourLines(l1, "# " + SIGNATURE + t2, l3, x) + y, SIGNATURE)
  {
    var before, after := l1 + "\n" + "# ", t2 + ("\n" + l3 + "\n" + x + y);
    SecondLineIsInside(l1, SIGNATURE, t2, l3, x, y);
    SignatureInside(before, after);
  }

  lemma RenderedHasSignature(l1: string, t2: string, l3: string, l4: string, rest: string, bin: string, realOp: string,
                             stamp: string)
    requires '{' !in FourLines(l1, "# " + SIGNATURE + t2, l3, l4) && '{' !in stamp
    ensures Contains(RenderAfter(FourLines(l1, "# " + SIGNATURE + t2, l3, l4), rest, bin, realOp, stamp), SIGNATURE)
  {
    var head := FourLines(l1, "# " + SIGNATURE + t2, l3, l4);
    var tail := RenderedBegins(head, rest, bin, realOp, stamp);
    SignatureInSecondLine(l1, t2, l3, l4, stamp + "\n" + tail);
    assert head + stamp + "\n" + tail == head + (stamp + "\n" + tail);
  }

  lemma RenderedShimHasSignature(rest: string, bin: string, realOp: string, version: string)
    ensures Contains(RenderShim(rest, bin, realOp, version), SIGNATURE)
  {
    HeaderLinesAreComments();
    RenderedHasSignature(FIRST_LINE, SECOND_TAIL, THIRD_LINE, VERSION_PREFIX, rest, bin, realOp, Stamp(version));
  }

  /** Doctor calls a rendered shim current for the binary that wrote it, and for any other exactly when
      the two versions have the same stamp. */
  lemma RenderedShimIsCurrentExactlyForItsWriter(rest: string, bin: string, realOp: string, version: string,
                                                 running: string)
    ensures var content := RenderShim(rest, bin, realOp, version);
            && CheckShim(content, version) == Current
            && CheckShim(content, running)
               == if Stamp(running) == Stamp(version) then Current else Stale(Stamp(version))
  {
    ParseUndoesRender(rest, bin, realOp, version);
    RenderedShimHasSignature(rest, bin, realOp, version);
  }

  /** A shim from before stamping, three comment lines and then script, is recognised as one without a
      stamp, whatever its script contains, and a file without the signature is no shim at all. */
  lemma OlderShimIsUnstamped(l1: string, t2: string, l3: string, line: string, rest: string, running: string)
    requires Comment(l1) && Comment("# " + SIGNATURE + t2) && Comment(l3)
    requires line != "" && line[0] != '#' && '\n' !in line
    ensures CheckShim(FourLines(l1, "# " + SIGNATURE + t2, l3, line) + ("\n" + rest), running) == Unstamped
  {
    var l2, script := "# " + SIGNATURE + t2, line + "\n" + rest;
    LinesInTurn(l1, l2, l3, line, rest);
    CommentLineIsPassed(l1, l2 + "\n" + (l3 + "\n" + script));
    CommentLineIsPassed(l2, l3 + "\n" + script);
    CommentLineIsPassed(l3, script);
    ScriptEndsTheSearch(line, rest);
    SignatureInSecondLine(l1, t2, l3, line, "\n" + rest);
  }

  lemma LinesInTurn(l1: string, l2: string, l3: string, line: string, rest: string)
    ensures FourLines(l1, l2, l3, line) + ("\n" + rest) == l1 + "\n" + (l2 + "\n" + (l3 + "\n" + (line + "\n" + rest)))
  {}

  lemma NoShimExactlyWhenUnsigned(content: string, running: string)
    ensures CheckShim(content, running) == NotShim <==>
            forall i :: 0 <= i <= |content| ==> !HasPrefix(content[i..], SIGNATURE)
  {}
}
