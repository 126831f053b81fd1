/** Endpoint addresses: parsing tcp://host:port and unix:///path, and printing them
    (internal/endpoint/endpoint.go, with net.SplitHostPort, net.JoinHostPort, strconv.Atoi and, for
    absolute paths, filepath.Clean). */
module Endpoint {
  import opened Optional
  import opened Text

  datatype Endpoint = Endpoint(network: string, address: string) {
    function String(): string {
      network + SEPARATOR + address
    }
  }

  const SEPARATOR := "://"

  datatype Error =
    | NoScheme | NotHostPort | EmptyHost | BadPort
    | UnixUnsupported | EmptyPath | RelativePath | UnknownScheme

  datatype Result<T> = Ok(value: T) | Err(error: Error)

  // ---------- Scheme ----------

  /** Position of the first "://", or |s| when there is none. */
  function FindSeparator(s: string): (i: nat)
    ensures i <= |s| && (i < |s| ==> i + 3 <= |s| && s[i..i + 3] == SEPARATOR)
  {
    if |s| < 3 then |s|
    else if s[..3] == SEPARATOR then 0
    else 1 + FindSeparator(s[1..])
  }

  lemma {:induction false} SeparatorAfterScheme(scheme: string, rest: string)
    requires ':' !in scheme
    ensures FindSeparator(scheme + SEPARATOR + rest) == |scheme|
  {
    var s := scheme + SEPARATOR + rest;
    if scheme == "" {
      assert s[..3] == SEPARATOR;
    } else {
      assert s[0] == scheme[0] && s[..3][0] != ':';
      assert s[1..] == scheme[1..] + SEPARATOR + rest;
      SeparatorAfterScheme(scheme[1..], rest);
    }
  }

  // ---------- Host and port ----------

  datatype HostPort = HostPort(host: string, port: string)

  /** net.SplitHostPort. */
  function SplitHostPort(s: string): Option<HostPort> {
    var i := FindLast(s, ':');
    if i == |s| then None
    else if s[0] == '[' then
      var end := Find(s, ']');
      if end == |s| || end + 1 != i then None
      else if '[' in s[1..] || ']' in s[end + 1..] then None
      else Some(HostPort(s[1..end], s[i + 1..]))
    else if ':' in s[..i] || '[' in s || ']' in s then None
    else Some(HostPort(s[..i], s[i + 1..]))
  }

  /** The host as it appears before the port. */
  function Shown(host: string): string {
    if ':' in host then ['['] + host + [']'] else host
  }

  /** net.JoinHostPort. */
  function JoinHostPort(host: string, port: string): string {
    Shown(host) + [':'] + port
  }

  /** Neither a bracket nor anything empty: the hosts SplitHostPort can return non-empty. */
  predicate PlainHost(host: string) {
    host != "" && '[' !in host && ']' !in host
  }

  predicate PlainPort(port: string) {
    ':' !in port && '[' !in port && ']' !in port
  }

  lemma NotInPart(s: string, c: char, a: nat, b: nat)
    requires a <= b <= |s| && c !in s
    ensures c !in s[a..b]
  {
    assert forall k :: a <= k < b ==> s[k] == s[a..b][k - a];
  }

  lemma BracketedSplitIsPlain(s: string)
    requires s != "" && s[0] == '[' && SplitHostPort(s).Some?
    ensures var hp := SplitHostPort(s).value;
            '[' !in hp.host && ']' !in hp.host && '[' !in hp.port && ']' !in hp.port
  {
    var hp, end := SplitHostPort(s).value, Find(s, ']');
    NotInPart(s[1..], '[', 0, end - 1);
    assert s[1..][0..end - 1] == hp.host;
    NotInPart(s[1..], '[', end + 1, |s| - 1);
    assert s[1..][end + 1..|s| - 1] == hp.port;
    NotInPart(s[end + 1..], ']', 1, |s| - end - 1);
    assert s[end + 1..][1..|s| - end - 1] == hp.port;
    assert ']' !in s[..end];
    NotInPart(s[..end], ']', 1, end);
    assert s[..end][1..end] == hp.host;
  }

  lemma SplitIsPlain(s: string)
    requires SplitHostPort(s).Some?
    ensures var hp := SplitHostPort(s).value;
            '[' !in hp.host && ']' !in hp.host && PlainPort(hp.port)
  {
    var i := FindLast(s, ':');
    assert ':' !in s[i + 1..];
    if s[0] == '[' {
      BracketedSplitIsPlain(s);
    } else {
      NotInPart(s, '[', 0, i);
      NotInPart(s, ']', 0, i);
      NotInPart(s, '[', i + 1, |s|);
      NotInPart(s, ']', i + 1, |s|);
      assert s[0..i] == s[..i] && s[i + 1..|s|] == s[i + 1..];
    }
  }

  lemma ColonPrecedesPort(s: string, front: string, port: string)
    requires PlainPort(port) && s == front + [':'] + port
    ensures FindLast(s, ':') == |front| < |s| && s[..|front|] == front && s[|front| + 1..] == port
  {
    assert s[|front| + 1..] == port;
    FindLastAt(s, ':', |front|);
  }

  lemma JoinBrackets(host: string, port: string)
    requires ':' in host
    ensures JoinHostPort(host, port) == ['['] + (host + ([']'] + ([':'] + port)))
  {
    assert Shown(host) == ['['] + host + [']'];
  }

  /** Where the brackets of a joined host with colons are. */
  lemma BracketsSurround(s: string, host: string, port: string)
    requires '[' !in host && ']' !in host && PlainPort(port) && s == ['['] + (host + ([']'] + ([':'] + port)))
    ensures s[0] == '[' && '[' !in s[1..]
    ensures Find(s, ']') == |host| + 1 && ']' !in s[|host| + 2..] && s[1..|host| + 1] == host
  {
    var end := |host| + 1;
    assert s[..end] == ['['] + host && s[end] == ']';
    assert s[1..] == host + ([']'] + ([':'] + port)) && s[end + 1..] == [':'] + port;
    FindAt(s, ']', end);
  }

  /** Splitting an address whose only brackets are around its host. */
  lemma SplitBracketed(s: string, end: nat)
    requires s != "" && s[0] == '[' && '[' !in s[1..]
    requires 1 <= end < |s| && Find(s, ']') == end && ']' !in s[end + 1..]
    requires FindLast(s, ':') == end + 1 < |s|
    ensures SplitHostPort(s) == Some(HostPort(s[1..end], s[end + 2..]))
  {}

  /** Splitting undoes joining. */
  lemma SplitUndoesJoin(host: string, port: string)
    requires PlainHost(host) && PlainPort(port)
    ensures SplitHostPort(JoinHostPort(host, port)) == Some(HostPort(host, port))
  {
    var s := JoinHostPort(host, port);
    ColonPrecedesPort(s, Shown(host), port);
    if ':' in host {
      JoinBrackets(host, port);
      BracketsSurround(s, host, port);
      SplitBracketed(s, |host| + 1);
    } else {
      assert s[0] == host[0];
    }
  }

  lemma BracketedSplits(s: string, host: string, port: string)
    requires '[' !in host && ']' !in host && PlainPort(port) && s == ['['] + (host + ([']'] + ([':'] + port)))
    ensures SplitHostPort(s) == Some(HostPort(host, port))
  {
    var front := ['['] + host + [']'];
    assert s == front + [':'] + port;
    ColonPrecedesPort(s, front, port);
    BracketsSurround(s, host, port);
    SplitBracketed(s, |host| + 1);
  }

  lemma UnbracketedSplits(s: string, host: string, port: string)
    requires '[' !in host && ']' !in host && ':' !in host && PlainPort(port) && s == host + [':'] + port
    ensures SplitHostPort(s) == Some(HostPort(host, port))
  {
    ColonPrecedesPort(s, host, port);
    if host != "" {
      assert s[0] == host[0];
    }
  }

  lemma SplitHasShape(s: string)
    requires SplitHostPort(s).Some?
    ensures var hp := SplitHostPort(s).value;
            || (':' !in hp.host && s == hp.host + [':'] + hp.port)
            || s == ['['] + (hp.host + ([']'] + ([':'] + hp.port)))
  {
    var hp, i := SplitHostPort(s).value, FindLast(s, ':');
    if s[0] == '[' {
      BracketShape(s, i - 1, i);
    } else {
      assert s == s[..i] + [':'] + s[i + 1..];
    }
  }

  lemma BracketShape(s: string, end: nat, i: nat)
    requires 1 <= end && i == end + 1 < |s| && s[0] == '[' && s[end] == ']' && s[i] == ':'
    ensures s == ['['] + (s[1..end] + ([']'] + ([':'] + s[i + 1..])))
  {}

  /** Exactly what splits into host and port: the two joined by a colon, with brackets around the host if
      it contains a colon itself, and no other bracket or colon anywhere. */
  lemma SplitsExactlyWhen(s: string, host: string, port: string)
    ensures SplitHostPort(s) == Some(HostPort(host, port)) <==>
            && '[' !in host && ']' !in host && PlainPort(port)
            && (|| (':' !in host && s == host + [':'] + port)
                || s == ['['] + (host + ([']'] + ([':'] + port))))
  {
    if SplitHostPort(s) == Some(HostPort(host, port)) {
      SplitIsPlain(s);
      SplitHasShape(s);
    } else if '[' !in host && ']' !in host && PlainPort(port) {
      if ':' !in host && s == host + [':'] + port {
        UnbracketedSplits(s, host, port);
      }
      if s == ['['] + (host + ([']'] + ([':'] + port))) {
        BracketedSplits(s, host, port);
      }
    }
  }

  // ---------- Numbers ----------

  function Magnitude(digits: string): nat
    requires forall c <- digits :: IsDigit(c)
  {
    if digits == "" then 0
    else
      assert digits[|digits| - 1] in digits;
      assert IsDigit(digits[|digits| - 1]);
      10 * Magnitude(digits[..|digits| - 1]) + Value(digits[|digits| - 1])
  }

  /** strconv.Atoi succeeds: an optional sign, digits, and a value that fits 64 bits. */
  predicate IsInt(s: string) {
    var signed := s != "" && (s[0] == '-' || s[0] == '+');
    var digits := if signed then s[1..] else s;
    && digits != "" && (forall c <- digits :: IsDigit(c))
    && Magnitude(digits) <= 0x7FFF_FFFF_FFFF_FFFF + if signed && s[0] == '-' then 1 else 0
  }

  function Zeros(k: nat): (s: string)
    ensures |s| == k && forall c <- s :: c == '0'
  {
    if k == 0 then "" else Zeros(k - 1) + ['0']
  }

  lemma {:induction false} MagnitudeOfZeros(k: nat)
    ensures Magnitude(Zeros(k)) == 0
  {
    if k > 0 {
      MagnitudeOfZeros(k - 1);
      assert Zeros(k)[..k - 1] == Zeros(k - 1);
    }
  }

  lemma {:induction false} MagnitudeOfPadded(k: nat, n: nat)
    ensures Magnitude(Zeros(k) + Decimal(n)) == n
  {
    var d := Zeros(k) + Decimal(n);
    if n >= 10 {
      MagnitudeOfPadded(k, n / 10);
      assert d[..|d| - 1] == Zeros(k) + Decimal(n / 10);
    } else {
      MagnitudeOfZeros(k);
      assert d[..|d| - 1] == Zeros(k);
    }
  }

  lemma PaddedStep(k: nat, e: string, c: char) returns (j: nat)
    requires e != "" && IsDigit(c) && forall x <- e + [c] :: IsDigit(x)
    requires (forall x <- e :: IsDigit(x)) && e == Zeros(k) + Decimal(Magnitude(e))
    ensures e + [c] == Zeros(j) + Decimal(10 * Magnitude(e) + Value(c))
  {
    var n := Magnitude(e);
    assert Digit(Value(c)) == c;
    if n == 0 {
      j := k + 1;
      assert e == Zeros(j);
    } else {
      j := k;
      var m := 10 * n + Value(c);
      assert m / 10 == n && m % 10 == Value(c);
      assert Decimal(m) == Decimal(n) + [c];
    }
  }

  lemma {:induction false} DigitsArePadded(d: string) returns (k: nat)
    requires d != "" && forall c <- d :: IsDigit(c)
    ensures d == Zeros(k) + Decimal(Magnitude(d))
    decreases |d|
  {
    var e, c := d[..|d| - 1], d[|d| - 1];
    assert c in d;
    assert d == e + [c] && Digit(Value(c)) == c;
    if e == "" {
      k := 0;
      assert Magnitude(d) == Value(c);
    } else {
      forall x | x in e ensures IsDigit(x) { assert x in d; }
      k := DigitsArePadded(e);
      k := PaddedStep(k, e, c);
    }
  }

  const MAX_INT: int := 0x7FFF_FFFF_FFFF_FFFF

  lemma SignedDigits(sign: string, d: string)
    requires (sign == "" || sign == "+" || sign == "-") && d != "" && forall c <- d :: IsDigit(c)
    ensures IsInt(sign + d) <==> Magnitude(d) <= MAX_INT + if sign == "-" then 1 else 0
  {
    assert IsDigit(d[0]) by { assert d[0] in d; }
    if sign == "" {
      assert sign + d == d;
    } else {
      assert (sign + d)[0] == sign[0] && (sign + d)[1..] == d;
    }
  }

  /** A sign or none, any number of zeros and a decimal number are accepted exactly when the number fits
      64 bits with that sign. */
  lemma IntExactlyWhen(sign: string, k: nat, n: nat)
    requires sign == "" || sign == "+" || sign == "-"
    ensures IsInt(sign + (Zeros(k) + Decimal(n))) <==> n <= MAX_INT + if sign == "-" then 1 else 0
  {
    MagnitudeOfPadded(k, n);
    SignedDigits(sign, Zeros(k) + Decimal(n));
  }

  /** And nothing else is. */
  lemma EveryIntIsPadded(s: string) returns (sign: string, k: nat, n: nat)
    requires IsInt(s)
    ensures (sign == "" || sign == "+" || sign == "-") && s == sign + (Zeros(k) + Decimal(n))
  {
    if s[0] == '-' || s[0] == '+' {
      sign, n := s[..1], Magnitude(s[1..]);
      k := DigitsArePadded(s[1..]);
      assert s == s[..1] + s[1..];
    } else {
      sign, n := "", Magnitude(s);
      k := DigitsArePadded(s);
      assert s == "" + s;
    }
  }

  // ---------- Paths ----------

  /** The parts of a path between slashes. */
  function Segments(p: string): (r: seq<string>)
    ensures r != [] && forall x <- r :: '/' !in x
    decreases |p|
  {
    var i := Find(p, '/');
    if i == |p| then [p] else [p[..i]] + Segments(p[i + 1..])
  }

  /** One part's effect: empty and "." parts vanish, ".." drops the part before it. */
  function Resolve(stack: seq<string>, part: string): seq<string> {
    if part == "" || part == "." then stack
    else if part == ".." then (if stack == [] then [] else stack[..|stack| - 1])
    else stack + [part]
  }

  function ResolveAll(stack: seq<string>, parts: seq<string>): seq<string>
    decreases |parts|
  {
    if parts == [] then stack else ResolveAll(Resolve(stack, parts[0]), parts[1..])
  }

  function Slashed(parts: seq<string>): string {
    if parts == [] then "" else "/" + parts[0] + Slashed(parts[1..])
  }

  /** filepath.Clean of an absolute path. */
  function Clean(p: string): string {
    var parts := ResolveAll([], Segments(p));
    if parts == [] then "/" else Slashed(parts)
  }

  predicate Proper(part: string) {
    part != "" && part != "." && part != ".." && '/' !in part
  }

  lemma {:induction false} ResolvedPartsAreProper(stack: seq<string>, parts: seq<string>)
    requires (forall x <- stack :: Proper(x)) && (forall x <- parts :: '/' !in x)
    ensures forall x <- ResolveAll(stack, parts) :: Proper(x)
    decreases |parts|
  {
    if parts != [] {
      assert parts[0] in parts;
      ResolvedPartsAreProper(Resolve(stack, parts[0]), parts[1..]);
    }
  }

  lemma {:induction false} ProperPartsStay(stack: seq<string>, parts: seq<string>)
    requires forall x <- parts :: Proper(x)
    ensures ResolveAll(stack, parts) == stack + parts
    decreases |parts|
  {
    if parts != [] {
      assert parts[0] in parts;
      ProperPartsStay(Resolve(stack, parts[0]), parts[1..]);
    }
  }

  lemma SegmentsOfPart(part: string, rest: string)
    requires '/' !in part && (rest == "" || rest[0] == '/')
    ensures Segments(part + rest) == [part] + Segments(rest)[1..]
  {
    var q := part + rest;
    if rest == "" {
      assert q == part;
    } else {
      assert q[..|part|] == part && q[|part| + 1..] == rest[1..];
      FindAt(q, '/', |part|);
      FindAt(rest, '/', 0);
    }
  }

  lemma SegmentsAfterSlash(q: string)
    ensures Segments("/" + q) == [""] + Segments(q)
  {
    var p := "/" + q;
    FindAt(p, '/', 0);
    assert p[..0] == "" && p[1..] == q;
  }

  lemma SlashedStartsWithSlash(parts: seq<string>)
    ensures Slashed(parts) == "" || Slashed(parts)[0] == '/'
  {}

  predicate Slashless(parts: seq<string>) {
    forall x <- parts :: '/' !in x
  }

  lemma SlashedStep(part: string, tail: seq<string>)
    ensures Slashed([part] + tail) == "/" + (part + Slashed(tail))
  {
    var parts := [part] + tail;
    assert parts[1..] == tail;
  }

  lemma {:induction false} SegmentsOfSlashed(parts: seq<string>)
    requires Slashless(parts)
    ensures Segments(Slashed(parts)) == [""] + parts
    decreases |parts|
  {
    if parts == [] {
      assert Find("", '/') == 0;
    } else {
      var part, tail := parts[0], parts[1..];
      assert parts == [part] + tail;
      assert part in parts && Slashless(tail);
      SegmentsOfSlashed(tail);
      SlashedStep(part, tail);
      SegmentsOfStep(part, tail);
    }
  }

  lemma SegmentsOfStep(part: string, tail: seq<string>)
    requires '/' !in part && Segments(Slashed(tail)) == [""] + tail
    ensures Segments("/" + (part + Slashed(tail))) == [""] + ([part] + tail)
  {
    var rest := Slashed(tail);
    SlashedStartsWithSlash(tail);
    SegmentsAfterSlash(part + rest);
    SegmentsOfPart(part, rest);
  }

  /** A cleaned path is absolute, and cleaning it again changes nothing. */
  lemma CleanTwice(p: string)
    ensures Clean(p) != "" && Clean(p)[0] == '/' && Clean(Clean(p)) == Clean(p)
  {
    var parts := ResolveAll([], Segments(p));
    ResolvedPartsAreProper([], Segments(p));
    if parts == [] {
      assert "/"[1..] == "" && Find("", '/') == 0;
      assert Segments("/") == ["", ""];
      ResolvesToNothing();
    } else {
      SegmentsOfSlashed(parts);
      assert ([""] + parts)[1..] == parts;
      assert ResolveAll([], [""] + parts) == ResolveAll([], parts);
      ProperPartsStay([], parts);
      assert [] + parts == parts;
    }
  }

  // What Clean does to a path, part by part: the four rules below and every path's being slashes and parts
  // leave it no freedom.

  /** Every absolute path is a slash before each of its parts. */
  lemma {:induction false} PartsOfAbsolute(q: string)
    ensures Slashless(Segments(q)) && "/" + q == Slashed(Segments(q))
    decreases |q|
  {
    var i := Find(q, '/');
    if i == |q| {
      assert Segments(q) == [q] && Segments(q)[1..] == [];
    } else {
      PartsOfAbsolute(q[i + 1..]);
      SlashedStep(q[..i], Segments(q[i + 1..]));
      assert q == q[..i] + ("/" + q[i + 1..]);
    }
  }

  lemma {:induction false} ResolveInTwo(stack: seq<string>, a: seq<string>, b: seq<string>)
    ensures ResolveAll(stack, a + b) == ResolveAll(ResolveAll(stack, a), b)
    decreases |a|
  {
    if a == [] {
      assert a + b == b;
    } else {
      assert (a + b)[1..] == a[1..] + b;
      ResolveInTwo(Resolve(stack, a[0]), a[1..], b);
    }
  }

  lemma CleanOfParts(parts: seq<string>)
    requires Slashless(parts)
    ensures Clean(Slashed(parts)) == var r := ResolveAll([], parts); if r == [] then "/" else Slashed(r)
  {
    SegmentsOfSlashed(parts);
    assert ([""] + parts)[1..] == parts;
  }

  /** Proper parts are kept, all of them and in their order. */
  lemma CleanKeepsProperParts(parts: seq<string>)
    requires parts != [] && forall x <- parts :: Proper(x)
    ensures Clean(Slashed(parts)) == Slashed(parts)
  {
    CleanOfParts(parts);
    ProperPartsStay([], parts);
    assert [] + parts == parts;
  }

  /** Parts x that leave the parts before them as they are can be left out. */
  lemma CleanWithout(a: seq<string>, x: seq<string>, b: seq<string>)
    requires Slashless(a) && Slashless(x) && Slashless(b)
    requires ResolveAll(ResolveAll([], a), x) == ResolveAll([], a)
    ensures Clean(Slashed(a + x + b)) == Clean(Slashed(a + b))
  {
    CleanOfParts(a + x + b);
    CleanOfParts(a + b);
    ResolveInTwo([], a + x, b);
    ResolveInTwo([], a, x);
    ResolveInTwo([], a, b);
  }

  lemma ResolvesInPlace(r: seq<string>, part: string)
    requires '/' !in part
    ensures part == "" || part == "." ==> ResolveAll(r, [part]) == r
    ensures Proper(part) ==> ResolveAll(r, [part, ".."]) == r
  {
    assert [part][1..] == [] && [part, ".."][1..] == [".."] && [".."][1..] == [];
    assert ResolveAll(r + [part], [".."]) == ResolveAll(r, []);
  }

  /** An empty or "." part changes nothing, wherever it is. */
  lemma CleanIgnoresDot(a: seq<string>, part: string, b: seq<string>)
    requires Slashless(a) && Slashless(b) && (part == "" || part == ".")
    ensures Clean(Slashed(a + [part] + b)) == Clean(Slashed(a + b))
  {
    ResolvesInPlace(ResolveAll([], a), part);
    CleanWithout(a, [part], b);
  }

  /** A proper part and a ".." after it cancel, wherever they are. */
  lemma CleanCancelsParent(a: seq<string>, part: string, b: seq<string>)
    requires Slashless(a) && Slashless(b) && Proper(part)
    ensures Clean(Slashed(a + [part, ".."] + b)) == Clean(Slashed(a + b))
  {
    ResolvesInPlace(ResolveAll([], a), part);
    CleanWithout(a, [part, ".."], b);
  }

  /** A ".." at the root changes nothing, and a path without parts is the root. */
  lemma CleanAtTheRoot(b: seq<string>)
    requires Slashless(b)
    ensures Clean(Slashed([".."] + b)) == Clean(Slashed(b))
    ensures Clean(Slashed([])) == "/"
  {
    CleanOfParts([".."] + b);
    CleanOfParts(b);
    CleanOfParts([]);
    assert ([".."] + b)[1..] == b;
  }

  lemma ResolvesToNothing()
    ensures ResolveAll([], ["", ""]) == []
  {
    assert ["", ""][1..] == [""];
    assert [""][1..] == [];
  }

  // ---------- Parsing ----------

  /** parseFor. */
  function ParseFor(raw: string, goos: string): Result<Endpoint> {
    var i := FindSeparator(raw);
    if i == |raw| then Err(NoScheme)
    else
      var scheme, rest := raw[..i], raw[i + 3..];
      if scheme == "tcp" then ParseTcp(rest)
      else if scheme == "unix" then
        if goos == "windows" then Err(UnixUnsupported)
        else if rest == "" then Err(EmptyPath)
        else if rest[0] != '/' then Err(RelativePath)
        else Ok(Endpoint("unix", Clean(rest)))
      else Err(UnknownScheme)
  }

  function ParseTcp(rest: string): Result<Endpoint> {
    match SplitHostPort(rest)
    case None => Err(NotHostPort)
    case Some(hp) =>
      if '/' in hp.port || '?' in hp.port || '#' in hp.port || hp.host == "" then Err(EmptyHost)
      else if !IsInt(hp.port) then Err(BadPort)
      else Ok(Endpoint("tcp", JoinHostPort(hp.host, hp.port)))
  }

  lemma PrintedFindsItsScheme(e: Endpoint)
    requires e.network == "tcp" || e.network == "unix"
    ensures var raw := e.String();
            var i := FindSeparator(raw);
            i == |e.network| < |raw| && raw[..i] == e.network && raw[i + 3..] == e.address
  {
    SeparatorAfterScheme(e.network, e.address);
  }

  /** Parsing undoes printing: every endpoint that any accepted string denotes is what its printed form
      denotes. */
  lemma ParseUndoesString(raw: string, goos: string)
    requires ParseFor(raw, goos).Ok?
    ensures ParseFor(ParseFor(raw, goos).value.String(), goos) == ParseFor(raw, goos)
  {
    var e := ParseFor(raw, goos).value;
    PrintedFindsItsScheme(e);
    var rest := raw[FindSeparator(raw) + 3..];
    if e.network == "tcp" {
      var hp := SplitHostPort(rest).value;
      SplitIsPlain(rest);
      SplitUndoesJoin(hp.host, hp.port);
    } else {
      CleanTwice(rest);
    }
  }

  lemma AfterTcp(rest: string, goos: string)
    ensures ParseFor("tcp" + SEPARATOR + rest, goos) == ParseTcp(rest)
  {
    var raw := "tcp" + SEPARATOR + rest;
    SeparatorAfterScheme("tcp", rest);
    assert raw[..3] == "tcp" && raw[6..] == rest;
  }

  lemma AfterUnix(p: string, goos: string)
    ensures ParseFor("unix" + SEPARATOR + p, goos).Ok? <==> goos != "windows" && p != "" && p[0] == '/'
    ensures ParseFor("unix" + SEPARATOR + p, goos).Ok? ==>
              ParseFor("unix" + SEPARATOR + p, goos).value == Endpoint("unix", Clean(p))
  {
    var raw := "unix" + SEPARATOR + p;
    SeparatorAfterScheme("unix", p);
    assert raw[..4] == "unix" && raw[7..] == p;
  }

  /** A path that is clean already is the address. */
  lemma UnixPathIsKept(parts: seq<string>, goos: string)
    requires goos != "windows" && parts != [] && forall x <- parts :: Proper(x)
    ensures ParseFor("unix" + SEPARATOR + Slashed(parts), goos) == Ok(Endpoint("unix", Slashed(parts)))
  {
    CleanKeepsProperParts(parts);
    AfterUnix(Slashed(parts), goos);
  }

  predicate HasScheme(raw: string, scheme: string) {
    |raw| >= |scheme| + 3 && raw == scheme + SEPARATOR + raw[|scheme| + 3..]
  }

  lemma SplitAtSeparator(raw: string, i: nat)
    requires i + 3 <= |raw| && raw[i..i + 3] == SEPARATOR
    ensures raw == raw[..i] + SEPARATOR + raw[i + 3..]
  {}

  /** Exactly these are accepted: tcp:// with a good host and port, and, except on Windows, unix:// with an
      absolute path. */
  lemma AcceptsExactlyWhen(raw: string, goos: string)
    ensures ParseFor(raw, goos).Ok? <==>
            || (HasScheme(raw, "tcp") && ParseTcp(raw[6..]).Ok?)
            || (HasScheme(raw, "unix") && goos != "windows" && raw[7..] != "" && raw[7..][0] == '/')
  {
    if ParseFor(raw, goos).Ok? {
      SplitAtSeparator(raw, FindSeparator(raw));
    }
    if HasScheme(raw, "tcp") {
      AfterTcp(raw[6..], goos);
    }
    if HasScheme(raw, "unix") {
      AfterUnix(raw[7..], goos);
    }
  }

  lemma PortHasOnlyDigits(port: string)
    requires IsInt(port)
    ensures '/' !in port && '?' !in port && '#' !in port
  {
    forall c | c in port ensures IsDigit(c) || c == '-' || c == '+' {
      var k :| 0 <= k < |port| && port[k] == c;
      if k > 0 {
        assert port[1..][k - 1] in port[1..];
      }
    }
  }

  /** After tcp:// exactly a host that is not empty and a port that is a number are accepted; that ports with
      "/", "?" or "#" are refused follows. */
  lemma TcpAcceptsExactlyWhen(rest: string)
    ensures ParseTcp(rest).Ok? <==>
            var hp := SplitHostPort(rest); hp.Some? && hp.value.host != "" && IsInt(hp.value.port)
    ensures ParseTcp(rest).Ok? ==>
            var hp := SplitHostPort(rest).value; ParseTcp(rest).value == Endpoint("tcp", JoinHostPort(hp.host, hp.port))
  {
    if SplitHostPort(rest).Some? && IsInt(SplitHostPort(rest).value.port) {
      PortHasOnlyDigits(SplitHostPort(rest).value.port);
    }
  }

  // ---------- TCP from a host and a port number ----------

  function Itoa(n: int): string {
    if n < 0 then "-" + Decimal(-n) else Decimal(n)
  }

  lemma {:induction false} MagnitudeOfDecimal(n: nat)
    ensures Magnitude(Decimal(n)) == n
  {
    if n >= 10 {
      MagnitudeOfDecimal(n / 10);
      assert Decimal(n)[..|Decimal(n)| - 1] == Decimal(n / 10);
    }
  }

  lemma ItoaIsInt(n: int)
    requires -0x8000_0000_0000_0000 <= n <= 0x7FFF_FFFF_FFFF_FFFF
    ensures IsInt(Itoa(n)) && PlainPort(Itoa(n)) && '/' !in Itoa(n) && '?' !in Itoa(n) && '#' !in Itoa(n)
  {
    var d := Decimal(if n < 0 then -n else n);
    MagnitudeOfDecimal(if n < 0 then -n else n);
    assert IsDigit(d[0]) by { assert d[0] in d; }
    if n < 0 {
      assert Itoa(n)[1..] == d;
    }
  }

  /** TCP, which joins a host and a port that were never parsed. */
  function Tcp(host: string, port: int): Endpoint {
    Endpoint("tcp", JoinHostPort(host, Itoa(port)))
  }

  lemma JoinHasBracketsOnlyAroundColons(host: string, port: string)
    requires PlainHost(host) && PlainPort(port)
    ensures '[' in JoinHostPort(host, port) <==> ':' in host
    ensures ']' in JoinHostPort(host, port) <==> ':' in host
  {
    if ':' in host {
      var s := JoinHostPort(host, port);
      assert s[0] == '[' && s[|host| + 1] == ']';
    }
  }

  /** An endpoint built that way prints to something that parses back to it exactly when the host is
      not empty and carries no brackets of its own. */
  lemma TcpReparsesExactlyWhenHostIsPlain(host: string, port: int, goos: string)
    requires -0x8000_0000_0000_0000 <= port <= 0x7FFF_FFFF_FFFF_FFFF
    ensures ParseFor(Tcp(host, port).String(), goos) == Ok(Tcp(host, port)) <==> PlainHost(host)
  {
    var e, p := Tcp(host, port), Itoa(port);
    ItoaIsInt(port);
    PrintedFindsItsScheme(e);
    if PlainHost(host) {
      SplitUndoesJoin(host, p);
    } else if ParseTcp(e.address) == Ok(e) {
      var hp := SplitHostPort(e.address).value;
      SplitIsPlain(e.address);
      JoinHasBracketsOnlyAroundColons(hp.host, hp.port);
      JoinIsInjective(host, p, hp.host, hp.port);
    }
  }

  lemma ShownIsInjective(h1: string, h2: string)
    requires PlainHost(h2) && Shown(h1) == Shown(h2)
    ensures h1 == h2
  {
    var s := Shown(h1);
    if ':' in h1 {
      assert s[0] == '[';
      assert ':' in h2;
      assert h1 == s[1..|s| - 1] == h2;
    }
  }

  lemma JoinIsInjective(h1: string, p1: string, h2: string, p2: string)
    requires PlainPort(p1) && PlainPort(p2) && PlainHost(h2)
    requires JoinHostPort(h1, p1) == JoinHostPort(h2, p2)
    ensures h1 == h2
  {
    var s := JoinHostPort(h1, p1);
    ColonPrecedesPort(s, Shown(h1), p1);
    ColonPrecedesPort(s, Shown(h2), p2);
    assert Shown(h1) == s[..|Shown(h1)|] == Shown(h2);
    ShownIsInjective(h1, h2);
  }
}
