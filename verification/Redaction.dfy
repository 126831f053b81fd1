/** The daemon's log line: which arguments of a command are hidden (internal/daemon/server.go). */
module Redaction {
  import opened Text

  const HIDDEN := "[REDACTED]"

  predicate IsFlag(arg: string) {
    arg == "--password" || arg == "-p"
  }

  /** Length of the maximal run of consecutive flags ending just before position i. */
  function FlagsBefore(args: seq<string>, i: nat): (n: nat)
    requires i <= |args|
    ensures n <= i
    ensures forall k :: i - n <= k < i ==> IsFlag(args[k])
    ensures n < i ==> !IsFlag(args[i - n - 1])
  {
    if i == 0 || !IsFlag(args[i - 1]) then 0 else 1 + FlagsBefore(args, i - 1)
  }

  /** An argument is hidden when that run has odd length: each flag hides what follows it, unless the
      flag is itself hidden. */
  function Shown(args: seq<string>, i: nat): string
    requires i < |args|
  {
    if FlagsBefore(args, i) % 2 == 1 then HIDDEN else args[i]
  }

  function Join(parts: seq<string>, separator: string): string {
    if parts == [] then ""
    else if |parts| == 1 then parts[0]
    else parts[0] + separator + Join(parts[1..], separator)
  }

  /** One array slot per argument. */
  function ShownArgs(args: seq<string>): seq<string> {
    seq(|args|, i requires 0 <= i < |args| => Shown(args, i))
  }

  /** strings.Join over the slots. */
  function LogLine(args: seq<string>): string {
    Join(ShownArgs(args), " ")
  }

  predicate Hidden(args: seq<string>, i: nat)
    requires i <= |args|
  {
    FlagsBefore(args, i) % 2 == 1
  }

  lemma HiddenNext(args: seq<string>, i: nat)
    requires i < |args|
    ensures Hidden(args, i + 1) <==> IsFlag(args[i]) && !Hidden(args, i)
  {}

  lemma RevealIsNoFlag()
    ensures !IsFlag("--reveal")
  {
    assert "--reveal"[2] == 'r' && "--password"[2] == 'p';
  }

  /** sanitizeArgsForLog: a single pass with one flag of state. */
  method SanitizeArgsForLog(args: seq<string>) returns (line: string)
    ensures line == LogLine(args)
  {
    var sanitized := new string[|args|];
    var redactNext := false;
    var i := 0;
    while i < |args|
      invariant 0 <= i <= |args|
      invariant redactNext <==> Hidden(args, i)
      invariant forall k :: 0 <= k < i ==> sanitized[k] == Shown(args, k)
    {
      var arg := args[i];
      HiddenNext(args, i);
      RevealIsNoFlag();
      if redactNext {
        sanitized[i] := HIDDEN;
        redactNext := false;
      } else if arg == "--reveal" {
        sanitized[i] := arg;
      } else if arg == "--password" || arg == "-p" {
        sanitized[i] := arg;
        redactNext := true;
      } else {
        sanitized[i] := arg;
      }
      i := i + 1;
    }
    assert sanitized[..] == ShownArgs(args);
    line := Join(sanitized[..], " ");
  }

  /** Each flag hides what follows it, unless the flag is itself hidden as the value of another: the
      recurrence the single pass computes, and no other argument is changed. */
  lemma HiddenExactlyAfterAShownFlag(args: seq<string>, i: nat)
    requires i < |args|
    ensures Hidden(args, i) <==> i > 0 && (args[i - 1] == "--password" || args[i - 1] == "-p") && !Hidden(args, i - 1)
    ensures !Hidden(args, i) ==> Shown(args, i) == args[i]
  {
    if i > 0 {
      HiddenNext(args, i - 1);
    }
  }

  // ---------- What the line says, and what it does not ----------

  /** One slot for every argument: its own text, or the same mark for all hidden ones. */
  lemma SlotsExactly(args: seq<string>, i: nat)
    requires i < |args|
    ensures |ShownArgs(args)| == |args|
    ensures ShownArgs(args)[i] == if FlagsBefore(args, i) % 2 == 1 then "[REDACTED]" else args[i]
  {}

  /** Replacing a hidden argument, even by a flag, changes nothing about which others are hidden. */
  lemma {:induction false} HiddenIndependent(args: seq<string>, i: nat, v: string, k: nat)
    requires i < |args| && Hidden(args, i) && k <= |args|
    ensures Hidden(args[i := v], k) <==> Hidden(args, k)
  {
    if k > 0 {
      HiddenIndependent(args, i, v, k - 1);
      HiddenNext(args, k - 1);
      HiddenNext(args[i := v], k - 1);
    }
  }

  /** The log line does not depend on a hidden argument: whatever stood there, the line is the same. */
  lemma LineIndependentOfHidden(args: seq<string>, i: nat, v: string)
    requires i < |args| && Hidden(args, i)
    ensures LogLine(args[i := v]) == LogLine(args)
  {
    var other := args[i := v];
    forall k | 0 <= k < |args| ensures Shown(other, k) == Shown(args, k) {
      HiddenIndependent(args, i, v, k);
    }
    assert ShownArgs(other) == ShownArgs(args);
  }

  /** The line is the slots with a blank between any two: its first word is the first slot and what follows
      the blank is the line of the others. */
  lemma JoinTakesApart(parts: seq<string>)
    requires parts != [] && ' ' !in parts[0]
    ensures SplitFirst(Join(parts, " "), ' ')
         == if |parts| == 1 then Whole(parts[0]) else Two(parts[0], Join(parts[1..], " "))
  {
    if |parts| > 1 {
      SplitFirstAt(parts[0], ' ', Join(parts[1..], " "));
    }
  }
}
