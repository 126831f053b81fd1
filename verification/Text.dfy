/** The string operations of Go's strings package that op-forward relies on. */
module Text {

  /** Position of the first c in s, or |s| when there is none (strings.IndexByte). */
  function Find(s: string, c: char): (i: nat)
    ensures i <= |s| && (i < |s| ==> s[i] == c)
    ensures forall j :: 0 <= j < i ==> s[j] != c
  {
    if s == "" || s[0] == c then 0 else 1 + Find(s[1..], c)
  }

  /** Position of the last c in s, or |s| when there is none (strings.LastIndexByte). */
  function FindLast(s: string, c: char): (i: nat)
    ensures i <= |s| && (i < |s| ==> s[i] == c)
    ensures i < |s| ==> forall j :: i < j < |s| ==> s[j] != c
    ensures i == |s| ==> c !in s
  {
    if s == "" then 0
    else if s[|s| - 1] == c then |s| - 1
    else
      var i := FindLast(s[..|s| - 1], c);
      if i == |s| - 1 then |s| else i
  }

  lemma FindAt(s: string, c: char, i: nat)
    requires i < |s| && s[i] == c && c !in s[..i]
    ensures Find(s, c) == i
  {
    assert forall j :: 0 <= j < i ==> s[j] == s[..i][j];
  }

  lemma FindLastAt(s: string, c: char, i: nat)
    requires i < |s| && s[i] == c && c !in s[i + 1..]
    ensures FindLast(s, c) == i
  {
    assert forall j :: i < j < |s| ==> s[j] == s[i + 1..][j - i - 1];
  }

  /** unicode.IsSpace. */
  predicate IsSpace(c: char) {
    '\t' <= c <= '\r' || c == ' ' || c == '\U{85}' || c == '\U{A0}' || c == '\U{1680}'
    || '\U{2000}' <= c <= '\U{200A}' || c == '\U{2028}' || c == '\U{2029}' || c == '\U{202F}'
    || c == '\U{205F}' || c == '\U{3000}'
  }

  function TrimLeft(s: string): (t: string)
    ensures t != "" ==> !IsSpace(t[0])
    ensures |t| <= |s| && t == s[|s| - |t|..]
  {
    if s != "" && IsSpace(s[0]) then TrimLeft(s[1..]) else s
  }

  function TrimRight(s: string): (t: string)
    ensures t != "" ==> !IsSpace(t[|t| - 1])
    ensures |t| <= |s| && t == s[..|t|]
  {
    if s != "" && IsSpace(s[|s| - 1]) then TrimRight(s[..|s| - 1]) else s
  }

  function TrimSpace(s: string): (t: string)
    ensures t != "" ==> !IsSpace(t[0]) && !IsSpace(t[|t| - 1])
  {
    TrimRight(TrimLeft(s))
  }

  /** Trimming stops at the first character from either end that is not white space. */
  lemma TrimKeepsBody(lead: string, body: string, tail: string)
    requires body != "" && !IsSpace(body[0]) && !IsSpace(body[|body| - 1])
    requires (forall c <- lead :: IsSpace(c)) && (forall c <- tail :: IsSpace(c))
    ensures TrimSpace(lead + (body + tail)) == body
  {
    TrimLeftDrops(lead, body + tail);
    TrimRightDrops(body, tail);
  }

  lemma {:induction false} TrimLeftDrops(lead: string, body: string)
    requires body != "" && !IsSpace(body[0])
    requires forall c <- lead :: IsSpace(c)
    ensures TrimLeft(lead + body) == body
  {
    if lead == "" {
      assert lead + body == body;
    } else {
      assert lead[0] in lead && (lead + body)[1..] == lead[1..] + body;
      forall c | c in lead[1..] ensures IsSpace(c) { assert c in lead; }
      TrimLeftDrops(lead[1..], body);
    }
  }

  lemma {:induction false} TrimRightDrops(body: string, tail: string)
    requires body != "" && !IsSpace(body[|body| - 1])
    requires forall c <- tail :: IsSpace(c)
    ensures TrimRight(body + tail) == body
  {
    if tail == "" {
      assert body + tail == body;
    } else {
      assert (body + tail)[..|body + tail| - 1] == body + tail[..|tail| - 1];
      assert tail[|tail| - 1] in tail;
      forall c | c in tail[..|tail| - 1] ensures IsSpace(c) { assert c in tail; }
      TrimRightDrops(body, tail[..|tail| - 1]);
    }
  }

  /** strings.SplitN(s, c, 2): everything before the first c, and everything after it. */
  datatype Split = Whole(s: string) | Two(head: string, tail: string)

  function SplitFirst(s: string, c: char): Split {
    var i := Find(s, c);
    if i == |s| then Whole(s) else Two(s[..i], s[i + 1..])
  }

  lemma SplitFirstAt(head: string, c: char, tail: string)
    requires c !in head
    ensures SplitFirst(head + [c] + tail, c) == Two(head, tail)
  {
    var s := head + [c] + tail;
    assert s[..|head|] == head && s[|head| + 1..] == tail;
    FindAt(s, c, |head|);
  }

  predicate HasPrefix(s: string, p: string) {
    |p| <= |s| && s[..|p|] == p
  }

  // ---------- Digits ----------

  predicate IsDigit(c: char) {
    '0' <= c <= '9'
  }

  function Digit(n: nat): (c: char)
    requires n < 10
    ensures IsDigit(c) && Value(c) == n
  {
    (n + '0' as int) as char
  }

  function Value(c: char): int {
    c as int - '0' as int
  }

  function Decimal(n: nat): (s: string)
    ensures forall c <- s :: IsDigit(c)
    ensures |s| >= 1
  {
    if n < 10 then [Digit(n)] else Decimal(n / 10) + [Digit(n % 10)]
  }
}
