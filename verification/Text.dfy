/** Whitespace and line breaks, as Python's str methods know them. */
module Text {

  predicate IsSpace(c: char) {
    || '\U{9}' <= c <= '\U{d}' || '\U{1c}' <= c <= ' '
    || c == '\U{85}' || c == '\U{a0}' || c == '\U{1680}' || '\U{2000}' <= c <= '\U{200a}'
    || c == '\U{2028}' || c == '\U{2029}' || c == '\U{202f}' || c == '\U{205f}' || c == '\U{3000}'
  }

  /** What str.splitlines() breaks at. */
  predicate IsBreak(c: char) {
    || '\U{a}' <= c <= '\U{d}' || '\U{1c}' <= c <= '\U{1e}'
    || c == '\U{85}' || c == '\U{2028}' || c == '\U{2029}'
  }

  function StripLeft(s: string): (r: string) {
    if s != "" && IsSpace(s[0]) then StripLeft(s[1..]) else s
  }

  function StripRight(s: string): (r: string) {
    if s != "" && IsSpace(s[|s| - 1]) then StripRight(s[..|s| - 1]) else s
  }

  function Strip(s: string): (r: string) { StripRight(StripLeft(s)) }

  /** str.lower() on ASCII text. */
  function LowerChar(c: char): (r: char) {
    if 'A' <= c <= 'Z' then (c as int + 32) as char else c
  }

  function Lower(s: string): (r: string) {
    seq(|s|, i requires 0 <= i < |s| => LowerChar(s[i]))
  }

  predicate StartsWith(s: string, prefix: string) { |prefix| <= |s| && s[..|prefix|] == prefix }

  predicate Trimmed(s: string) { s == "" || (!IsSpace(s[0]) && !IsSpace(s[|s| - 1])) }

  lemma NothingToStrip(s: string)
    requires Trimmed(s)
    ensures Strip(s) == s
  {
  }

  lemma {:induction false} StripLeftStarts(s: string)
    ensures StripLeft(s) != "" ==> !IsSpace(StripLeft(s)[0])
  {
    if s != "" && IsSpace(s[0]) { StripLeftStarts(s[1..]); }
  }

  lemma {:induction false} StripRightEnds(s: string)
    ensures StripRight(s) != "" ==> !IsSpace(StripRight(s)[|StripRight(s)| - 1]) && StripRight(s)[0] == s[0]
    ensures StripRight(s) != "" ==> s != ""
  {
    if s != "" && IsSpace(s[|s| - 1]) { StripRightEnds(s[..|s| - 1]); }
  }

  lemma StripTrims(s: string)
    ensures Trimmed(Strip(s))
  {
    StripLeftStarts(s);
    StripRightEnds(StripLeft(s));
  }

  predicate AllSpace(s: string) { forall i :: 0 <= i < |s| ==> IsSpace(s[i]) }

  lemma {:induction false} StripLeftOf(a: string, s: string)
    requires AllSpace(a) && (s == "" || !IsSpace(s[0]))
    ensures StripLeft(a + s) == s
  {
    if a == "" {
      assert a + s == s;
    } else {
      assert (a + s)[1..] == a[1..] + s;
      StripLeftOf(a[1..], s);
    }
  }

  lemma {:induction false} StripRightOf(s: string, b: string)
    requires AllSpace(b) && (s == "" || !IsSpace(s[|s| - 1]))
    ensures StripRight(s + b) == s
  {
    if b == "" {
      assert s + b == s;
    } else {
      assert (s + b)[..|s + b| - 1] == s + b[..|b| - 1];
      StripRightOf(s, b[..|b| - 1]);
    }
  }

  /** Stripping takes off the spaces around a text and nothing else. */
  lemma StripIsExact(a: string, s: string, b: string)
    requires AllSpace(a) && AllSpace(b) && s != "" && Trimmed(s)
    ensures Strip(a + s + b) == s
  {
    assert a + s + b == a + (s + b);
    StripLeftOf(a, s + b);
    StripRightOf(s, b);
  }

  /** Of ASCII, what counts as space and what breaks a line. */
  lemma AsciiSpaces(c: char)
    requires c < '\U{80}'
    ensures IsSpace(c) <==> c in " \t\n\r\U{b}\U{c}\U{1c}\U{1d}\U{1e}\U{1f}"
    ensures IsBreak(c) <==> c in "\n\r\U{b}\U{c}\U{1c}\U{1d}\U{1e}"
  {
    var spaces, breaks := " \t\n\r\U{b}\U{c}\U{1c}\U{1d}\U{1e}\U{1f}", "\n\r\U{b}\U{c}\U{1c}\U{1d}\U{1e}";
    assert |spaces| == 10 && |breaks| == 7;
    var n := c as int;
    if IsSpace(c) {
      assert n == 32 || 9 <= n <= 13 || 28 <= n <= 31;
      var k := if n == 32 then 0 else if n == 9 then 1 else if n == 10 then 2 else if n == 13 then 3 else if n == 11 then 4
        else if n == 12 then 5 else n - 22;
      assert spaces[k] == c;
    }
    if IsBreak(c) {
      var k := if n == 10 then 0 else if n == 13 then 1 else if n == 11 then 2 else if n == 12 then 3 else n - 24;
      assert breaks[k] == c;
    }
  }

  /** Only the 26 capitals change, each to its small letter. */
  lemma LowerLetters(s: string, i: nat)
    requires i < |s|
    ensures |Lower(s)| == |s|
    ensures forall k :: 0 <= k < 26 && s[i] == "ABCDEFGHIJKLMNOPQRSTUVWXYZ"[k] ==> Lower(s)[i] == "abcdefghijklmnopqrstuvwxyz"[k]
    ensures s[i] !in "ABCDEFGHIJKLMNOPQRSTUVWXYZ" ==> Lower(s)[i] == s[i]
  {
    var upper, lower := "ABCDEFGHIJKLMNOPQRSTUVWXYZ", "abcdefghijklmnopqrstuvwxyz";
    if 'A' <= s[i] <= 'Z' { assert upper[s[i] as int - 65] == s[i]; }
  }
}
