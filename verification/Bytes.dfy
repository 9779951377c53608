/**
 Byte strings and the few library functions on them that the program calls.
 A byte is a `char`; all the grammars of the program are ASCII.
 */
module Bytes {

  type Bytes = string

  const LF: char := '\n'
  const CR: char := '\r'

  predicate IsDigit(c: char) { '0' <= c <= '9' }

  /** `\s` in a Go regular expression: tab, line feed, form feed, carriage return, space. */
  predicate IsPatternSpace(c: char) {
    c == '\t' || c == '\n' || c == '\U{0C}' || c == '\r' || c == ' '
  }

  /** White space for `bytes.TrimSpace`, which also counts the vertical tab. */
  predicate IsTrimSpace(c: char) { IsPatternSpace(c) || c == '\U{0B}' }

  predicate AllDigits(s: Bytes) { forall i | 0 <= i < |s| :: IsDigit(s[i]) }

  function TrimLeft(s: Bytes): (r: Bytes) {
    if s != "" && IsTrimSpace(s[0]) then TrimLeft(s[1..]) else s
  }

  function TrimRight(s: Bytes): (r: Bytes) {
    if s != "" && IsTrimSpace(s[|s| - 1]) then TrimRight(s[..|s| - 1]) else s
  }

  function TrimSpace(s: Bytes): Bytes { TrimRight(TrimLeft(s)) }

  /** Nothing to trim on either side. */
  predicate Tight(s: Bytes) { s != "" ==> !IsTrimSpace(s[0]) && !IsTrimSpace(s[|s| - 1]) }

  lemma TrimTight(s: Bytes)
    requires Tight(s)
    ensures TrimSpace(s) == s
  {
  }

  lemma {:induction false} TrimRightOf(s: Bytes, tail: Bytes)
    requires forall i | 0 <= i < |tail| :: IsTrimSpace(tail[i])
    ensures TrimRight(s + tail) == TrimRight(s)
  {
    if tail == "" {
      assert s + tail == s;
    } else {
      var t := s + tail;
      assert t[|t| - 1] == tail[|tail| - 1];
      assert t[..|t| - 1] == s + tail[..|tail| - 1];
      TrimRightOf(s, tail[..|tail| - 1]);
    }
  }

  /** `TrimRight` removes a suffix of white space and leaves no more of it. */
  lemma {:induction false} TrimRightShape(s: Bytes) returns (n: nat)
    ensures n <= |s| && TrimRight(s) == s[..n]
    ensures forall i | n <= i < |s| :: IsTrimSpace(s[i])
    ensures n > 0 ==> !IsTrimSpace(s[n - 1])
  {
    if s != "" && IsTrimSpace(s[|s| - 1]) {
      n := TrimRightShape(s[..|s| - 1]);
      assert s[..|s| - 1][..n] == s[..n];
    } else {
      n := |s|;
      assert s[..n] == s;
    }
  }

  lemma {:induction false} TrimLeftShape(s: Bytes) returns (n: nat)
    ensures n <= |s| && TrimLeft(s) == s[n..]
    ensures forall i | 0 <= i < n :: IsTrimSpace(s[i])
    ensures n < |s| ==> !IsTrimSpace(s[n])
  {
    if s != "" && IsTrimSpace(s[0]) {
      var m := TrimLeftShape(s[1..]);
      n := m + 1;
      assert s[1..][m..] == s[n..];
      forall i | 0 <= i < n ensures IsTrimSpace(s[i]) {
        if i > 0 { assert s[i] == s[1..][i - 1]; }
      }
    } else {
      n := 0;
    }
  }

  /** Trimming is idempotent: its result is tight. */
  lemma TrimSpaceTight(s: Bytes)
    ensures Tight(TrimSpace(s))
  {
    var n := TrimLeftShape(s);
    var t := TrimLeft(s);
    var m := TrimRightShape(t);
  }

  /** What is trimmed is white space on either side, and nothing else. */
  lemma TrimSpaceOf(s: Bytes) returns (before: Bytes, after: Bytes)
    ensures s == before + TrimSpace(s) + after
    ensures forall i | 0 <= i < |before| :: IsTrimSpace(before[i])
    ensures forall i | 0 <= i < |after| :: IsTrimSpace(after[i])
  {
    var n := TrimLeftShape(s);
    var t := TrimLeft(s);
    var m := TrimRightShape(t);
    before, after := s[..n], t[m..];
    assert s == before + t && t == t[..m] + after;
  }
}
