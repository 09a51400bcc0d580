/** Text helpers used by the handlers: upper-casing of room codes for the
    case-insensitive join, the shape of generated codes, and `join("\n")` of
    the sentence log together with its inverse. */
module Text {

  /** `toUpperCase` on one character, for the ASCII letters only. */
  function UpperChar(c: char): char {
    if 'a' <= c <= 'z' then (c as int - 32) as char else c
  }

  predicate IsLowerLetter(c: char) {
    'a' <= c <= 'z'
  }

  /** `s.toUpperCase()` (ASCII letters only). */
  function Upper(s: string): (r: string)
    ensures |r| == |s|
    ensures forall i :: 0 <= i < |r| ==> !IsLowerLetter(r[i])
    ensures forall i :: 0 <= i < |r| ==> r[i] == s[i] || (IsLowerLetter(s[i]) && r[i] as int == s[i] as int - 32)
  {
    if |s| == 0 then "" else [UpperChar(s[0])] + Upper(s[1..])
  }

  /** A string with no lower-case letter is its own upper-case form. */
  lemma {:induction false} UpperFixesUpperCase(s: string)
    requires forall i :: 0 <= i < |s| ==> !IsLowerLetter(s[i])
    ensures Upper(s) == s
  {
    if |s| > 0 {
      UpperFixesUpperCase(s[1..]);
    }
  }

  /** The codes `createGame` generates: four letters 'A'..'Z'. */
  predicate IsCode(s: string) {
    |s| == 4 && forall i :: 0 <= i < |s| ==> 'A' <= s[i] <= 'Z'
  }

  /** `sentences.join("\n")`. */
  function JoinLines(lines: seq<string>): (r: string)
    ensures |lines| == 0 ==> r == ""
    ensures |lines| > 0 ==> |r| >= |lines[0]| && r[..|lines[0]|] == lines[0]
  {
    if |lines| == 0 then ""
    else if |lines| == 1 then lines[0]
    else lines[0] + "\n" + JoinLines(lines[1..])
  }

  predicate NoNewline(s: string) {
    forall i :: 0 <= i < |s| ==> s[i] != '\n'
  }

  /** The position of the first newline in `s`, or `|s|` when there is none. */
  function LineEnd(s: string): (n: nat)
    ensures n <= |s|
    ensures forall i :: 0 <= i < n ==> s[i] != '\n'
    ensures n < |s| ==> s[n] == '\n'
  {
    if |s| == 0 || s[0] == '\n' then 0 else 1 + LineEnd(s[1..])
  }

  /** Splits `s` at every newline; the inverse of `JoinLines`. */
  function SplitLines(s: string): (r: seq<string>)
    ensures |r| > 0
    decreases |s|
  {
    var n := LineEnd(s);
    if n == |s| then [s] else [s[..n]] + SplitLines(s[n + 1..])
  }

  /** The joined log keeps every sentence, in order: splitting it at the
      newlines gives the log back, provided no sentence holds a newline. */
  lemma {:induction false} SplitJoinLines(lines: seq<string>)
    requires |lines| > 0
    requires forall k :: 0 <= k < |lines| ==> NoNewline(lines[k])
    ensures SplitLines(JoinLines(lines)) == lines
  {
    var head := lines[0];
    if |lines| == 1 {
      assert LineEnd(head) == |head|;
    } else {
      var rest := JoinLines(lines[1..]);
      var s := head + "\n" + rest;
      assert s[|head|] == '\n';
      assert forall i :: 0 <= i < |head| ==> s[i] == head[i];
      LineEndAt(s, |head|);
      assert s[..|head|] == head;
      assert s[|head| + 1..] == rest;
      SplitJoinLines(lines[1..]);
    }
  }

  lemma LineEndAt(s: string, n: nat)
    requires n < |s| && s[n] == '\n'
    requires forall i :: 0 <= i < n ==> s[i] != '\n'
    ensures LineEnd(s) == n
  {
  }
}
