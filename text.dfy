/** String helpers standing in for the JavaScript string operations the
    application uses: `trim`, `toLowerCase`, `includes`, `startsWith`,
    `substring(0, n)`, `split(/\s+/)` and `replace(/\s+/g, …)`. */
module Text {

  /** The characters JavaScript's `\s` and `trim` treat as white space
      (WhiteSpace and LineTerminator). */
  predicate IsSpace(c: char) {
    c == '\t' || c == '\n' || c == '\U{000B}' || c == '\U{000C}' || c == '\r' || c == ' '
    || c == '\U{00A0}' || c == '\U{1680}' || ('\U{2000}' <= c <= '\U{200A}')
    || c == '\U{2028}' || c == '\U{2029}' || c == '\U{202F}' || c == '\U{205F}'
    || c == '\U{3000}' || c == '\U{FEFF}'
  }

  /** `!s || s.trim() === ""`: empty, or white space only. */
  predicate IsBlank(s: string) {
    forall i :: 0 <= i < |s| ==> IsSpace(s[i])
  }

  /** `toLowerCase` on one character: ASCII and Latin-1 capitals (the
      letters Portuguese text uses); every other character is kept. */
  function LowerChar(c: char): (r: char)
    ensures 'A' <= c <= 'Z' ==> r as int == c as int + 32
    ensures !('A' <= c <= 'Z') && !('\U{00C0}' <= c <= '\U{00DE}') ==> r == c
  {
    if 'A' <= c <= 'Z' then (c as int + 32) as char
    else if '\U{00C0}' <= c <= '\U{00DE}' && c != '\U{00D7}' then (c as int + 32) as char
    else c
  }

  function Lower(s: string): (r: string)
    ensures |r| == |s|
    ensures forall i :: 0 <= i < |s| ==> r[i] == LowerChar(s[i])
  {
    seq(|s|, i requires 0 <= i < |s| => LowerChar(s[i]))
  }

  /** Lower-casing twice is lower-casing once. */
  lemma LowerTwice(s: string)
    ensures Lower(Lower(s)) == Lower(s)
  {
    assert forall i :: 0 <= i < |s| ==> LowerChar(LowerChar(s[i])) == LowerChar(s[i]);
  }

  /** `t` occurs in `s` starting at index `i`. */
  predicate OccursAt(s: string, t: string, i: int) {
    0 <= i && i + |t| <= |s| && s[i..i + |t|] == t
  }

  /** `s.includes(t)`. */
  predicate Contains(s: string, t: string) {
    exists i | 0 <= i <= |s| - |t| :: OccursAt(s, t, i)
  }

  lemma ContainsEmpty(s: string)
    ensures Contains(s, "")
  {
    assert OccursAt(s, "", 0);
  }

  lemma ContainsSelf(s: string)
    ensures Contains(s, s)
  {
    assert OccursAt(s, s, 0);
  }

  /** Text found in a middle part is found in the whole. */
  lemma ContainsInfix(a: string, b: string, c: string, t: string)
    requires Contains(b, t)
    ensures Contains(a + b + c, t)
  {
    var i :| 0 <= i <= |b| - |t| && OccursAt(b, t, i);
    assert (a + b + c)[|a| + i..|a| + i + |t|] == b[i..i + |t|];
    assert OccursAt(a + b + c, t, |a| + i);
  }

  /** `s.startsWith(p)`. */
  predicate StartsWith(s: string, p: string) {
    |p| <= |s| && s[..|p|] == p
  }

  lemma StartsWithAppend(p: string, s: string)
    ensures StartsWith(p + s, p)
  {
    assert (p + s)[..|p|] == p;
  }

  /** `s.substring(0, n)` for `n >= 0`. */
  function Prefix(s: string, n: nat): (r: string)
    ensures |r| == if n < |s| then n else |s|
    ensures StartsWith(s, r)
  {
    if n < |s| then s[..n] else s
  }

  /** Number of maximal runs of white space in `s`. */
  function SpaceRuns(s: string): nat
  {
    if |s| == 0 then 0
    else SpaceRuns(s[..|s| - 1])
         + (if IsSpace(s[|s| - 1]) && (|s| == 1 || !IsSpace(s[|s| - 2])) then 1 else 0)
  }

  /** `s.split(/\s+/).length`: every maximal run of white space separates
      two (possibly empty) pieces. */
  function WordCount(s: string): (r: nat)
    ensures r >= 1
  {
    1 + SpaceRuns(s)
  }

  lemma {:induction false} SpaceRunsBound(s: string)
    ensures SpaceRuns(s) <= |s|
  {
    if |s| > 0 {
      SpaceRunsBound(s[..|s| - 1]);
    }
  }

  /** Drops the white space at the front of `s`. */
  function DropSpaces(s: string): (r: string)
    ensures |r| <= |s|
    ensures r == [] || !IsSpace(r[0])
    ensures r == s[|s| - |r|..]
  {
    if |s| > 0 && IsSpace(s[0]) then DropSpaces(s[1..]) else s
  }

  /** `s.replace(/\s+/g, rep)`. */
  function ReplaceSpaceRuns(s: string, rep: string): string
    decreases |s|
  {
    if |s| == 0 then ""
    else if IsSpace(s[0]) then rep + ReplaceSpaceRuns(DropSpaces(s), rep)
    else [s[0]] + ReplaceSpaceRuns(s[1..], rep)
  }

  /** Replacing the white-space runs by a separator without white space
      leaves no white space at all. */
  lemma {:induction false} ReplaceSpaceRunsNoSpace(s: string, rep: string)
    requires forall i :: 0 <= i < |rep| ==> !IsSpace(rep[i])
    ensures forall i :: 0 <= i < |ReplaceSpaceRuns(s, rep)| ==> !IsSpace(ReplaceSpaceRuns(s, rep)[i])
    decreases |s|
  {
    if |s| == 0 {
    } else if IsSpace(s[0]) {
      ReplaceSpaceRunsNoSpace(DropSpaces(s), rep);
    } else {
      ReplaceSpaceRunsNoSpace(s[1..], rep);
    }
  }

  /** A text without white space is left as it is. */
  lemma {:induction false} ReplaceSpaceRunsIdentity(s: string, rep: string)
    requires forall i :: 0 <= i < |s| ==> !IsSpace(s[i])
    ensures ReplaceSpaceRuns(s, rep) == s
    decreases |s|
  {
    if |s| > 0 {
      ReplaceSpaceRunsIdentity(s[1..], rep);
    }
  }

  /** `parts.join(sep)`. */
  function Join(parts: seq<string>, sep: string): (r: string)
    ensures forall k :: 0 <= k < |parts| ==> Contains(r, parts[k])
  {
    if |parts| == 0 then ""
    else if |parts| == 1 then
      ContainsSelf(parts[0]);
      parts[0]
    else
      var rest := Join(parts[1..], sep);
      ContainsSelf(parts[0]);
      ContainsInfix([], parts[0], sep + rest, parts[0]);
      assert [] + parts[0] + (sep + rest) == parts[0] + sep + rest;
      forall k | 1 <= k < |parts|
        ensures Contains(parts[0] + sep + rest, parts[k])
      {
        assert parts[1..][k - 1] == parts[k];
        ContainsInfix(parts[0] + sep, rest, [], parts[k]);
        assert parts[0] + sep + rest + [] == parts[0] + sep + rest;
      }
      parts[0] + sep + rest
  }
}
