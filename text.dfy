/** The few JavaScript string operations the dashboard relies on, over `seq<char>`.
    Case mapping is ASCII only (see README, "Left out"). */
module Text {
  import opened Wrappers

  /** `toLowerCase` on one character, restricted to ASCII letters. */
  function LowerChar(c: char): char {
    if 'A' <= c <= 'Z' then (c as int + 32) as char else c
  }

  /** `s.toLowerCase()`, character by character. */
  function Lower(s: string): (r: string)
    ensures |r| == |s|
    ensures forall i :: 0 <= i < |s| ==> r[i] == LowerChar(s[i])
  {
    seq(|s|, i requires 0 <= i < |s| => LowerChar(s[i]))
  }

  lemma LowerConcat(a: string, b: string)
    ensures Lower(a + b) == Lower(a) + Lower(b)
  {
    assert forall i :: 0 <= i < |a + b| ==> Lower(a + b)[i] == (Lower(a) + Lower(b))[i];
  }

  lemma LowerIdempotent(s: string)
    ensures Lower(Lower(s)) == Lower(s)
  {
    assert forall i :: 0 <= i < |s| ==> Lower(Lower(s))[i] == Lower(s)[i];
  }

  /** `t` occurs in `s` starting at index `i`. */
  predicate OccursAt(s: string, t: string, i: nat) {
    i + |t| <= |s| && s[i..i + |t|] == t
  }

  /** `s.includes(t)`; in particular every string includes the empty string. */
  predicate Contains(s: string, t: string) {
    exists i: nat :: i <= |s| && OccursAt(s, t, i)
  }

  /** A string that includes `t + u` also includes `t`. */
  lemma ContainsPrefix(s: string, t: string, u: string)
    requires Contains(s, t + u)
    ensures Contains(s, t)
  {
    var i: nat :| i <= |s| && OccursAt(s, t + u, i);
    assert s[i..i + |t|] == (t + u)[..|t|];
    assert OccursAt(s, t, i);
  }

  /** Index of the first occurrence of `t` in `s` at or after `i`. */
  function IndexFrom(s: string, t: string, i: nat): (r: Option<nat>)
    decreases |s| - i
    ensures r.Some? ==> i <= r.value && OccursAt(s, t, r.value)
    ensures r.Some? ==> forall j: nat :: i <= j < r.value ==> !OccursAt(s, t, j)
    ensures r.None? ==> forall j: nat :: i <= j ==> !OccursAt(s, t, j)
  {
    if i + |t| > |s| then None
    else if s[i..i + |t|] == t then Some(i)
    else IndexFrom(s, t, i + 1)
  }

  /** `s.indexOf(t)`, with "not found" as `None`. */
  function IndexOf(s: string, t: string): (r: Option<nat>)
    ensures r.Some? <==> Contains(s, t)
    ensures r.Some? ==> OccursAt(s, t, r.value) && forall j: nat :: j < r.value ==> !OccursAt(s, t, j)
  {
    IndexFrom(s, t, 0)
  }

  /** `s.replace(t, rep)` with a string pattern: only the first occurrence is replaced. */
  function ReplaceFirst(s: string, t: string, rep: string): (r: string)
    ensures !Contains(s, t) ==> r == s
    ensures Contains(s, t) ==> |r| == |s| - |t| + |rep|
    ensures forall i: nat :: OccursAt(s, t, i) && (forall j: nat :: j < i ==> !OccursAt(s, t, j)) ==>
      r == s[..i] + rep + s[i + |t|..]
  {
    match IndexOf(s, t)
    case None => s
    case Some(k) =>
      assert forall i: nat :: OccursAt(s, t, i) && (forall j: nat :: j < i ==> !OccursAt(s, t, j)) ==> i == k;
      s[..k] + rep + s[k + |t|..]
  }

  /** Removing the first `t` from `s + t` gives back `s` when `s` holds no character that
      could start an occurrence of `t`. */
  lemma ReplaceFirstStripsSuffix(s: string, t: string)
    requires t != [] && t[0] !in s
    ensures ReplaceFirst(s + t, t, []) == s
  {
    var u := s + t;
    assert OccursAt(u, t, |s|) by { assert u[|s|..|s| + |t|] == t; }
    var k := IndexOf(u, t).value;
    assert k == |s|;
    assert u[..k] == s && u[k + |t|..] == [];
  }

  /** `s.split(c)[0]`: the part of `s` before the first `c`, or all of `s`. */
  function BeforeFirst(s: string, c: char): (r: string)
    ensures r <= s && c !in r
    ensures |r| < |s| ==> s[|r|] == c
  {
    if s == [] || s[0] == c then [] else [s[0]] + BeforeFirst(s[1..], c)
  }

  /** Splitting `a + [c] + b` at the first `c` recovers `a` when `a` holds no `c`. */
  lemma BeforeFirstOfJoined(a: string, c: char, b: string)
    requires c !in a
    ensures BeforeFirst(a + [c] + b, c) == a
  {
    var s := a + [c] + b;
    var r := BeforeFirst(s, c);
    assert s[|a|] == c;
    assert forall i :: 0 <= i < |a| ==> s[i] == a[i] && s[i] != c;
    assert r == s[..|r|];
    assert s[..|a|] == a;
  }

  /** `parts.join(sep)`. */
  function Join(parts: seq<string>, sep: string): (r: string)
    ensures |parts| == 1 ==> r == parts[0]
  {
    if |parts| == 0 then []
    else if |parts| == 1 then parts[0]
    else parts[0] + sep + Join(parts[1..], sep)
  }

  /** `s.split(c)`: the pieces of `s` between occurrences of `c`; there is always at least one. */
  function Split(s: string, c: char): (r: seq<string>)
    decreases |s|
    ensures |r| >= 1 && r[0] == BeforeFirst(s, c)
    ensures forall i :: 0 <= i < |r| ==> c !in r[i]
  {
    var head := BeforeFirst(s, c);
    if |head| == |s| then [s]
    else [head] + Split(s[|head| + 1..], c)
  }

  /** Splitting a joined string at its one-character separator gives back the parts, as long
      as no part holds the separator. */
  lemma {:induction false} SplitJoin(parts: seq<string>, c: char)
    requires |parts| >= 1
    requires forall i :: 0 <= i < |parts| ==> c !in parts[i]
    ensures Split(Join(parts, [c]), c) == parts
  {
    var s := Join(parts, [c]);
    if |parts| == 1 {
      var head := BeforeFirst(s, c);
      assert head == s;
    } else {
      var rest := Join(parts[1..], [c]);
      assert s == parts[0] + [c] + rest;
      SplitOfJoined(parts[0], c, rest);
      SplitJoin(parts[1..], c);
      assert parts == [parts[0]] + parts[1..];
    }
  }

  /** Splitting `a + [c] + b` yields `a`, then the pieces of `b`. */
  lemma SplitOfJoined(a: string, c: char, b: string)
    requires c !in a
    ensures Split(a + [c] + b, c) == [a] + Split(b, c)
  {
    var s := a + [c] + b;
    BeforeFirstOfJoined(a, c, b);
    assert s[|a| + 1..] == b;
  }

  /** Every character of a joined string comes from the separator or from one of the parts. */
  lemma {:induction false} JoinChars(parts: seq<string>, sep: string, c: char)
    requires c in Join(parts, sep)
    ensures c in sep || exists i :: 0 <= i < |parts| && c in parts[i]
  {
    if |parts| > 1 {
      var rest := Join(parts[1..], sep);
      assert Join(parts, sep) == parts[0] + sep + rest;
      if c !in parts[0] && c !in sep {
        JoinChars(parts[1..], sep, c);
        var i :| 0 <= i < |parts[1..]| && c in parts[1..][i];
        assert c in parts[i + 1];
      }
    }
  }
}
