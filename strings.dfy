/** The parts of Go's strings package that the server relies on: trimming
    a cut character from both ends (strings.Trim), substring search
    (strings.Contains) and the comma-joined text that a JSON array of
    documents consists of. */
module Strings {

  predicate IsDigit(ch: char) {
    '0' <= ch <= '9'
  }

  predicate StartsWith(s: string, prefix: string) {
    |prefix| <= |s| && s[..|prefix|] == prefix
  }

  /** n copies of the character c. */
  function Repeat(c: char, n: nat): (r: string)
    ensures |r| == n
    ensures forall i :: 0 <= i < n ==> r[i] == c
  {
    if n == 0 then "" else [c] + Repeat(c, n - 1)
  }

  /** strings.TrimLeft(s, string(c)): the longest suffix of s that does not
      start with c; every character cut off is c. */
  function TrimLeft(s: string, c: char): (r: string)
    ensures |r| <= |s| && r == s[|s| - |r|..]
    ensures r == [] || r[0] != c
    ensures forall i :: 0 <= i < |s| - |r| ==> s[i] == c
  {
    if s != [] && s[0] == c then TrimLeft(s[1..], c) else s
  }

  /** strings.TrimRight(s, string(c)): the longest prefix of s that does not
      end with c; every character cut off is c. */
  function TrimRight(s: string, c: char): (r: string)
    ensures |r| <= |s| && r == s[..|r|]
    ensures r == [] || r[|r| - 1] != c
    ensures forall i :: |r| <= i < |s| ==> s[i] == c
  {
    if s != [] && s[|s| - 1] == c then TrimRight(s[..|s| - 1], c) else s
  }

  /** strings.Trim(s, string(c)): c removed from both ends. */
  function Trim(s: string, c: char): string {
    TrimRight(TrimLeft(s, c), c)
  }

  /** TrimLeft cuts exactly a leading run of c. */
  lemma {:induction false} TrimLeftPadded(c: char, k: nat, u: string)
    requires u == [] || u[0] != c
    ensures TrimLeft(Repeat(c, k) + u, c) == u
  {
    if k > 0 {
      var s := Repeat(c, k) + u;
      var rest := Repeat(c, k - 1) + u;
      assert s == [c] + rest;
      assert s[0] == c && s[1..] == rest;
      assert TrimLeft(s, c) == TrimLeft(rest, c);
      TrimLeftPadded(c, k - 1, u);
    } else {
      assert Repeat(c, k) + u == u;
    }
  }

  /** A text is the run TrimLeft cuts followed by what it keeps. */
  lemma TrimLeftSplits(s: string, c: char)
    ensures s == Repeat(c, |s| - |TrimLeft(s, c)|) + TrimLeft(s, c)
  {
    var r := TrimLeft(s, c);
    var k := |s| - |r|;
    assert s == s[..k] + s[k..];
    assert s[..k] == Repeat(c, k);
  }

  /** TrimRight cuts exactly a trailing run of c. */
  lemma {:induction false} TrimRightPadded(c: char, u: string, m: nat)
    requires u == [] || u[|u| - 1] != c
    ensures TrimRight(u + Repeat(c, m), c) == u
  {
    if m > 0 {
      var s := u + Repeat(c, m);
      assert s[..|s| - 1] == u + Repeat(c, m - 1);
      TrimRightPadded(c, u, m - 1);
    } else {
      assert u + Repeat(c, m) == u;
    }
  }

  /** Trim removes every leading and every trailing c and nothing else: a text
      that neither starts nor ends with c comes back out of any padding. */
  lemma {:induction false} TrimPadded(c: char, k: nat, t: string, m: nat)
    requires t == [] || (t[0] != c && t[|t| - 1] != c)
    ensures Trim(Repeat(c, k) + t + Repeat(c, m), c) == t
  {
    if t == [] {
      var s := Repeat(c, k) + t + Repeat(c, m);
      assert s == Repeat(c, k + m) + [] by {
        assert forall i :: 0 <= i < |s| ==> s[i] == c;
      }
      TrimLeftPadded(c, k + m, []);
      assert TrimRight([], c) == [];
    } else {
      assert Repeat(c, k) + t + Repeat(c, m) == Repeat(c, k) + (t + Repeat(c, m));
      TrimLeftPadded(c, k, t + Repeat(c, m));
      TrimRightPadded(c, t, m);
    }
  }

  /** sub occurs in s starting at index i. */
  predicate OccursAt(s: string, sub: string, i: int) {
    0 <= i && i + |sub| <= |s| && s[i..i + |sub|] == sub
  }

  /** strings.Contains(s, sub), as a left-to-right search. */
  predicate Contains(s: string, sub: string)
    decreases |s|
  {
    StartsWith(s, sub) || (s != [] && Contains(s[1..], sub))
  }

  /** The search finds sub exactly when sub occurs somewhere in s. */
  lemma {:induction false} ContainsIff(s: string, sub: string)
    ensures Contains(s, sub) <==> exists i :: OccursAt(s, sub, i)
  {
    if StartsWith(s, sub) {
      assert OccursAt(s, sub, 0);
    } else if s == [] {
      assert forall i :: !OccursAt(s, sub, i);
    } else {
      ContainsIff(s[1..], sub);
      forall i | OccursAt(s[1..], sub, i)
        ensures OccursAt(s, sub, i + 1)
      {
        assert s[1..][i..i + |sub|] == s[i + 1..i + 1 + |sub|];
      }
      forall i | OccursAt(s, sub, i)
        ensures OccursAt(s[1..], sub, i - 1)
      {
        assert i != 0;
        assert s[1..][i - 1..i - 1 + |sub|] == s[i..i + |sub|];
      }
    }
  }

  /** The parts separated by sep; the text starts with the first part. */
  function Join(parts: seq<string>, sep: string): (r: string)
    ensures parts != [] ==> StartsWith(r, parts[0])
  {
    if |parts| == 0 then ""
    else if |parts| == 1 then parts[0]
    else parts[0] + sep + Join(parts[1..], sep)
  }
}
