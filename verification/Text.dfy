/** Blank-trimming of strings, for ASCII white space. */
module Text {
  predicate IsSpace(c: char) {
    c == ' ' || c == '\t' || c == '\n' || c == '\r' || c == 11 as char || c == 12 as char
  }

  function TrimLeft(s: string): string {
    if s != [] && IsSpace(s[0]) then TrimLeft(s[1..]) else s
  }

  function TrimRight(s: string): string {
    if s != [] && IsSpace(s[|s| - 1]) then TrimRight(s[..|s| - 1]) else s
  }

  function Trim(s: string): string { TrimRight(TrimLeft(s)) }

  predicate Blank(s: string) { Trim(s) == "" }

  /** Lower case, for ASCII letters. */
  function Lower(s: string): string {
    seq(|s|, i requires 0 <= i < |s| =>
      if 'A' <= s[i] <= 'Z' then (s[i] as int + 32) as char else s[i])
  }

  lemma {:induction false} LeftTrimmed(s: string)
    ensures TrimLeft(s) != [] ==> !IsSpace(TrimLeft(s)[0])
  {
    if s != [] && IsSpace(s[0]) { LeftTrimmed(s[1..]); }
  }

  lemma {:induction false} RightTrimmed(s: string)
    ensures TrimRight(s) != [] ==> !IsSpace(TrimRight(s)[|TrimRight(s)| - 1])
    ensures TrimRight(s) <= s
  {
    if s != [] && IsSpace(s[|s| - 1]) { RightTrimmed(s[..|s| - 1]); }
  }

  lemma TrimTwice(s: string)
    ensures Trim(Trim(s)) == Trim(s)
  {
    var l := TrimLeft(s);
    var r := TrimRight(l);
    LeftTrimmed(s);
    RightTrimmed(l);
    if r != [] {
      assert r[0] == l[0];
    }
  }

  lemma {:induction false} LeftSpaces(s: string)
    ensures |TrimLeft(s)| <= |s| && TrimLeft(s) == s[|s| - |TrimLeft(s)|..]
    ensures forall i :: 0 <= i < |s| - |TrimLeft(s)| ==> IsSpace(s[i])
  {
    if s != [] && IsSpace(s[0]) {
      LeftSpaces(s[1..]);
      assert forall i :: 1 <= i < |s| ==> s[i] == s[1..][i - 1];
    }
  }

  lemma {:induction false} RightSpaces(s: string)
    ensures |TrimRight(s)| <= |s| && forall i :: |TrimRight(s)| <= i < |s| ==> IsSpace(s[i])
  {
    if s != [] && IsSpace(s[|s| - 1]) { RightSpaces(s[..|s| - 1]); }
  }

  /** Trimming cuts off the white space at both ends and nothing else. */
  lemma TrimMeans(s: string) returns (a: nat, b: nat)
    ensures a <= b <= |s| && Trim(s) == s[a..b]
    ensures forall i :: 0 <= i < |s| && !(a <= i < b) ==> IsSpace(s[i])
    ensures a < b ==> !IsSpace(s[a]) && !IsSpace(s[b - 1])
  {
    var l := TrimLeft(s);
    var r := TrimRight(l);
    LeftSpaces(s);
    RightSpaces(l);
    RightTrimmed(l);
    LeftTrimmed(s);
    hide TrimLeft, TrimRight, IsSpace;
    a, b := |s| - |l|, |s| - |l| + |r|;
    assert forall i :: 0 <= i < |l| ==> l[i] == s[a + i];
    assert r == l[..|r|] == s[a..b];
    forall i | b <= i < |s| ensures IsSpace(s[i]) {
      assert IsSpace(l[i - a]);
    }
  }

  /** A string is blank exactly when it has white space only. */
  lemma {:induction false} BlankMeansSpaces(s: string)
    ensures Blank(s) <==> forall i :: 0 <= i < |s| ==> IsSpace(s[i])
  {
    if s != [] && IsSpace(s[0]) {
      BlankMeansSpaces(s[1..]);
      assert forall i :: 1 <= i < |s| ==> s[i] == s[1..][i - 1];
    } else if s != [] {
      RightTrimmed(s);
      RightKeepsFirst(s);
    }
  }

  lemma {:induction false} RightKeepsFirst(s: string)
    requires s != [] && !IsSpace(s[0])
    ensures TrimRight(s) != []
  {
    if IsSpace(s[|s| - 1]) { RightKeepsFirst(s[..|s| - 1]); }
  }
}
