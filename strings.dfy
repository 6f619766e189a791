/** Python's str.split with an explicit one-character separator, and its inverse. */
module Strings {

  /** Number of occurrences of c in s. */
  function Count(s: string, c: char): nat
  {
    if s == [] then 0 else (if s[0] == c then 1 else 0) + Count(s[1..], c)
  }

  /** Index of the first c in s, or |s| when s holds no c. */
  function IndexOf(s: string, c: char): (i: nat)
    ensures i <= |s|
    ensures i < |s| ==> s[i] == c
    ensures forall j :: 0 <= j < i ==> s[j] != c
  {
    if s == [] then 0 else if s[0] == c then 0 else 1 + IndexOf(s[1..], c)
  }

  /** s.split(c): the pieces between the occurrences of c, empty pieces kept. */
  function SplitOn(s: string, c: char): (parts: seq<string>)
    decreases |s|
  {
    var i := IndexOf(s, c);
    if i == |s| then [s] else [s[..i]] + SplitOn(s[i + 1..], c)
  }

  /** c.join(parts). */
  function Join(parts: seq<string>, c: char): string
  {
    if parts == [] then [] else if |parts| == 1 then parts[0] else parts[0] + [c] + Join(parts[1..], c)
  }

  lemma {:induction false} CountSplit(s: string, c: char, i: nat)
    requires i <= |s|
    ensures Count(s, c) == Count(s[..i], c) + Count(s[i..], c)
  {
    if i > 0 {
      assert s[1..][..i - 1] == s[..i][1..];
      assert s[1..][i - 1..] == s[i..];
      CountSplit(s[1..], c, i - 1);
    }
  }

  lemma {:induction false} CountNone(s: string, c: char)
    requires forall j :: 0 <= j < |s| ==> s[j] != c
    ensures Count(s, c) == 0
  {
    if s != [] {
      CountNone(s[1..], c);
    }
  }

  /** str.split yields one more piece than there are separators, and no piece holds a separator. */
  lemma {:induction false} SplitOnShape(s: string, c: char)
    ensures |SplitOn(s, c)| == Count(s, c) + 1
    ensures forall k, j :: 0 <= k < |SplitOn(s, c)| && 0 <= j < |SplitOn(s, c)[k]| ==> SplitOn(s, c)[k][j] != c
    decreases |s|
  {
    var i := IndexOf(s, c);
    if i == |s| {
      CountNone(s, c);
    } else {
      SplitOnShape(s[i + 1..], c);
      CountSplit(s, c, i);
      CountNone(s[..i], c);
      CountSplit(s[i..], c, 1);
      assert s[i..][1..] == s[i + 1..];
      assert s[i..][..1] == [c];
      var parts := SplitOn(s, c);
      var rest := SplitOn(s[i + 1..], c);
      assert parts == [s[..i]] + rest;
      forall k, j | 0 <= k < |parts| && 0 <= j < |parts[k]|
        ensures parts[k][j] != c
      {
        if k > 0 {
          assert parts[k] == rest[k - 1];
        }
      }
    }
  }

  /** Joining the pieces of a split with the same separator gives back the string. */
  lemma {:induction false} JoinSplitOn(s: string, c: char)
    ensures Join(SplitOn(s, c), c) == s
    decreases |s|
  {
    var i := IndexOf(s, c);
    if i < |s| {
      var rest := SplitOn(s[i + 1..], c);
      JoinSplitOn(s[i + 1..], c);
      assert |rest| >= 1;
      assert SplitOn(s, c)[1..] == rest;
      assert s == s[..i] + [c] + s[i + 1..];
    }
  }
}
