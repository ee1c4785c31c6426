/** Splitting a text into words at separator characters, as the key-management parser does at blanks
    and strtok does at semicolons: leading and repeated separators make no words. */
module Splitting {
  function WordLength(s: string, seps: set<char>): (n: nat)
    ensures n <= |s| && (forall k :: 0 <= k < n ==> s[k] !in seps) && (n < |s| ==> s[n] in seps)
  {
    if s == "" || s[0] in seps then 0 else 1 + WordLength(s[1..], seps)
  }

  function Words(s: string, seps: set<char>): seq<string>
    decreases |s|
  {
    if s == "" then []
    else if s[0] in seps then Words(s[1..], seps)
    else [s[..WordLength(s, seps)]] + Words(s[WordLength(s, seps)..], seps)
  }

  predicate Solid(w: string, seps: set<char>) { forall k :: 0 <= k < |w| ==> w[k] !in seps }

  lemma WordsEmpty(t: string, i: nat, seps: set<char>)
    requires i == |t|
    ensures Words(t[i..], seps) == []
  {
    assert t[i..] == "";
  }

  lemma WordsPastSep(t: string, i: nat, seps: set<char>)
    requires i < |t| && t[i] in seps
    ensures Words(t[i..], seps) == Words(t[i + 1..], seps)
  {
    assert t[i..][1..] == t[i + 1..];
  }

  lemma WordAt(t: string, start: nat, end: nat, seps: set<char>)
    requires start < end <= |t| && (forall k :: start <= k < end ==> t[k] !in seps) && (end < |t| ==> t[end] in seps)
    ensures Words(t[start..], seps) == [t[start..end]] + Words(t[end..], seps)
  {
    var s := t[start..];
    var n := WordLength(s, seps);
    assert s[0] !in seps;
    assert forall k :: start <= k < end ==> s[k - start] == t[k];
    assert end < |t| ==> s[end - start] == t[end];
    assert s[..n] == t[start..end] && s[n..] == t[end..];
  }

  /** A word is not empty, holds no separator, and holds only characters of the text. */
  lemma {:induction false} WordsAreSolid(s: string, seps: set<char>, w: string)
    requires w in Words(s, seps)
    ensures w != "" && Solid(w, seps) && forall k :: 0 <= k < |w| ==> w[k] in s
    decreases |s|
  {
    if s[0] in seps {
      WordsAreSolid(s[1..], seps, w);
    } else if w != s[..WordLength(s, seps)] {
      WordsAreSolid(s[WordLength(s, seps)..], seps, w);
    }
  }

  /** `str` holds the text `t` and its closing NUL. */
  predicate Holds(str: seq<char>, t: string) {
    |t| < |str| && str[..|t|] == t && str[|t|] == '\0' && '\0' !in t
  }
}
