/** Cutting a string into tokens at a separator, as the C library's strtok does in place. */
module Tokens {
  import opened Basics

  ghost predicate NulFree(s: string)
  {
    forall i :: 0 <= i < |s| ==> s[i] != '\0'
  }

  /** The length of the longest prefix without a separator. */
  ghost function Run(s: string, sep: char): (k: nat)
    ensures k <= |s| && forall i :: 0 <= i < k ==> s[i] != sep
    ensures k < |s| ==> s[k] == sep
  {
    if s == "" || s[0] == sep then 0 else 1 + Run(s[1..], sep)
  }

  lemma {:induction false} RunIs(s: string, sep: char, k: nat)
    requires k <= |s| && (forall i :: 0 <= i < k ==> s[i] != sep) && (k < |s| ==> s[k] == sep)
    ensures Run(s, sep) == k
  {
  }

  /** The non-empty pieces between separators. */
  ghost function Pieces(s: string, sep: char): (segs: seq<string>)
    ensures forall i :: 0 <= i < |segs| ==> segs[i] != "" && sep !in segs[i] && (forall c :: c in segs[i] ==> c in s)
  {
    if s == "" then []
    else if s[0] == sep then Pieces(s[1..], sep)
    else [s[..Run(s, sep)]] + Pieces(s[Run(s, sep)..], sep)
  }

  // ----- Tokens -----

  /** Character j of a string whose tokens were cut off by a NUL after each. */
  ghost predicate CutAt(path: seq<char>, s: string, sep: char, j: nat)
    requires j < |path| && j < |s|
  {
    path[j] == s[j] || (j > 0 && s[j] == sep && s[j - 1] != sep)
  }

  /** The string s as it stands in memory: tokens that were taken are cut off by a NUL after them. */
  ghost predicate Cut(path: seq<char>, s: string, sep: char, from: nat)
  {
    && |path| == |s| + 1 && path[|s|] == '\0' && from <= |s|
    && (forall j :: from <= j < |s| ==> path[j] == s[j])
    && (forall j :: 0 <= j < from ==> CutAt(path, s, sep, j))
  }

  lemma CutLater(path: seq<char>, s: string, sep: char, from: nat, to: nat)
    requires Cut(path, s, sep, from) && from <= to <= |s|
    ensures Cut(path, s, sep, to)
  {
  }

  lemma CutAfter(path: seq<char>, s: string, sep: char, i: nat)
    requires Cut(path, s, sep, i) && 0 < i < |s| && s[i] == sep && s[i - 1] != sep
    ensures Cut(path[i := '\0'], s, sep, i + 1)
  {
    var path' := path[i := '\0'];
    forall j | 0 <= j < i + 1
      ensures CutAt(path', s, sep, j)
    {
      if j < i { assert CutAt(path, s, sep, j); }
    }
  }

  lemma {:induction false} PiecesSkip(s: string, sep: char, i: nat, j: nat)
    requires i <= j <= |s| && forall k :: i <= k < j ==> s[k] == sep
    ensures Pieces(s[i..], sep) == Pieces(s[j..], sep)
    decreases j - i
  {
    if i < j {
      PiecesSkip(s, sep, i + 1, j);
      assert s[i..][1..] == s[i + 1..];
    }
  }

  lemma PiecesTake(s: string, sep: char, i: nat, j: nat, next: nat)
    requires i < j <= |s| && (forall k :: i <= k < j ==> s[k] != sep) && (j < |s| ==> s[j] == sep)
    requires next == if j < |s| then j + 1 else j
    ensures Pieces(s[i..], sep) == [s[i..j]] + Pieces(s[next..], sep)
  {
    RunIs(s[i..], sep, j - i);
    assert s[i..][..j - i] == s[i..j] && s[i..][j - i..] == s[j..];
    PiecesSkip(s, sep, j, next);
  }

  method SkipSeparators(path: array<char>, save: nat, sep: char, ghost s: string) returns (i: nat)
    requires sep != '\0' && NulFree(s) && Cut(path[..], s, sep, save)
    ensures save <= i <= |s| && Cut(path[..], s, sep, i) && path[i] != sep
    ensures Pieces(s[save..], sep) == Pieces(s[i..], sep)
  {
    assert path[..][|s|] == '\0' && forall j :: save <= j < |s| ==> path[..][j] == s[j];
    i := save;
    while path[i] == sep
      invariant save <= i <= |s| && forall k :: save <= k < i ==> s[k] == sep
      decreases |s| - i
    {
      i := i + 1;
    }
    PiecesSkip(s, sep, save, i);
    CutLater(path[..], s, sep, save, i);
  }

  method TokenEnd(path: array<char>, start: nat, sep: char, ghost s: string) returns (i: nat)
    requires sep != '\0' && NulFree(s) && Cut(path[..], s, sep, start)
    ensures start <= i <= |s| && Cut(path[..], s, sep, i)
    ensures path[start..i] == s[start..i] && (forall k :: start <= k < i ==> s[k] != sep)
    ensures if i < |s| then path[i] == s[i] == sep else path[i] == '\0'
  {
    assert path[..][|s|] == '\0' && forall j :: start <= j < |s| ==> path[..][j] == s[j];
    i := start;
    while path[i] != '\0' && path[i] != sep
      invariant start <= i <= |s| && forall k :: start <= k < i ==> s[k] != sep
      decreases |s| - i
    {
      i := i + 1;
    }
    CutLater(path[..], s, sep, start, i);
  }

  /** Take the next token from position `save`, cutting it off with a NUL. */
  method Strtok(path: array<char>, save: nat, sep: char, ghost s: string) returns (token: Option<string>, next: nat)
    requires sep != '\0' && NulFree(s) && Cut(path[..], s, sep, save)
    modifies path
    ensures Cut(path[..], s, sep, next)
    ensures Pieces(s[save..], sep) == if token.None? then [] else [token.value] + Pieces(s[next..], sep)
  {
    var start := SkipSeparators(path, save, sep, s);
    if path[start] == '\0' {
      assert path[..][start] == '\0';
      assert s[start..] == "";
      return None, start;
    }
    var i := TokenEnd(path, start, sep, s);
    token, next := Some(path[start..i]), i;
    PiecesTake(s, sep, start, i, if i < |s| then i + 1 else i);
    if path[i] != '\0' {
      ghost var was := path[..];
      CutAfter(was, s, sep, i);
      path[i] := '\0';
      assert path[..] == was[i := '\0'];
      next := i + 1;
    }
  }

  /** A non-empty line and its separator give one piece. */
  lemma PiecesLine(line: string, rest: string, sep: char)
    requires line != "" && sep !in line
    ensures Pieces(line + [sep] + rest, sep) == [line] + Pieces(rest, sep)
  {
    var s := line + [sep] + rest;
    PiecesTake(s, sep, 0, |line|, |line| + 1);
    assert s[0..] == s && s[0..|line|] == line && s[|line| + 1..] == rest;
  }
}
