/** Path normalisation of default.c: a request's path becomes a local path below its directory. */
module UrlPath {
  import opened Basics
  import opened Tokens

  const MAX_URL_PARTS: nat := 64

  // ----- Segments -----

  /** A path with every backslash made a slash. */
  ghost function Slashed(s: string): (r: string)
    ensures |r| == |s| && forall i :: 0 <= i < |s| ==> r[i] == if s[i] == '\\' then '/' else s[i]
  {
    seq(|s|, i requires 0 <= i < |s| => if s[i] == '\\' then '/' else s[i])
  }

  // ----- Dot segments -----

  /** One segment: ".." removes the last one kept, "." is dropped, anything else is kept. */
  ghost function Push(stack: seq<string>, seg: string): (r: seq<string>)
  {
    if seg == ".." then (if stack == [] then [] else stack[..|stack| - 1])
    else if seg == "." then stack
    else stack + [seg]
  }

  /** The segments on the stack after a whole path. */
  ghost function Stack(segs: seq<string>): (r: seq<string>)
  {
    if segs == [] then [] else Push(Stack(segs[..|segs| - 1]), segs[|segs| - 1])
  }

  /**
   * Dot-segment removal read from the right: a kept segment is one that is not cancelled by a
   * later "..".
   */
  ghost function Kept(segs: seq<string>, skip: nat): (r: seq<string>)
  {
    if segs == [] then [] else
      var init, last := segs[..|segs| - 1], segs[|segs| - 1];
      if last == "." then Kept(init, skip)
      else if last == ".." then Kept(init, skip + 1)
      else if skip > 0 then Kept(init, skip - 1)
      else Kept(init, 0) + [last]
  }

  /** The stack holds exactly the segments that no later ".." cancels. */
  lemma {:induction false} StackIsKept(segs: seq<string>, skip: nat)
    ensures Kept(segs, skip) == if skip <= |Stack(segs)| then Stack(segs)[..|Stack(segs)| - skip] else []
  {
    if segs != [] {
      var init, last := segs[..|segs| - 1], segs[|segs| - 1];
      StackIsKept(init, if last == "." then skip else if last == ".." then skip + 1 else if skip > 0 then skip - 1 else 0);
    }
  }

  /** A kept segment is one of the path's, and no dot segment. */
  lemma {:induction false} StackIsClean(segs: seq<string>)
    ensures forall i :: 0 <= i < |Stack(segs)| ==> Stack(segs)[i] in segs && Stack(segs)[i] != "." && Stack(segs)[i] != ".."
  {
    if segs != [] {
      StackIsClean(segs[..|segs| - 1]);
    }
  }

  /** An ordinary segment. */
  ghost predicate Plain(seg: string)
  {
    seg != "." && seg != ".."
  }

  lemma StackNext(a: seq<string>, init: seq<string>, last: string)
    ensures Stack(a + (init + [last])) == Push(Stack(a + init), last)
  {
    var all := a + (init + [last]);
    assert all[..|all| - 1] == a + init;
  }

  /** What comes before a path's end decides together with the end, and nothing else. */
  lemma {:induction false} StackAppend(a: seq<string>, a': seq<string>, b: seq<string>)
    requires Stack(a) == Stack(a')
    ensures Stack(a + b) == Stack(a' + b)
  {
    if b == [] {
      assert a + b == a && a' + b == a';
    } else {
      var init, last := b[..|b| - 1], b[|b| - 1];
      StackAppend(a, a', init);
      StackNext(a, init, last);
      StackNext(a', init, last);
      assert b == init + [last];
    }
  }

  /**
   * The laws of dot segments, anywhere in a path: "." means nothing, ".." undoes the segment before it
   * and means nothing at the start, and a path without them is kept as it is.
   */
  lemma DotLaws(a: seq<string>, seg: string, b: seq<string>)
    ensures Stack(a + ["."] + b) == Stack(a + b)
    ensures Plain(seg) ==> Stack(a + [seg, ".."] + b) == Stack(a + b)
    ensures Stack([".."] + b) == Stack(b)
  {
    assert (a + ["."])[..|a|] == a;
    StackAppend(a + ["."], a, b);
    if Plain(seg) {
      assert (a + [seg])[..|a|] == a && (a + [seg, ".."])[..|a| + 1] == a + [seg];
      assert Stack(a + [seg]) == Stack(a) + [seg];
      StackAppend(a + [seg, ".."], a, b);
    }
    assert [".."][..0] == [] && [] + b == b;
    StackAppend([".."], [], b);
  }

  lemma {:induction false} PlainKept(segs: seq<string>)
    requires forall i :: 0 <= i < |segs| ==> Plain(segs[i])
    ensures Stack(segs) == segs
  {
    if segs != [] {
      PlainKept(segs[..|segs| - 1]);
      assert segs == segs[..|segs| - 1] + [segs[|segs| - 1]];
    }
  }

  /** Some segment was met with the stack already full. */
  ghost predicate TooMany(segs: seq<string>)
  {
    exists i :: 0 <= i < |segs| && |Stack(segs[..i])| >= MAX_URL_PARTS
  }

  // ----- Local paths -----

  ghost function Joined(segs: seq<string>): (r: string)
  {
    if segs == [] then "" else Joined(segs[..|segs| - 1]) + "/" + segs[|segs| - 1]
  }

  /** Splitting a joined path gives the segments back. */
  lemma {:induction false} JoinedSplits(segs: seq<string>, rest: string)
    requires forall i :: 0 <= i < |segs| ==> segs[i] != "" && '/' !in segs[i]
    requires rest == "" || rest[0] == '/'
    ensures Pieces(Joined(segs) + rest, '/') == segs + Pieces(rest, '/')
  {
    if segs == [] {
      assert Joined(segs) + rest == rest;
    } else {
      var init, last := segs[..|segs| - 1], segs[|segs| - 1];
      var more := "/" + last + rest;
      JoinedSplits(init, more);
      assert Joined(segs) + rest == Joined(init) + more;
      FirstSplits(last, rest);
      assert segs == init + [last];
    }
  }

  lemma FirstSplits(last: string, rest: string)
    requires last != "" && '/' !in last && (rest == "" || rest[0] == '/')
    ensures Pieces("/" + last + rest, '/') == [last] + Pieces(rest, '/')
  {
    var s := last + rest;
    assert ("/" + last + rest)[1..] == s;
    PiecesTake(s, '/', 0, |last|, if rest == "" then |last| else |last| + 1);
    assert s[0..] == s && s[0..|last|] == last;
    if rest != "" { assert s[|last| + 1..] == rest[1..]; } else { assert s[|last|..] == ""; }
  }

  /** The room counted for a path: every segment ever pushed, with its slash. */
  ghost function Room(segs: seq<string>): (n: nat)
  {
    if segs == [] then 0 else
      var last := segs[|segs| - 1];
      Room(segs[..|segs| - 1]) + if last == "." || last == ".." then 0 else |last| + 1
  }

  lemma {:induction false} JoinedPrefix(segs: seq<string>, n: nat)
    requires n <= |segs|
    ensures |Joined(segs[..n])| <= |Joined(segs)|
  {
    if n < |segs| {
      JoinedPrefix(segs[..|segs| - 1], n);
      assert segs[..|segs| - 1][..n] == segs[..n];
    } else {
      assert segs[..n] == segs;
    }
  }

  /** What is kept never needs more room than was counted. */
  lemma {:induction false} RoomSuffices(segs: seq<string>)
    ensures |Joined(Stack(segs))| <= Room(segs)
  {
    if segs != [] {
      var init, last := segs[..|segs| - 1], segs[|segs| - 1];
      RoomSuffices(init);
      if last == ".." {
        if Stack(init) != [] { JoinedPrefix(Stack(init), |Stack(init)| - 1); }
      } else if last != "." {
        assert Stack(segs)[..|Stack(segs)| - 1] == Stack(init);
      }
    }
  }

  // ----- The method -----

  /** Cutting tokens off never makes a path look empty or like a lone slash. */
  lemma CutStart(path: seq<char>, s: string)
    requires NulFree(s) && Cut(path, s, '/', |s|)
    ensures path[0] == '\0' <==> s == ""
    ensures path[0] == '/' && path[1] == '\0' <==> s == "/"
  {
    if s != "" {
      assert CutAt(path, s, '/', 0) && (|s| > 1 ==> CutAt(path, s, '/', 1));
    }
  }

  lemma SlashedStart(s: string)
    ensures Slashed(s) == "" <==> s == ""
    ensures Slashed(s) == "/" <==> s == "/" || s == "\\"
  {
    if |s| == 1 {
      assert Slashed(s)[0] == '/' <==> s[0] == '/' || s[0] == '\\';
    }
  }

  /** Turn backslashes into slashes, in place. */
  method SlashAll(path: array<char>, ghost s: string)
    requires path.Length == |s| + 1 && path[..] == s + ['\0'] && NulFree(s)
    modifies path
    ensures path[..] == Slashed(s) + ['\0']
  {
    var i := 0;
    while path[i] != '\0'
      invariant 0 <= i <= |s|
      invariant forall j :: 0 <= j < i ==> path[j] == Slashed(s)[j]
      invariant forall j :: i <= j <= |s| ==> path[j] == (s + ['\0'])[j]
      decreases |s| - i
    {
      if path[i] == '\\' {
        path[i] := '/';
      }
      i := i + 1;
    }
  }

  /** Append s and a NUL at `at`, as strcat does. */
  method Append(buf: array<char>, at: nat, s: string) returns (end: nat)
    requires at + |s| < buf.Length
    modifies buf
    ensures end == at + |s| && buf[..end] == old(buf[..at]) + s && buf[end] == '\0'
  {
    var i := 0;
    while i < |s|
      invariant 0 <= i <= |s| && buf[..at] == old(buf[..at]) && buf[at..at + i] == s[..i]
    {
      buf[at + i] := s[i];
      i := i + 1;
    }
    end := at + |s|;
    buf[end] := '\0';
    assert buf[..end] == buf[..at] + buf[at..end];
  }

  lemma JoinedStep(dir: string, parts: seq<string>, i: nat)
    requires i < |parts|
    ensures dir + Joined(parts[..i + 1]) == dir + Joined(parts[..i]) + "/" + parts[i]
    ensures |Joined(parts[..i])| + 1 + |parts[i]| <= |Joined(parts)|
  {
    assert parts[..i + 1][..i] == parts[..i];
    JoinedPrefix(parts, i + 1);
  }

  /** Write the directory and the kept segments into a buffer of the counted size. */
  method Build(dir: string, parts: seq<string>, len: nat) returns (lpath: string)
    requires |Joined(parts)| <= len
    ensures lpath == dir + Joined(parts)
  {
    var buf := new char[|dir| + 1 + len + 1](_ => '\0');
    var at := Append(buf, 0, dir);
    var i := 0;
    while i < |parts|
      invariant 0 <= i <= |parts| && 0 <= at < buf.Length && buf[..at] == dir + Joined(parts[..i])
    {
      JoinedStep(dir, parts, i);
      at := Append(buf, at, "/");
      at := Append(buf, at, parts[i]);
      i := i + 1;
    }
    assert parts[..i] == parts;
    lpath := buf[..at];
  }

  /** Handle one token: pop for "..", nothing for ".", else store it and count its room. */
  method Place(parts: array<string>, npart: nat, len: nat, token: string) returns (npart': nat, len': nat)
    requires npart < parts.Length
    modifies parts
    ensures npart' <= parts.Length && parts[..npart'] == Push(old(parts[..npart]), token)
    ensures len' == len + if token == "." || token == ".." then 0 else |token| + 1
  {
    npart', len' := npart, len;
    if token == ".." {
      if npart' > 0 {
        npart' := npart' - 1;
      }
    } else if token != "." {
      parts[npart'] := token;
      len' := len' + |token| + 1;
      npart' := npart' + 1;
    }
  }

  /** The stack and the room counted after the first `done` segments, none met with a full stack. */
  ghost predicate Progress(segs: seq<string>, done: nat, stack: seq<string>, len: nat)
  {
    && done <= |segs| && stack == Stack(segs[..done]) && len == Room(segs[..done])
    && forall i :: 0 <= i < done ==> |Stack(segs[..i])| < MAX_URL_PARTS
  }

  lemma ProgressStep(segs: seq<string>, done: nat, stack: seq<string>, len: nat, token: string, rest: seq<string>)
    requires Progress(segs, done, stack, len) && segs[done..] == [token] + rest
    ensures done < |segs| && segs[done + 1..] == rest
    ensures |stack| >= MAX_URL_PARTS ==> TooMany(segs)
    ensures |stack| < MAX_URL_PARTS ==>
              Progress(segs, done + 1, Push(stack, token), len + if token == "." || token == ".." then 0 else |token| + 1)
  {
    assert segs[done] == segs[done..][0] == token;
    assert segs[done..][1..] == segs[done + 1..];
    assert segs[..done + 1][..done] == segs[..done];
  }

  lemma ProgressEnd(segs: seq<string>, done: nat, stack: seq<string>, len: nat)
    requires Progress(segs, done, stack, len) && segs[done..] == []
    ensures stack == Stack(segs) && len == Room(segs) && !TooMany(segs)
  {
    assert segs[..done] == segs;
  }

  /** Split, remove dot segments, and give the segments left, or None for too many of them. */
  method Parts(path: array<char>, ghost s: string) returns (kept: Option<seq<string>>, len: nat)
    requires NulFree(s) && Cut(path[..], s, '/', 0)
    modifies path
    ensures kept.None? <==> TooMany(Pieces(s, '/'))
    ensures kept.Some? ==> kept.value == Stack(Pieces(s, '/')) && len == Room(Pieces(s, '/')) && Cut(path[..], s, '/', |s|)
  {
    var parts := new string[MAX_URL_PARTS](_ => "");
    var npart := 0;
    len := 0;
    ghost var segs, done := Pieces(s, '/'), 0;
    var token, save := Strtok(path, 0, '/', s);
    assert s[0..] == s;
    while token.Some?
      invariant 0 <= npart <= MAX_URL_PARTS && Cut(path[..], s, '/', save)
      invariant Progress(segs, done, parts[..npart], len)
      invariant segs[done..] == if token.None? then [] else [token.value] + Pieces(s[save..], '/')
      decreases |segs| - done
    {
      ProgressStep(segs, done, parts[..npart], len, token.value, Pieces(s[save..], '/'));
      if npart >= MAX_URL_PARTS {
        return None, len;
      }
      npart, len := Place(parts, npart, len, token.value);
      done := done + 1;
      token, save := Strtok(path, save, '/', s);
    }
    ProgressEnd(segs, done, parts[..npart], len);
    CutLater(path[..], s, '/', save, |s|);
    kept := Some(parts[..npart]);
  }

  /** The segments of a decoded path, backslashes read as slashes. */
  ghost function PathSegments(decoded: string): (segs: seq<string>)
  {
    Pieces(Slashed(decoded), '/')
  }

  /** What dot-segment removal leaves is the final stack, names no separator and needs no more room than counted. */
  lemma KeptFacts(decoded: string)
    ensures Kept(PathSegments(decoded), 0) == Stack(PathSegments(decoded))
    ensures |Joined(Stack(PathSegments(decoded)))| <= Room(PathSegments(decoded))
    ensures forall seg :: seg in Kept(PathSegments(decoded), 0) ==>
              seg != "" && seg != "." && seg != ".." && '/' !in seg && '\\' !in seg
  {
    var segs := PathSegments(decoded);
    StackIsKept(segs, 0);
    assert Kept(segs, 0) == Stack(segs);
    StackIsClean(segs);
    RoomSuffices(segs);
    assert '\\' !in Slashed(decoded);
  }

  /** The path as strtok is given it: copied, with slashes for backslashes. */
  method Prepare(decoded: string) returns (path: array<char>)
    requires NulFree(decoded)
    ensures fresh(path) && NulFree(Slashed(decoded)) && Cut(path[..], Slashed(decoded), '/', 0)
  {
    path := new char[|decoded| + 1](i requires 0 <= i <= |decoded| => if i < |decoded| then decoded[i] else '\0');
    assert path[..] == decoded + ['\0'];
    SlashAll(path, decoded);
  }

  /**
   * The local path of a decoded request path: the directory followed by the segments dot-segment
   * removal leaves. None for an empty directory, too many segments, or nothing left of a path
   * that was not empty or a single separator.
   */
  method ValidateUrl(dir: string, decoded: string) returns (lpath: Option<string>)
    requires NulFree(decoded)
    ensures lpath.Some? <==>
              && dir != ""
              && !TooMany(PathSegments(decoded))
              && (Kept(PathSegments(decoded), 0) != [] || decoded == "" || decoded == "/" || decoded == "\\")
    ensures lpath.Some? ==> lpath.value == dir + Joined(Kept(PathSegments(decoded), 0))
    ensures lpath.Some? ==> |lpath.value| <= |dir| + Room(PathSegments(decoded))
  {
    KeptFacts(decoded);
    if dir == "" {
      return None;
    }
    var path := Prepare(decoded);
    var parts, len := Parts(path, Slashed(decoded));
    if parts.None? {
      return None;
    }
    CutStart(path[..], Slashed(decoded));
    SlashedStart(decoded);
    if |parts.value| > 0 || (path[0] == '/' && path[1] == '\0') || path[0] == '\0' {
      var l := Build(dir, parts.value, len);
      lpath := Some(l);
    } else {
      lpath := None;
    }
  }
}
