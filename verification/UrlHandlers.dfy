/** URL dispatch of handler.c: a sorted table of prefix handlers, and the condensing of slashes. */
module UrlHandlers {
  import opened Basics

  /** A table entry. A deleted entry stays, with no handler. */
  datatype Handler = Handler(prefix: string, webDir: string, handler: Option<int>, arg: int, first: bool, last: bool)

  // ----- The comparator -----

  /** A proper extension of a string sorts after it. */
  lemma {:induction false} StrCmpPrefix(a: string, b: string)
    requires a <= b && a != b
    ensures StrCmp(a, b) < 0
  {
    if a != "" {
      assert a == [a[0]] + a[1..] && b == [b[0]] + b[1..];
      StrCmpPrefix(a[1..], b[1..]);
    }
  }

  /** The sort's comparator: flags first, then reverse lexicographic order. */
  function Compare(s: Handler, t: Handler): (r: int)
    ensures -1 <= r <= 1
  {
    if s.first || t.last then -1
    else if t.first || s.last then 1
    else -StrCmp(s.prefix, t.prefix)
  }

  /** Two entries that do not share a flag, neither carrying both flags. */
  ghost predicate Apart(s: Handler, t: Handler)
  {
    !(s.first && t.first) && !(s.last && t.last) && !(s.first && s.last) && !(t.first && t.last)
  }

  /** The comparator orders a pair the same way from both sides exactly when its flags do not clash. */
  lemma CompareReverses(s: Handler, t: Handler)
    ensures Apart(s, t) <==> Compare(s, t) == -Compare(t, s)
  {
    StrCmpReverse(s.prefix, t.prefix);
  }

  lemma CompareTransitive(s: Handler, t: Handler, u: Handler)
    requires Apart(s, t) && Apart(t, u) && Apart(s, u)
    requires Compare(s, t) <= 0 && Compare(t, u) <= 0
    ensures Compare(s, u) <= 0
  {
    if !(s.first || t.last) && !(t.first || u.last) {
      StrCmpTransitive(s.prefix, t.prefix, u.prefix);
    }
  }

  /** Two entries flagged first have no order: each compares below the other. */
  lemma TwoFirstHaveNoOrder()
    ensures exists s: Handler, t: Handler :: s.prefix != t.prefix && Compare(s, t) < 0 && Compare(t, s) < 0
  {
    var s := Handler("/a", "", None, 0, true, false);
    var t := Handler("/b", "", None, 0, true, false);
    assert s.prefix[1] != t.prefix[1];
    assert Compare(s, t) < 0 && Compare(t, s) < 0;
  }

  // ----- Sorted tables -----

  /** At most one entry is flagged first, at most one last, and none both (unless it is alone). */
  ghost predicate OneEach(hs: seq<Handler>)
  {
    forall i, j :: 0 <= i < j < |hs| ==> Apart(hs[i], hs[j])
  }

  /** All entries but the one at i. */
  ghost function Without(hs: seq<Handler>, i: nat): (r: seq<Handler>)
    requires i < |hs|
    ensures |r| == |hs| - 1 && multiset(r) == multiset(hs) - multiset{hs[i]}
    ensures forall k :: 0 <= k < |r| ==> r[k] == hs[if k < i then k else k + 1]
  {
    assert hs == hs[..i] + [hs[i]] + hs[i + 1..];
    hs[..i] + hs[i + 1..]
  }

  /** Entries at two places of a table are at two places of every permutation of it. */
  lemma TwoPlaces(a: seq<Handler>, b: seq<Handler>, i: nat, j: nat) returns (p: nat, q: nat)
    requires multiset(a) == multiset(b) && i < j < |a|
    ensures p < |b| && q < |b| && p != q && b[p] == a[i] && b[q] == a[j]
  {
    assert a[i] in multiset(b);
    p :| 0 <= p < |b| && b[p] == a[i];
    var r := Without(b, p);
    var h := Without(a, i)[j - 1];
    assert h == a[j] && h in multiset(r);
    q :| 0 <= q < |r| && r[q] == h;
    q := if q < p then q else q + 1;
  }

  lemma OneEachPermuted(a: seq<Handler>, b: seq<Handler>)
    requires multiset(a) == multiset(b) && OneEach(b)
    ensures OneEach(a)
  {
    forall i, j | 0 <= i < j < |a|
      ensures Apart(a[i], a[j])
    {
      var p, q := TwoPlaces(a, b, i, j);
      assert if p < q then Apart(b[p], b[q]) else Apart(b[q], b[p]);
    }
  }

  ghost predicate Sorted(hs: seq<Handler>)
  {
    forall i, j :: 0 <= i < j < |hs| ==> Compare(hs[i], hs[j]) <= 0
  }

  /** What the C library promises of qsort: a permutation, sorted if the comparator is an order. */
  ghost predicate QsortAnswer(before: seq<Handler>, after: seq<Handler>)
  {
    multiset(after) == multiset(before) && (OneEach(before) ==> Sorted(after))
  }

  // ----- A sort that calls the comparator -----

  /** Put an entry before the first one it does not compare above. */
  function Inserted(h: Handler, hs: seq<Handler>): (r: seq<Handler>)
    ensures multiset(r) == multiset(hs) + multiset{h}
  {
    if hs == [] || Compare(h, hs[0]) <= 0 then [h] + hs
    else
      assert hs == [hs[0]] + hs[1..];
      [hs[0]] + Inserted(h, hs[1..])
  }

  function SortedTable(hs: seq<Handler>): (r: seq<Handler>)
    ensures multiset(r) == multiset(hs)
  {
    if hs == [] then [] else
      assert hs == [hs[0]] + hs[1..];
      Inserted(hs[0], SortedTable(hs[1..]))
  }

  ghost predicate ApartFromAll(h: Handler, hs: seq<Handler>)
  {
    forall k :: 0 <= k < |hs| ==> Apart(h, hs[k])
  }

  ghost predicate BelowAll(h: Handler, hs: seq<Handler>)
  {
    forall k :: 0 <= k < |hs| ==> Compare(h, hs[k]) <= 0
  }

  lemma SortedFront(h: Handler, hs: seq<Handler>)
    requires BelowAll(h, hs) && Sorted(hs)
    ensures Sorted([h] + hs)
  {
    var r := [h] + hs;
    forall i, j | 0 <= i < j < |r|
      ensures Compare(r[i], r[j]) <= 0
    {
      if i > 0 {
        assert Compare(hs[i - 1], hs[j - 1]) <= 0;
      }
    }
  }

  /** What is below an entry and everything behind it stays below when another entry it is below is inserted. */
  lemma BelowInserted(b: Handler, h: Handler, hs: seq<Handler>)
    requires BelowAll(b, hs) && Compare(b, h) <= 0
    ensures BelowAll(b, Inserted(h, hs))
  {
    var r := Inserted(h, hs);
    forall k | 0 <= k < |r|
      ensures Compare(b, r[k]) <= 0
    {
      assert r[k] in multiset(hs) + multiset{h};
    }
  }

  lemma {:induction false} InsertedSorted(h: Handler, hs: seq<Handler>)
    requires Sorted(hs) && OneEach(hs) && ApartFromAll(h, hs)
    ensures Sorted(Inserted(h, hs))
    decreases |hs|
  {
    if hs != [] {
      var rest := hs[1..];
      if Compare(h, hs[0]) <= 0 {
        forall k | 0 <= k < |hs|
          ensures Compare(h, hs[k]) <= 0
        {
          if k > 0 { CompareTransitive(h, hs[0], hs[k]); }
        }
        SortedFront(h, hs);
      } else {
        CompareReverses(h, hs[0]);
        InsertedSorted(h, rest);
        BelowInserted(hs[0], h, rest);
        SortedFront(hs[0], Inserted(h, rest));
      }
    }
  }

  /** It answers as qsort has to: a permutation, in order whenever no flags clash. */
  lemma {:induction false} SortAnswers(hs: seq<Handler>)
    ensures QsortAnswer(hs, SortedTable(hs))
  {
    if hs != [] && OneEach(hs) {
      var rest := hs[1..];
      assert OneEach(rest);
      SortAnswers(rest);
      var sorted := SortedTable(rest);
      OneEachPermuted(sorted, rest);
      forall k | 0 <= k < |sorted|
        ensures Apart(hs[0], sorted[k])
      {
        assert sorted[k] in multiset(rest);
        var p :| 0 <= p < |rest| && rest[p] == sorted[k];
        assert Apart(hs[0], hs[p + 1]);
      }
      InsertedSorted(hs[0], sorted);
    }
  }

  /** The order and the flags of a table do not depend on its handlers. */
  lemma SameOrder(hs: seq<Handler>, hs': seq<Handler>)
    requires |hs'| == |hs| && forall i :: 0 <= i < |hs| ==> hs'[i] == hs[i].(handler := hs'[i].handler)
    ensures OneEach(hs') ==> OneEach(hs)
    ensures Sorted(hs) ==> Sorted(hs')
  {
    if OneEach(hs') {
      forall i, j | 0 <= i < j < |hs|
        ensures Apart(hs[i], hs[j])
      {
        assert Apart(hs'[i], hs'[j]);
      }
    }
    if Sorted(hs) {
      forall i, j | 0 <= i < j < |hs|
        ensures Compare(hs'[i], hs'[j]) <= 0
      {
        assert Compare(hs[i], hs[j]) <= 0;
      }
    }
  }

  predicate Matches(h: Handler, path: string)
  {
    h.handler.Some? && h.prefix <= path
  }

  /** Of two unflagged entries that match a path, the earlier one has the longer prefix. */
  lemma LongerFirst(hs: seq<Handler>, path: string, i: nat, j: nat)
    requires Sorted(hs) && i < j < |hs| && Matches(hs[i], path) && Matches(hs[j], path)
    requires !hs[i].first && !hs[i].last && !hs[j].first && !hs[j].last
    ensures |hs[i].prefix| >= |hs[j].prefix|
  {
    assert Compare(hs[i], hs[j]) <= 0;
    if |hs[i].prefix| < |hs[j].prefix| {
      assert hs[i].prefix == path[..|hs[i].prefix|] == hs[j].prefix[..|hs[i].prefix|];
      StrCmpPrefix(hs[i].prefix, hs[j].prefix);
    }
  }

  /** No unflagged entry matches the path with a longer prefix than entry i. */
  ghost predicate Longest(hs: seq<Handler>, path: string, i: nat)
    requires i < |hs|
  {
    forall j :: 0 <= j < |hs| && Matches(hs[j], path) && !hs[j].first && !hs[j].last ==> |hs[j].prefix| <= |hs[i].prefix|
  }

  /** The first unflagged entry that matches, empty prefixes passed over, has the longest prefix. */
  lemma LongestPrefixWins(hs: seq<Handler>, path: string, i: nat)
    requires Sorted(hs) && i < |hs| && Matches(hs[i], path) && !hs[i].first && !hs[i].last
    requires forall k :: 0 <= k < i && !hs[k].first && !hs[k].last && hs[k].prefix != "" ==> !Matches(hs[k], path)
    ensures Longest(hs, path, i)
  {
    forall j | i < j < |hs| && Matches(hs[j], path) && !hs[j].first && !hs[j].last
      ensures |hs[j].prefix| <= |hs[i].prefix|
    {
      LongerFirst(hs, path, i, j);
    }
  }

  /** In a sorted table without clashes, nothing precedes the first-flagged entry or follows the last-flagged one. */
  lemma FlagsOutside(hs: seq<Handler>, i: nat, j: nat)
    requires Sorted(hs) && OneEach(hs) && i < j < |hs|
    ensures !hs[j].first && !hs[i].last
  {
    assert Apart(hs[i], hs[j]);
    CompareReverses(hs[i], hs[j]);
  }

  /** The entries that match, in table order. */
  ghost function Matching(hs: seq<Handler>, path: string): (r: seq<Handler>)
  {
    if hs == [] then [] else
      Matching(hs[..|hs| - 1], path) + if Matches(hs[|hs| - 1], path) then [hs[|hs| - 1]] else []
  }

  /** They are the live entries whose prefix starts the path. */
  lemma {:induction false} MatchingMembers(hs: seq<Handler>, path: string)
    ensures forall h :: h in Matching(hs, path) <==> h in hs && h.handler.Some? && h.prefix <= path
  {
    if hs != [] {
      var init, last := hs[..|hs| - 1], hs[|hs| - 1];
      assert hs == init + [last];
      MatchingMembers(init, path);
    }
  }

  /** The first of a list that accepts, and all before it. */
  ghost function UpToAccept(hs: seq<Handler>, accepts: Handler -> bool): (r: seq<Handler>)
  {
    if hs == [] then [] else if accepts(hs[0]) then [hs[0]] else [hs[0]] + UpToAccept(hs[1..], accepts)
  }

  /** None but the last accepts, and none is passed over before an entry that accepts. */
  lemma {:induction false} UpToAcceptMembers(hs: seq<Handler>, accepts: Handler -> bool)
    ensures var r := UpToAccept(hs, accepts);
            && r <= hs && (forall k :: 0 <= k < |r| - 1 ==> !accepts(r[k]))
            && (r == hs || (r != [] && accepts(r[|r| - 1])))
  {
    if hs != [] && !accepts(hs[0]) {
      UpToAcceptMembers(hs[1..], accepts);
      assert hs == [hs[0]] + hs[1..];
    }
  }

  lemma {:induction false} UpToAcceptAppend(hs: seq<Handler>, tail: seq<Handler>, accepts: Handler -> bool)
    requires forall h :: h in hs ==> !accepts(h)
    ensures UpToAccept(hs + tail, accepts) == hs + UpToAccept(tail, accepts)
  {
    if hs == [] {
      assert hs + tail == tail;
    } else {
      UpToAcceptAppend(hs[1..], tail, accepts);
      assert (hs + tail)[1..] == hs[1..] + tail;
    }
  }

  lemma {:induction false} MatchingAppend(a: seq<Handler>, b: seq<Handler>, path: string)
    ensures Matching(a + b, path) == Matching(a, path) + Matching(b, path)
  {
    if b == [] {
      assert a + b == a;
    } else {
      MatchingAppend(a, b[..|b| - 1], path);
      assert (a + b)[..|a + b| - 1] == a + b[..|b| - 1];
    }
  }

  lemma MatchingStep(hs: seq<Handler>, path: string, i: nat)
    requires i < |hs|
    ensures Matching(hs[..i + 1], path) == Matching(hs[..i], path) + if Matches(hs[i], path) then [hs[i]] else []
  {
    assert hs[..i + 1][..i] == hs[..i];
  }

  /** The entry that accepts ends the calls. */
  lemma AcceptedAt(hs: seq<Handler>, path: string, i: nat, accepts: Handler -> bool)
    requires i < |hs| && Matches(hs[i], path) && accepts(hs[i])
    requires forall h :: h in Matching(hs[..i], path) ==> !accepts(h)
    ensures UpToAccept(Matching(hs, path), accepts) == Matching(hs[..i], path) + [hs[i]]
    ensures hs[i] in Matching(hs, path)
  {
    var before, after := Matching(hs[..i], path), Matching(hs[i + 1..], path);
    assert hs == hs[..i + 1] + hs[i + 1..];
    MatchingAppend(hs[..i + 1], hs[i + 1..], path);
    MatchingStep(hs, path, i);
    assert Matching(hs, path) == before + ([hs[i]] + after);
    UpToAcceptAppend(before, [hs[i]] + after, accepts);
  }

  lemma NoneAccepts(hs: seq<Handler>, accepts: Handler -> bool)
    requires forall h :: h in hs ==> !accepts(h)
    ensures UpToAccept(hs, accepts) == hs
  {
    UpToAcceptAppend(hs, [], accepts);
    assert hs + [] == hs;
  }

  // ----- The handler table -----

  class UrlHandlers {
    var table: seq<Handler>

    /** The table is sorted for as long as the flags in it do not clash. */
    ghost predicate Valid()
      reads this
    {
      OneEach(table) ==> Sorted(table)
    }

    constructor ()
      ensures Valid() && table == []
    {
      table := [];
    }

    /** Add an entry and sort; `sorted` is what qsort leaves in the table. */
    method Define(urlPrefix: string, webDir: string, arg: int, handler: int, first: bool, last: bool,
                  sorted: seq<Handler>)
      requires Valid()
      requires QsortAnswer(table + [Handler(urlPrefix, webDir, Some(handler), arg, first, last)], sorted)
      modifies this
      ensures Valid()
      ensures multiset(table) == old(multiset(table)) + multiset{Handler(urlPrefix, webDir, Some(handler), arg, first, last)}
    {
      if OneEach(sorted) {
        OneEachPermuted(table + [Handler(urlPrefix, webDir, Some(handler), arg, first, last)], sorted);
      }
      table := sorted;
    }

    /** The same with a sort that exists. */
    method DefineSorted(urlPrefix: string, webDir: string, arg: int, handler: int, first: bool, last: bool)
      requires Valid()
      modifies this
      ensures Valid()
      ensures multiset(table) == old(multiset(table)) + multiset{Handler(urlPrefix, webDir, Some(handler), arg, first, last)}
    {
      var all := table + [Handler(urlPrefix, webDir, Some(handler), arg, first, last)];
      SortAnswers(all);
      Define(urlPrefix, webDir, arg, handler, first, last, SortedTable(all));
    }

    /** Clear the first entry with this handler. */
    method Delete(handler: int) returns (rc: int)
      requires Valid()
      modifies this
      ensures Valid()
      ensures rc == 0 <==> exists i :: 0 <= i < |old(table)| && old(table)[i].handler == Some(handler)
      ensures rc == -1 ==> table == old(table)
      ensures rc == 0 ==>
                exists i :: 0 <= i < |old(table)| && old(table)[i].handler == Some(handler)
                  && (forall j :: 0 <= j < i ==> old(table)[j].handler != Some(handler))
                  && table == old(table)[i := old(table)[i].(handler := None)]
      ensures rc == 0 || rc == -1
    {
      var i := 0;
      while i < |table|
        invariant 0 <= i <= |table| && table == old(table)
        invariant forall j :: 0 <= j < i ==> table[j].handler != Some(handler)
      {
        if table[i].handler == Some(handler) {
          ghost var was := table;
          table := table[i := table[i].(handler := None)];
          SameOrder(was, table);
          return 0;
        }
        i := i + 1;
      }
      rc := -1;
    }

    /** The directory published for a path; entries with an empty prefix are passed over. */
    method GetPublishDir(path: string) returns (r: Option<(string, string)>)
      ensures r.None? ==> forall j :: 0 <= j < |table| && table[j].handler.Some? && table[j].prefix <= path ==> table[j].prefix == ""
      ensures r.Some? ==>
                exists i :: 0 <= i < |table| && table[i].handler.Some? && table[i].prefix != "" && table[i].prefix <= path
                  && r.value == (table[i].webDir, table[i].prefix)
                  && (forall j :: 0 <= j < i && table[j].handler.Some? && table[j].prefix <= path ==> table[j].prefix == "")
                  && (Sorted(table) && !table[i].first && !table[i].last ==> Longest(table, path, i))
    {
      var i := 0;
      while i < |table|
        invariant 0 <= i <= |table|
        invariant forall j :: 0 <= j < i && table[j].prefix != "" ==> !Matches(table[j], path)
      {
        if table[i].prefix != "" && Matches(table[i], path) {
          if Sorted(table) && !table[i].first && !table[i].last {
            LongestPrefixWins(table, path, i);
          }
          return Some((table[i].webDir, table[i].prefix));
        }
        i := i + 1;
      }
      r := None;
    }

    /** Call the matching handlers in table order until one accepts the request. */
    method Request(path: string, accepts: Handler -> bool) returns (called: seq<Handler>, accepted: bool)
      ensures called == UpToAccept(Matching(table, path), accepts)
      ensures accepted <==> exists h :: h in table && h.handler.Some? && h.prefix <= path && accepts(h)
      ensures forall h :: h in called ==> h in table && h.handler.Some? && h.prefix <= path
      ensures !accepted ==> forall h :: h in table && h.handler.Some? && h.prefix <= path ==> h in called
      ensures accepted ==> called != []
      ensures forall k :: 0 <= k < |called| ==> (accepts(called[k]) <==> accepted && k == |called| - 1)
    {
      MatchingMembers(table, path);
      UpToAcceptMembers(Matching(table, path), accepts);
      called := [];
      var i := 0;
      while i < |table|
        invariant 0 <= i <= |table| && called == Matching(table[..i], path)
        invariant forall h :: h in called ==> !accepts(h)
      {
        MatchingStep(table, path, i);
        if Matches(table[i], path) {
          if accepts(table[i]) {
            AcceptedAt(table, path, i, accepts);
            return called + [table[i]], true;
          }
          called := called + [table[i]];
        }
        i := i + 1;
      }
      assert table[..i] == table;
      NoneAccepts(called, accepts);
      accepted := false;
    }
  }

  // ----- Across operations -----

  /** No two entries have this handler. */
  ghost predicate OnceAtMost(table: seq<Handler>, handler: int)
  {
    forall i, j :: 0 <= i < j < |table| ==> !(table[i].handler == Some(handler) && table[j].handler == Some(handler))
  }

  /** Once deleted, a handler that one entry had is not called any more, and its directory is not published. */
  method DeleteAndRequest(handlers: UrlHandlers, handler: int, path: string, accepts: Handler -> bool)
    returns (called: seq<Handler>, dir: Option<(string, string)>)
    requires handlers.Valid() && OnceAtMost(handlers.table, handler)
    modifies handlers
    ensures handlers.Valid() && forall h :: h in called ==> h.handler.Some? && h.handler != Some(handler)
    ensures dir.Some? ==>
              exists h :: h in handlers.table && h.handler.Some? && h.handler != Some(handler) && dir.value == (h.webDir, h.prefix)
  {
    var rc := handlers.Delete(handler);
    assert forall h :: h in handlers.table ==> h.handler != Some(handler);
    var accepted;
    called, accepted := handlers.Request(path, accepts);
    dir := handlers.GetPublishDir(path);
  }

  lemma NewEntry(was: seq<Handler>, entry: Handler, table: seq<Handler>)
    requires multiset(table) == multiset(was) + multiset{entry}
    ensures entry in table
  {
    assert entry in multiset(table);
  }

  /** A handler that is defined is called for every path its prefix starts, unless another accepts the request. */
  method DefineAndRequest(handlers: UrlHandlers, entry: Handler, path: string, accepts: Handler -> bool)
    returns (called: seq<Handler>, accepted: bool)
    requires handlers.Valid() && entry.handler.Some? && entry.prefix <= path
    modifies handlers
    ensures handlers.Valid() && (entry in called || (accepted && called != [] && accepts(called[|called| - 1])))
    ensures accepts(entry) ==> accepted
  {
    ghost var was := handlers.table;
    handlers.DefineSorted(entry.prefix, entry.webDir, entry.arg, entry.handler.value, entry.first, entry.last);
    NewEntry(was, entry, handlers.table);
    called, accepted := handlers.Request(path, accepts);
  }

  // ----- Dispatch order -----

  lemma {:induction false} MatchingAt(hs: seq<Handler>, path: string, k: nat) returns (i: nat)
    requires k < |Matching(hs, path)|
    ensures i < |hs| && Matching(hs, path)[k] == hs[i] && Matches(hs[i], path) && |Matching(hs[..i], path)| == k
  {
    var init := hs[..|hs| - 1];
    if k < |Matching(init, path)| {
      i := MatchingAt(init, path, k);
      assert init[..i] == hs[..i];
    } else {
      i := |hs| - 1;
    }
  }

  lemma {:induction false} MatchingGrows(hs: seq<Handler>, path: string, i: nat, j: nat)
    requires i <= j <= |hs|
    ensures |Matching(hs[..i], path)| <= |Matching(hs[..j], path)|
  {
    assert hs[..j] == hs[..i] + hs[i..j];
    MatchingAppend(hs[..i], hs[i..j], path);
  }

  /**
   * A request tries its unflagged handlers from the longest matching prefix to the shortest, after
   * the one flagged first and before the one flagged last.
   */
  lemma DispatchOrder(hs: seq<Handler>, path: string, a: nat, b: nat)
    requires Sorted(hs) && OneEach(hs) && a < b < |Matching(hs, path)|
    ensures !Matching(hs, path)[b].first && !Matching(hs, path)[a].last
    ensures !Matching(hs, path)[a].first && !Matching(hs, path)[b].last ==>
              |Matching(hs, path)[a].prefix| >= |Matching(hs, path)[b].prefix|
  {
    var i := MatchingAt(hs, path, a);
    var j := MatchingAt(hs, path, b);
    if j <= i {
      MatchingGrows(hs, path, j, i);
    }
    FlagsOutside(hs, i, j);
    if !hs[i].first && !hs[j].last {
      LongerFirst(hs, path, i, j);
    }
  }

  // ----- Condensing runs of a character -----

  /** Runs of c cut down to one c. */
  ghost function Condensed(s: string, c: char): (r: string)
  {
    if |s| < 2 then s
    else if s[0] == c && s[1] == c then Condensed(s[1..], c)
    else [s[0]] + Condensed(s[1..], c)
  }

  ghost predicate NoPair(s: string, c: char)
  {
    forall i :: 0 <= i < |s| - 1 ==> !(s[i] == c && s[i + 1] == c)
  }

  lemma {:induction false} CondensedHasNoPair(s: string, c: char)
    ensures NoPair(Condensed(s, c), c)
    ensures s != "" ==> Condensed(s, c) != "" && Condensed(s, c)[0] == s[0]
  {
    if |s| >= 2 {
      CondensedHasNoPair(s[1..], c);
    }
  }

  lemma {:induction false} CondensedKeeps(s: string, c: char)
    requires NoPair(s, c)
    ensures Condensed(s, c) == s
  {
    if |s| >= 2 {
      assert !(s[0] == c && s[0 + 1] == c);
      var t := s[1..];
      assert NoPair(t, c) by {
        assert forall i :: 0 <= i < |t| - 1 ==> !(s[i + 1] == c && s[i + 1 + 1] == c) && t[i] == s[i + 1];
      }
      CondensedKeeps(s[1..], c);
      assert s == [s[0]] + s[1..];
    }
  }

  /** One c of a pair can be dropped first; with the two lemmas above this settles the result. */
  lemma {:induction false} CondensedDropsPairs(a: string, b: string, c: char)
    ensures Condensed(a + [c, c] + b, c) == Condensed(a + [c] + b, c)
  {
    var long, short := a + [c, c] + b, a + [c] + b;
    if a == "" {
      assert long[1..] == short;
    } else {
      CondensedDropsPairs(a[1..], b, c);
      assert long[1..] == a[1..] + [c, c] + b && short[1..] == a[1..] + [c] + b;
      assert long[0] == short[0] && long[1] == short[1];
    }
  }

  /** What is condensed so far, and what is left to scan. */
  ghost predicate Condensing(buf: seq<char>, s: string, c: char, str: nat, scan: nat)
  {
    && |buf| > |s| && str <= scan <= |s| && buf[|s|] == '\0'
    && (forall j :: str <= j < |s| ==> buf[j] == s[j])
    && buf[..str] + Condensed(s[scan..], c) == Condensed(s, c)
  }

  lemma CondenseSkip(buf: seq<char>, s: string, c: char, str: nat, scan: nat)
    requires Condensing(buf, s, c, str, scan) && scan + 1 < |s| && s[scan] == c && s[scan + 1] == c
    ensures Condensing(buf, s, c, str, scan + 1)
  {
    assert s[scan..][1..] == s[scan + 1..];
  }

  lemma CondenseCopy(buf: seq<char>, s: string, c: char, str: nat, scan: nat)
    requires Condensing(buf, s, c, str, scan) && scan < |s| && !(scan + 1 < |s| && s[scan] == c && s[scan + 1] == c)
    ensures Condensing(buf[str := s[scan]], s, c, str + 1, scan + 1)
  {
    assert s[scan..][1..] == s[scan + 1..];
    assert buf[str := s[scan]][..str + 1] == buf[..str] + [s[scan]];
  }

  /** Move the scan over all but the last c of a run. */
  method SkipRun(buf: array<char>, c: char, ghost s: string, ghost str: nat, from: nat) returns (scan: nat)
    requires Condensing(buf[..], s, c, str, from) && from < |s| && c != '\0'
    ensures from <= scan < |s| && Condensing(buf[..], s, c, str, scan)
    ensures !(scan + 1 < |s| && s[scan] == c && s[scan + 1] == c)
  {
    scan := from;
    while buf[scan] == c && buf[scan + 1] == c
      invariant from <= scan < |s| && Condensing(buf[..], s, c, str, scan)
      decreases |s| - scan
    {
      CondenseSkip(buf[..], s, c, str, scan);
      scan := scan + 1;
    }
  }

  /** Condense the NUL-terminated string in `buf`, in place; `end` is where its new NUL is. */
  method CondenseMultipleChars(buf: array<char>, c: char, ghost s: string) returns (ghost end: nat)
    requires buf.Length > |s| && buf[..|s|] == s && buf[|s|] == '\0'
    requires c != '\0' && forall i :: 0 <= i < |s| ==> s[i] != '\0'
    modifies buf
    ensures end <= |s| && buf[..end] == Condensed(s, c) && buf[end] == '\0'
  {
    var str, scan := 0, 0;
    assert s[0..] == s && buf[..0] == [] && [] + Condensed(s, c) == Condensed(s, c);
    while buf[scan] != '\0' && buf[str] != '\0'
      invariant 0 <= str <= scan <= |s| && Condensing(buf[..], s, c, str, scan)
      decreases |s| - scan
    {
      scan := SkipRun(buf, c, s, str, scan);
      ghost var was := buf[..];
      CondenseCopy(was, s, c, str, scan);
      if str != scan {
        buf[str] := buf[scan];
      }
      assert buf[..] == was[str := s[scan]];
      scan := scan + 1;
      str := str + 1;
    }
    assert scan == |s| && Condensed(s[scan..], c) == [];
    end := str;
    if str != scan {
      buf[str] := '\0';
    }
  }
}
