/** The access limit of a URL in um.c: the nearest one up its directory tree. */
module AccessLimits {
  import opened Basics
  import opened Database
  import opened Users

  predicate IsSeparator(c: char)
  {
    c == '/' || c == '\\'
  }

  // ----- Parents -----

  /** The URL without its trailing separators. */
  ghost function Bare(s: string): (r: string)
    ensures r <= s && (r != "" ==> !IsSeparator(r[|r| - 1]))
    ensures forall i :: |r| <= i < |s| ==> IsSeparator(s[i])
  {
    if s != "" && IsSeparator(s[|s| - 1]) then Bare(s[..|s| - 1]) else s
  }

  /** The URL up to and with its last separator. */
  ghost function Directory(s: string): (r: string)
    ensures r <= s && (r != "" ==> IsSeparator(r[|r| - 1]))
    ensures forall i :: |r| <= i < |s| ==> !IsSeparator(s[i])
  {
    if s != "" && !IsSeparator(s[|s| - 1]) then Directory(s[..|s| - 1]) else s
  }

  ghost function Parent(s: string): (r: string)
    ensures s != "" ==> |r| < |s|
  {
    assert Directory(Bare(s)) == s ==> s == "";
    Directory(Bare(s))
  }

  // ----- The nearest limit -----

  /** The URL itself if it has a limit, or else its nearest parent that has one. */
  ghost function Nearest(t: Table, url: string): (r: Option<string>)
    decreases |url|
  {
    if url == "" then None else if Named(t, url) then Some(url) else Nearest(t, Parent(url))
  }

  /** A prefix that ends where a path component of the URL begins, or the whole URL. */
  ghost predicate Ancestor(q: string, url: string)
  {
    && q != "" && q <= url
    && (q == url || ((q[|q| - 1] == '/' || q[|q| - 1] == '\\') && url[|q|] != '/' && url[|q|] != '\\'))
  }

  /** The parent's ancestors are the URL's, except the URL itself. */
  lemma ParentAncestors(q: string, url: string)
    requires url != ""
    ensures Ancestor(q, Parent(url)) <==> Ancestor(q, url) && q != url
  {
    var u, p := Bare(url), Parent(url);
    assert p <= u <= url;
    if Ancestor(q, url) && q != url {
      assert url[|q| - 1] == q[|q| - 1];
      assert |q| <= |u|;
      assert u[|q| - 1] == url[|q| - 1];
      assert |q| <= |p|;
    }
    if Ancestor(q, p) && q == p {
      assert u[|p|] == url[|p|];
    }
  }

  /** The nearest limit is the longest ancestor that has one; there is none exactly when no ancestor has. */
  lemma {:induction false} NearestIsLongest(t: Table, url: string, q: string)
    ensures Nearest(t, url).Some? ==> Ancestor(Nearest(t, url).value, url) && Named(t, Nearest(t, url).value)
    ensures Ancestor(q, url) && Named(t, q) ==> Nearest(t, url).Some? && |q| <= |Nearest(t, url).value|
    decreases |url|
  {
    if url != "" && !Named(t, url) {
      NearestIsLongest(t, Parent(url), q);
      ParentAncestors(q, url);
      if Nearest(t, Parent(url)).Some? {
        ParentAncestors(Nearest(t, Parent(url)).value, url);
      }
    }
  }

  // ----- The scan -----

  method AccessLimitExists(db: Database, url: string) returns (r: bool)
    requires Schema(db.tables)
    ensures r <==> Named(db.tables[2], url)
  {
    TableIds(db.tables);
    AccessColumnIds();
    FindKey(db.tables[2], url);
    StringsComparable(db.tables, ACCESS, "name", url, 0);
    var row := db.SearchStr(ACCESS, "name", url, 0);
    r := row >= 0;
  }

  /** Overwrite trailing separators with NULs. */
  method TrimSeparators(buf: array<char>, len: nat) returns (len': nat)
    requires 0 < len < buf.Length
    modifies buf
    ensures len' <= len && buf[..len'] == Bare(old(buf[..len])) && (len' < len ==> buf[len'] == '\0')
  {
    ghost var s := buf[..len];
    len' := len;
    assert s[..len'] == s;
    while len' > 0 && IsSeparator(buf[len' - 1])
      invariant len' <= len && buf[..len'] == s[..len'] && Bare(s[..len']) == Bare(s)
      invariant len' < len ==> buf[len'] == '\0'
    {
      assert s[..len'][..len' - 1] == s[..len' - 1];
      buf[len' - 1] := '\0';
      len' := len' - 1;
    }
  }

  /** Overwrite the last component with NULs. */
  method TrimComponent(buf: array<char>, len: nat) returns (len': nat)
    requires len < buf.Length
    modifies buf
    ensures len' <= len && buf[..len'] == Directory(old(buf[..len]))
    ensures if len' < len then buf[len'] == '\0' else buf[len] == old(buf[len])
  {
    ghost var s := buf[..len];
    len' := len;
    assert s[..len'] == s;
    while len' > 0 && !IsSeparator(buf[len' - 1])
      invariant len' <= len && buf[..len'] == s[..len'] && Directory(s[..len']) == Directory(s)
      invariant if len' < len then buf[len'] == '\0' else buf[len] == old(buf[len])
    {
      assert s[..len'][..len' - 1] == s[..len' - 1];
      buf[len' - 1] := '\0';
      len' := len' - 1;
    }
  }

  /** Trim the URL in the buffer to its parent. */
  method TrimToParent(buf: array<char>, len: nat) returns (len': nat)
    requires 0 < len < buf.Length
    modifies buf
    ensures len' < len && buf[..len'] == Parent(old(buf[..len])) && buf[len'] == '\0'
  {
    ghost var s := buf[..len];
    len' := TrimSeparators(buf, len);
    len' := TrimComponent(buf, len');
    assert buf[..len'] == Parent(s);
  }

  /** Check the URL and then its parents for a limit. */
  method GetAccessLimit(db: Database, url: string) returns (urlRet: Option<string>)
    requires Schema(db.tables)
    ensures urlRet == Nearest(db.tables[2], url)
  {
    var urlCheck := new char[|url| + 1](i requires 0 <= i <= |url| => if i < |url| then url[i] else '\0');
    var len := |url|;
    assert urlCheck[..len] == url;
    while len > 0
      invariant 0 <= len < urlCheck.Length && Nearest(db.tables[2], urlCheck[..len]) == Nearest(db.tables[2], url)
    {
      var found := AccessLimitExists(db, urlCheck[..len]);
      if found {
        return Some(urlCheck[..len]);
      }
      len := TrimToParent(urlCheck, len);
    }
    urlRet := None;
  }
}
