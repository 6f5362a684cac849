/** The symbol table of sym.c: a hash table of chains, with a walk over all entries. */
module SymbolTable {
  import opened Basics

  type Name = seq<Byte>
  datatype Sym<V> = Sym(name: Name, content: V, arg: int)

  // ----- Table sizes -----

  ghost predicate Prime(n: int)
  {
    n >= 2 && forall d :: 2 <= d < n ==> n % d != 0
  }

  /** A divisor above n / 2 would leave a quotient below 2. */
  lemma NoLargeDivisor(n: nat, d: nat)
    requires n / 2 < d < n
    ensures n % d != 0
  {
    assert n / d == 1 by {
      assert d * 1 <= n < d * 2;
      QuotientOne(n, d);
    }
    assert n == d * (n / d) + n % d;
  }

  lemma QuotientOne(n: nat, d: nat)
    requires 0 < d <= n < 2 * d
    ensures n / d == 1
  {
    var q, r := n / d, n % d;
    assert n == d * q + r;
    assert q >= 2 ==> d * q >= d * 2;
  }

  /** Trial division up to n / 2. The number 1 is let through. */
  method IsPrime(n: nat) returns (r: bool)
    requires n > 0
    ensures r <==> n == 1 || Prime(n)
  {
    var max := n / 2;
    var i := 2;
    while i <= max
      invariant 2 <= i && (i > 2 ==> i <= max + 1)
      invariant forall d :: 2 <= d < i ==> n % d != 0
    {
      if n % i == 0 {
        return false;
      }
      i := i + 1;
    }
    forall d | 2 <= d < n
      ensures n % d != 0
    {
      if d > max { NoLargeDivisor(n, d); }
    }
    r := true;
  }

  /** The largest prime not above size; 1 for a size of 1. */
  method CalcPrime(size: nat) returns (p: nat)
    ensures size < 2 ==> p == 1
    ensures size >= 2 ==> p <= size && Prime(p) && forall k :: p < k <= size ==> !Prime(k)
  {
    p := size;
    while p > 0
      invariant 0 <= p <= size && (size >= 2 ==> p >= 2)
      invariant size == 1 ==> p == 1
      invariant forall k :: p < k <= size ==> !Prime(k)
      decreases p
    {
      var prime := IsPrime(p);
      if prime {
        return;
      }
      assert p != 2 by { assert Prime(2); }
      p := p - 1;
    }
    p := 1;
  }

  // ----- Hashing -----

  /** A character shifted left by i bits. */
  function Shifted(c: int, i: nat): (r: int)
  {
    c * Pow2(i)
  }

  lemma ShiftCycle(j: nat)
    ensures 7 * (j + 1) % 24 == (7 * j % 24 + 7) % 24
  {
    var q, r := 7 * j / 24, 7 * j % 24;
    Remainder24(7 * (j + 1), if r < 17 then q else q + 1, if r < 17 then r + 7 else r - 17);
    Remainder24(r + 7, if r < 17 then 0 else 1, if r < 17 then r + 7 else r - 17);
  }

  lemma Remainder24(x: nat, q: nat, r: nat)
    requires x == 24 * q + r && r < 24
    ensures x % 24 == r
  {
  }

  /** The first characters of a name are shifted by 0, 7, 14 and 21 bits, and the fifth by 4. */
  lemma ShortHash(a: Byte, b: Byte, c: Byte, d: Byte, e: Byte)
    ensures HashSum([a]) == a && HashSum([a, b]) == a + 128 * b && HashSum([a, b, c]) == a + 128 * b + 16384 * c
    ensures HashSum([a, b, c, d, e]) == a + 128 * b + 16384 * c + 2097152 * d + 16 * e
  {
    Powers();
    assert HashSum([]) == 0;
    HashNext([], a, 0, 0, 1, [a]);
    HashNext([a], b, a, 7, 128, [a, b]);
    HashNext([a, b], c, a + 128 * b, 14, 16384, [a, b, c]);
    HashNext([a, b, c], d, a + 128 * b + 16384 * c, 21, 2097152, [a, b, c, d]);
    HashNext([a, b, c, d], e, a + 128 * b + 16384 * c + 2097152 * d, 4, 16, [a, b, c, d, e]);
  }

  lemma HashNext(name: Name, c: Byte, sum: nat, i: nat, p: nat, name': Name)
    requires HashSum(name) == sum && i == 7 * |name| % 24 && Pow2(i) == p && sum + p * c < 0x1_0000_0000 && name' == name + [c]
    ensures HashSum(name') == sum + p * c
  {
    HashUnfold(name, c, name');
    HashSmall(sum, c, i, p);
  }

  lemma HashUnfold(name: Name, c: Byte, name': Name)
    requires name' == name + [c]
    ensures HashSum(name') == HashStep(HashSum(name), c, 7 * |name| % 24)
  {
    assert name'[..|name|] == name;
  }

  lemma HashSmall(sum: nat, c: Byte, i: nat, p: nat)
    requires Pow2(i) == p && sum + p * c < 0x1_0000_0000
    ensures HashStep(sum, c, i) == sum + p * c
  {
    var v := p * c;
    assert Shifted(c, i) == v;
  }

  lemma Powers()
    ensures Pow2(0) == 1 && Pow2(4) == 16 && Pow2(7) == 128 && Pow2(14) == 16384 && Pow2(21) == 2097152
  {
    assert Pow2(4) == 16 && Pow2(10) == 1024 && Pow2(17) == 131072;
  }

  /** The sum with one more character, kept in 32 bits. */
  function HashStep(sum: nat, c: Byte, i: nat): (r: nat)
  {
    (sum + Shifted(c, i)) % 0x1_0000_0000
  }

  /** Character j is shifted up by 7 * j bits modulo 24, and the sum wraps at 32 bits. */
  ghost function HashSum(name: Name): (sum: nat)
  {
    if name == [] then 0 else
      var j := |name| - 1;
      HashStep(HashSum(name[..j]), name[j], 7 * j % 24)
  }

  method HashIndex(size: nat, name: Name) returns (h: nat)
    requires size > 0
    ensures h == HashSum(name) % size && h < size
  {
    var i, sum := 0, 0;
    for j := 0 to |name|
      invariant i == 7 * j % 24 && sum == HashSum(name[..j])
    {
      assert name[..j + 1][..j] == name[..j];
      ShiftCycle(j);
      sum := HashStep(sum, name[j], i);
      i := (i + 7) % 24;
    }
    assert name[..|name|] == name;
    h := sum % size;
  }

  // ----- Chains -----

  /** The first entry of a chain with this name. */
  ghost function Find<V>(chain: seq<Sym<V>>, name: Name): (r: Option<Sym<V>>)
  {
    if chain == [] then None else if chain[0].name == name then Some(chain[0]) else Find(chain[1..], name)
  }

  ghost predicate Distinct<V>(chain: seq<Sym<V>>)
  {
    forall i, j :: 0 <= i < j < |chain| ==> chain[i].name != chain[j].name
  }

  lemma {:induction false} FindAt<V>(chain: seq<Sym<V>>, name: Name, k: nat)
    requires k <= |chain| && forall i :: 0 <= i < k ==> chain[i].name != name
    ensures k < |chain| && chain[k].name == name ==> Find(chain, name) == Some(chain[k])
    ensures k == |chain| ==> Find(chain, name) == None
  {
    if k > 0 { FindAt(chain[1..], name, k - 1); }
  }

  lemma {:induction false} FindUpdate<V>(chain: seq<Sym<V>>, k: nat, s: Sym<V>, n: Name)
    requires k < |chain| && Distinct(chain) && s.name == chain[k].name
    ensures Find(chain[k := s], n) == if n == s.name then Some(s) else Find(chain, n)
  {
    if k > 0 {
      FindUpdate(chain[1..], k - 1, s, n);
      assert chain[k := s][1..] == chain[1..][k - 1 := s];
    }
  }

  lemma {:induction false} FindAppend<V>(chain: seq<Sym<V>>, s: Sym<V>, n: Name)
    requires forall i :: 0 <= i < |chain| ==> chain[i].name != s.name
    ensures Find(chain + [s], n) == if n == s.name then Some(s) else Find(chain, n)
  {
    if chain != [] {
      FindAppend(chain[1..], s, n);
      assert (chain + [s])[1..] == chain[1..] + [s];
    }
  }

  lemma {:induction false} FindRemove<V>(chain: seq<Sym<V>>, k: nat, n: Name)
    requires k < |chain| && Distinct(chain)
    ensures Find(chain[..k] + chain[k + 1..], n) == if n == chain[k].name then None else Find(chain, n)
  {
    if k == 0 {
      assert chain[..0] + chain[1..] == chain[1..];
      if n == chain[0].name { FindAt(chain[1..], n, |chain| - 1); }
    } else {
      FindRemove(chain[1..], k - 1, n);
      assert (chain[..k] + chain[k + 1..])[1..] == chain[1..][..k - 1] + chain[1..][k..];
    }
  }

  /** The entries of consecutive chains, in the order a walk meets them. */
  ghost function Flatten<V>(chains: seq<seq<Sym<V>>>): (r: seq<Sym<V>>)
  {
    if chains == [] then [] else chains[0] + Flatten(chains[1..])
  }

  /** What is left of a walk that stands at `next` in chain i. */
  ghost function Rest<V>(chains: seq<seq<Sym<V>>>, i: nat, next: seq<Sym<V>>): (r: seq<Sym<V>>)
  {
    if i >= |chains| then [] else next + Flatten(chains[i + 1..])
  }

  /** At the end of a chain, the walk goes on with the next one. */
  lemma RestNext<V>(chains: seq<seq<Sym<V>>>, i: nat, next: seq<Sym<V>>)
    requires i < |chains|
    requires i + 1 < |chains| ==> next == chains[i + 1]
    ensures Rest(chains, i, []) == Rest(chains, i + 1, next)
  {
    if i + 1 < |chains| {
      assert chains[i + 1..][0] == chains[i + 1] && chains[i + 1..][1..] == chains[i + 2..];
    }
  }

  // ----- Tables and maps -----

  /** The chain that holds a name is the one its hash selects. */
  ghost predicate Homed<V>(chain: seq<Sym<V>>, size: nat, h: nat)
    requires size > 0
  {
    forall i :: 0 <= i < |chain| ==> HashSum(chain[i].name) % size == h
  }

  ghost predicate ChainOk<V>(chains: seq<seq<Sym<V>>>, h: nat)
    requires h < |chains|
  {
    Distinct(chains[h]) && Homed(chains[h], |chains|, h)
  }

  /** Searching a name's chain finds what the map holds for it. */
  ghost predicate Agrees<V>(chains: seq<seq<Sym<V>>>, content: map<Name, Sym<V>>, n: Name)
    requires |chains| > 0
  {
    Find(chains[HashSum(n) % |chains|], n) == if n in content then Some(content[n]) else None
  }

  ghost predicate TableOk<V>(chains: seq<seq<Sym<V>>>, content: map<Name, Sym<V>>)
  {
    && |chains| > 0
    && (forall h :: 0 <= h < |chains| ==> ChainOk(chains, h))
    && (forall n :: Agrees(chains, content, n))
  }

  /** Changing the chain at h leaves what other names find, when the new chain agrees on them. */
  lemma AgreesKept<V>(chains: seq<seq<Sym<V>>>, content: map<Name, Sym<V>>, home: nat, h: nat,
                      chain: seq<Sym<V>>, n: Name)
    requires h < |chains| && home == HashSum(n) % |chains|
    requires Agrees(chains, content, n)
    requires home == h ==> Find(chain, n) == Find(chains[h], n)
    ensures Agrees(chains[h := chain], content, n)
  {
  }

  /** Changing one name's chain, and the map at that name only, keeps the two in agreement. */
  lemma ReplaceChain<V>(chains: seq<seq<Sym<V>>>, content: map<Name, Sym<V>>, name: Name, h: nat,
                        chain: seq<Sym<V>>, content': map<Name, Sym<V>>)
    requires TableOk(chains, content) && h == HashSum(name) % |chains|
    requires Distinct(chain) && Homed(chain, |chains|, h)
    requires forall n :: n != name ==> Find(chain, n) == Find(chains[h], n)
    requires forall n :: n != name ==> (n in content' <==> n in content) && (n in content ==> content'[n] == content[n])
    requires Find(chain, name) == if name in content' then Some(content'[name]) else None
    ensures TableOk(chains[h := chain], content')
  {
    var chains' := chains[h := chain];
    forall k | 0 <= k < |chains'|
      ensures ChainOk(chains', k)
    {
      assert ChainOk(chains, k);
    }
    forall n
      ensures Agrees(chains', content', n)
    {
      if n != name {
        assert Agrees(chains, content, n);
        AgreesKept(chains, content, HashSum(n) % |chains|, h, chain, n);
      }
    }
  }

  // ----- The table -----

  class SymTab<V> {
    var chains: seq<seq<Sym<V>>>     // one chain per hash value
    var htIndex: nat                 // where the walk is
    var next: seq<Sym<V>>            // the rest of the chain at the walk's next entry
    ghost var content: map<Name, Sym<V>>

    ghost predicate Valid()
      reads this
    {
      TableOk(chains, content)
    }

    constructor (hashSize: nat)
      ensures Valid() && content == map[]
      ensures hashSize >= 2 ==> Prime(|chains|)
    {
      var size := CalcPrime(hashSize);
      chains, htIndex, next := seq(size, _ => []), 0, [];
      content := map[];
    }

    /** The position of a name in a chain, or the chain's length. */
    method Search(chain: seq<Sym<V>>, name: Name) returns (k: nat)
      ensures k <= |chain| && (forall i :: 0 <= i < k ==> chain[i].name != name)
      ensures k < |chain| ==> chain[k].name == name
    {
      k := 0;
      while k < |chain|
        invariant k <= |chain| && forall i :: 0 <= i < k ==> chain[i].name != name
      {
        if chain[k].name == name {
          return;
        }
        k := k + 1;
      }
    }

    method Lookup(name: Name) returns (r: Option<Sym<V>>)
      requires Valid()
      ensures r == if name != [] && name in content then Some(content[name]) else None
    {
      if name == [] {
        return None;
      }
      var h := HashIndex(|chains|, name);
      var k := Search(chains[h], name);
      FindAt(chains[h], name, k);
      assert Agrees(chains, content, name);
      r := if k < |chains[h]| then Some(chains[h][k]) else None;
    }

    /** Replace the entry of a known name, or append to the chain of a new one. */
    method Enter(name: Name, v: V, arg: int)
      requires Valid()
      modifies this`chains, this`content
      ensures Valid() && |chains| == old(|chains|)
      ensures content == old(content)[name := Sym(name, v, arg)]
    {
      var s := Sym(name, v, arg);
      var h := HashIndex(|chains|, name);
      assert ChainOk(chains, h);
      var chain := chains[h];
      var k := Search(chain, name);
      var chain' := if k < |chain| then chain[k := s] else chain + [s];
      forall n: Name
        ensures Find(chain', n) == if n == name then Some(s) else Find(chain, n)
      {
        if k < |chain| { FindUpdate(chain, k, s, n); } else { FindAppend(chain, s, n); }
      }
      ReplaceChain(chains, content, name, h, chain', content[name := s]);
      chains := chains[h := chain'];
      content := content[name := s];
    }

    method Delete(name: Name) returns (rc: int)
      requires Valid()
      modifies this`chains, this`content
      ensures Valid() && |chains| == old(|chains|)
      ensures rc == (if name in old(content) then 0 else -1)
      ensures content == old(content) - {name}
    {
      var h := HashIndex(|chains|, name);
      assert ChainOk(chains, h) && Agrees(chains, content, name);
      var chain := chains[h];
      var k := Search(chain, name);
      FindAt(chain, name, k);
      if k == |chain| {
        return -1;
      }
      var chain' := chain[..k] + chain[k + 1..];
      forall n: Name
        ensures Find(chain', n) == if n == name then None else Find(chain, n)
      {
        FindRemove(chain, k, n);
      }
      ReplaceChain(chains, content, name, h, chain', content - {name});
      chains := chains[h := chain'];
      content := content - {name};
      rc := 0;
    }

    /** The value of a slot of the hash table; the slot just past its end holds anything. */
    function Slot(k: nat, junk: seq<Sym<V>>): (chain: seq<Sym<V>>)
      reads this
    {
      if k < |chains| then chains[k] else junk
    }

    /** What a walk has yet to return. */
    ghost function Ahead(): (r: seq<Sym<V>>)
      reads this
    {
      Rest(chains, htIndex, next)
    }

    /** Step the walk over the entry at the head of `sp` in chain i. */
    method StepOver(sp: seq<Sym<V>>, i: nat, junk: seq<Sym<V>>)
      requires sp != [] && i < |chains|
      modifies this`htIndex, this`next
      ensures Rest(chains, i, sp) == [sp[0]] + Ahead()
    {
      var forw := sp[1..];
      assert sp == [sp[0]] + forw;
      if forw == [] {
        htIndex := i + 1;
        next := Slot(htIndex, junk);
        RestNext(chains, i, next);
      } else {
        htIndex := i;
        next := forw;
      }
    }

    method First(junk: seq<Sym<V>>) returns (r: Option<Sym<V>>)
      modifies this`htIndex, this`next
      ensures r.None? ==> Flatten(chains) == []
      ensures r.Some? ==> Flatten(chains) == [r.value] + Ahead()
    {
      var i := 0;
      while i < |chains|
        invariant 0 <= i <= |chains| && Flatten(chains) == Flatten(chains[i..])
      {
        assert chains[i..][0] == chains[i] && chains[i..][1..] == chains[i + 1..];
        if chains[i] != [] {
          StepOver(chains[i], i, junk);
          return Some(chains[i][0]);
        }
        i := i + 1;
      }
      r := None;
    }

    method Next(junk: seq<Sym<V>>) returns (r: Option<Sym<V>>)
      modifies this`htIndex, this`next
      ensures r.None? ==> old(Ahead()) == []
      ensures r.Some? ==> old(Ahead()) == [r.value] + Ahead()
    {
      var i := htIndex;
      ghost var all := Ahead();
      while i < |chains|
        invariant htIndex <= i && htIndex == old(htIndex)
        invariant all == Rest(chains, i, next)
      {
        if next != [] {
          r := Some(next[0]);
          StepOver(next, i, junk);
          return;
        }
        next := Slot(i + 1, junk);
        RestNext(chains, i, next);
        i := i + 1;
      }
      r := None;
    }

    /** A walk from First to the end returns every entry once, whatever lies past the table. */
    method Walk(junk: seq<Sym<V>>) returns (all: seq<Sym<V>>)
      modifies this`htIndex, this`next
      ensures all == Flatten(chains)
    {
      var r := First(junk);
      all := [];
      ghost var entries := Flatten(chains);
      while r.Some?
        invariant entries == if r.Some? then all + ([r.value] + Ahead()) else all
        decreases |entries| - |all|
      {
        Regroup(all, [r.value], Ahead());
        all := all + [r.value];
        r := Next(junk);
      }
    }
  }

  // ----- What a walk lists -----

  lemma {:induction false} FindMember<V>(chain: seq<Sym<V>>, n: Name)
    requires Distinct(chain)
    ensures forall s :: s in chain && s.name == n <==> Find(chain, n) == Some(s)
  {
    if chain != [] {
      FindMember(chain[1..], n);
      assert forall s :: s in chain <==> s == chain[0] || s in chain[1..];
    }
  }

  lemma {:induction false} FlattenMember<V>(chains: seq<seq<Sym<V>>>, s: Sym<V>)
    ensures s in Flatten(chains) <==> exists h :: 0 <= h < |chains| && s in chains[h]
  {
    if chains != [] {
      FlattenMember(chains[1..], s);
      assert forall h :: 0 <= h < |chains| - 1 ==> chains[1..][h] == chains[h + 1];
      if h :| 0 <= h < |chains| && s in chains[h] {
        assert h > 0 ==> s in chains[1..][h - 1];
      }
    }
  }

  lemma {:induction false} FlattenDistinct<V>(chains: seq<seq<Sym<V>>>, size: nat, base: nat)
    requires size > 0
    requires forall h :: 0 <= h < |chains| ==> Distinct(chains[h])
    requires forall h, i :: 0 <= h < |chains| && 0 <= i < |chains[h]| ==> HashSum(chains[h][i].name) % size == base + h
    ensures Distinct(Flatten(chains))
    ensures forall i :: 0 <= i < |Flatten(chains)| ==> HashSum(Flatten(chains)[i].name) % size >= base
  {
    if chains != [] {
      assert forall h :: 0 <= h < |chains| - 1 ==> chains[1..][h] == chains[h + 1];
      FlattenDistinct(chains[1..], size, base + 1);
      var a: seq<Sym<V>>, b: seq<Sym<V>> := chains[0], Flatten(chains[1..]);
      var all: seq<Sym<V>> := a + b;
      forall i, j | 0 <= i < j < |all|
        ensures all[i].name != all[j].name
      {
        if i < |a| <= j {
          assert HashSum(a[i].name) % size == base;
          assert HashSum(b[j - |a|].name) % size >= base + 1;
        }
      }
    }
  }

  /** The walk lists every entry of the map, nothing else, and no name twice. */
  lemma WalkListsMap<V>(chains: seq<seq<Sym<V>>>, content: map<Name, Sym<V>>)
    requires TableOk(chains, content)
    ensures Distinct(Flatten(chains))
    ensures forall s :: s in Flatten(chains) <==> s.name in content && content[s.name] == s
  {
    forall h | 0 <= h < |chains| ensures Distinct(chains[h]) { assert ChainOk(chains, h); }
    forall h, i | 0 <= h < |chains| && 0 <= i < |chains[h]|
      ensures HashSum(chains[h][i].name) % |chains| == 0 + h
    {
      assert ChainOk(chains, h);
    }
    FlattenDistinct(chains, |chains|, 0);
    forall s
      ensures s in Flatten(chains) <==> s.name in content && content[s.name] == s
    {
      FlattenMember(chains, s);
      var h := HashSum(s.name) % |chains|;
      FindMember(chains[h], s.name);
      assert Agrees(chains, content, s.name);
    }
  }
}
