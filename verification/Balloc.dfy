/** The block allocator of balloc.c: size classes with free queues linked through the blocks of one arena. */
module Balloc {
  import opened Basics

  // Addresses are integers, 0 is NULL, and a block header (a link or size word, and flags) takes 8 bytes.
  const HEADER: nat := 8
  const B_MAX_CLASS: nat := 13
  const B_DEFAULT_MEM: nat := 65536
  const B_MALLOCED: bv32 := 0x8000_0000
  const B_FILL_WORD: bv32 := 0x7777_7777
  const B_INTEGRITY: bv32 := 0x0812_4000
  const B_INTEGRITY_MASK: bv32 := 0x0FFF_F000
  const INT_LIMIT: int := 0x8000_0000

  // ----- Size classes -----

  function DataSize(q: nat): (n: nat)
    ensures n >= 16
  {
    if q == 0 then 16 else 2 * DataSize(q - 1)
  }

  /** The classes hold 16, 32, 64 bytes and so on. */
  lemma {:induction false} DataSizeIs(q: nat)
    ensures DataSize(q) == 16 * Pow2(q)
  {
    if q > 0 { DataSizeIs(q - 1); }
  }

  function BlockSize(q: nat): (n: nat)
  {
    DataSize(q) + HEADER
  }

  lemma {:induction false} DataSizeGrows(q: nat, r: nat)
    requires q < r
    ensures DataSize(q) < DataSize(r)
    decreases r
  {
    if q < r - 1 { DataSizeGrows(q, r - 1); }
  }

  /** q is the least class whose data size holds `size`. */
  ghost predicate IsClass(size: nat, q: nat)
  {
    size <= DataSize(q) && (q > 0 ==> DataSize(q - 1) < size)
  }

  function ClassOf(size: nat): (q: nat)
    ensures IsClass(size, q)
  {
    if size <= 16 then 0 else 1 + ClassOf((size + 1) / 2)
  }

  lemma {:induction false} ClassUnique(size: nat, q: nat, r: nat)
    requires IsClass(size, q) && IsClass(size, r)
    ensures q == r
  {
    if q < r {
      if q < r - 1 { DataSizeGrows(q, r - 1); }
    } else if r < q {
      if r < q - 1 { DataSizeGrows(r, q - 1); }
    }
  }

  /** Freeing a block looks up the class it was cut from. */
  lemma {:induction false} ClassOfDataSize(q: nat)
    ensures ClassOf(DataSize(q)) == q
  {
    if q > 0 { DataSizeGrows(q - 1, q); }
    ClassUnique(DataSize(q), ClassOf(DataSize(q)), q);
  }

  /** Count the bits of (size - 1) >> 4. */
  method GetSize(size: nat) returns (memSize: nat, q: nat)
    ensures q == ClassOf(size) && memSize == BlockSize(q)
  {
    var mask := if size == 0 then 0 else (size - 1) / 16;
    q, memSize := 0, 16;
    ghost var rest := size;
    while mask != 0
      invariant mask == if rest == 0 then 0 else (rest - 1) / 16
      invariant q + ClassOf(rest) == ClassOf(size)
      invariant memSize == DataSize(q)
      decreases mask
    {
      mask := mask / 2;
      rest := (rest + 1) / 2;
      q, memSize := q + 1, 2 * memSize;
    }
    memSize := memSize + HEADER;
  }

  // ----- The arena -----

  /** The word is the data size of a live block and the link of a queued one. */
  datatype Header = Header(word: int, flags: bv32)

  ghost predicate Apart(a: int, n: int, b: int, m: int)
  {
    a + n <= b || b + m <= a
  }

  /** Where the block at `a` ends. */
  ghost function End(cls: map<int, nat>, a: int): (e: int)
    requires a in cls
  {
    a + BlockSize(cls[a])
  }

  /**
   * The blocks of `cls` (class by address) tile [base, end): they do not overlap, the first starts
   * at base, and each ends where another starts or at the end.
   */
  ghost predicate Tiled(cls: map<int, nat>, base: int, end: int)
  {
    && base <= end && (base == end || base in cls)
    && (forall a :: a in cls ==> base <= a && a + BlockSize(cls[a]) <= end)
    && (forall a {:trigger End(cls, a)} :: a in cls ==> End(cls, a) == end || End(cls, a) in cls)
    && (forall a, b :: a in cls && b in cls && a != b ==> Apart(a, BlockSize(cls[a]), b, BlockSize(cls[b])))
  }

  /** Every address of a tiled stretch lies in one of its blocks: walk from block to block. */
  lemma {:induction false} TiledCovers(cls: map<int, nat>, base: int, end: int, from: int, x: int) returns (a: int)
    requires Tiled(cls, base, end) && from in cls && from <= x < end
    ensures a in cls && a <= x < a + BlockSize(cls[a])
    decreases x - from
  {
    if x < End(cls, from) {
      a := from;
    } else {
      a := TiledCovers(cls, base, end, End(cls, from), x);
    }
  }

  // ----- Free queues -----

  /** Following the links from p visits exactly the addresses of s. */
  ghost predicate Chain(mem: map<int, Header>, p: int, s: seq<int>)
    decreases s
  {
    if s == [] then p == 0 else p == s[0] && p in mem && Chain(mem, mem[p].word, s[1..])
  }

  lemma {:induction false} ChainFrame(mem: map<int, Header>, mem': map<int, Header>, p: int, s: seq<int>)
    requires Chain(mem, p, s)
    requires forall a :: a in s && a in mem ==> a in mem' && mem'[a] == mem[a]
    ensures Chain(mem', p, s)
    decreases s
  {
    if s != [] { ChainFrame(mem, mem', mem[p].word, s[1..]); }
  }

  ghost predicate NoDup(s: seq<int>)
  {
    forall i, j :: 0 <= i < j < |s| ==> s[i] != s[j]
  }

  /** Queue q holds distinct blocks of class q, each marked as free. */
  ghost predicate QueueOk(mem: map<int, Header>, cls: map<int, nat>, head: int, s: seq<int>, q: nat)
  {
    && Chain(mem, head, s) && NoDup(s)
    && forall a :: a in s ==> a in cls && cls[a] == q && a in mem && mem[a].flags == B_FILL_WORD
  }

  lemma QueuePop(mem: map<int, Header>, cls: map<int, nat>, head: int, s: seq<int>, q: nat, h: Header)
    requires QueueOk(mem, cls, head, s, q) && s != []
    ensures head in mem && head !in s[1..]
    ensures QueueOk(mem[head := h], cls, mem[head].word, s[1..], q)
  {
    ChainFrame(mem, mem[head := h], mem[head].word, s[1..]);
  }

  lemma QueuePush(mem: map<int, Header>, cls: map<int, nat>, head: int, s: seq<int>, q: nat, a: int)
    requires QueueOk(mem, cls, head, s, q)
    requires a in cls && cls[a] == q && a in mem && a !in s
    ensures QueueOk(mem[a := Header(head, B_FILL_WORD)], cls, a, [a] + s, q)
  {
    ChainFrame(mem, mem[a := Header(head, B_FILL_WORD)], head, s);
    assert ([a] + s)[1..] == s;
  }

  /** A header that is not on the queue may change, and blocks may be added to the arena. */
  lemma QueueKept(mem: map<int, Header>, cls: map<int, nat>, head: int, s: seq<int>, q: nat,
                  mem': map<int, Header>, cls': map<int, nat>)
    requires QueueOk(mem, cls, head, s, q)
    requires forall a :: a in s && a in mem ==> a in mem' && mem'[a] == mem[a]
    requires forall a :: a in cls ==> a in cls' && cls'[a] == cls[a]
    ensures QueueOk(mem', cls', head, s, q)
  {
    ChainFrame(mem, mem', head, s);
  }

  ghost predicate LiveHeader(h: Header, q: nat)
  {
    h.flags == B_INTEGRITY && h.word == DataSize(q)
  }

  /** Each block of the arena is either live or on the queue of its class. */
  ghost predicate BlockOk(mem: map<int, Header>, data: map<int, seq<Byte>>, queues: seq<seq<int>>, a: int, q: nat)
  {
    && a > 0 && q < B_MAX_CLASS && |queues| == B_MAX_CLASS
    && a in mem && a in data && |data[a]| == DataSize(q)
    && (LiveHeader(mem[a], q) || (mem[a].flags == B_FILL_WORD && a in queues[q]))
  }

  /** A block obtained from malloc: live, marked as such, and clear of the arena. */
  ghost predicate RegionOk(mem: map<int, Header>, data: map<int, seq<Byte>>, a: int, n: nat)
  {
    && a > 0 && n >= HEADER && a in mem && a in data
    && mem[a] == Header(n - HEADER, B_MALLOCED | B_INTEGRITY) && |data[a]| == n - HEADER
  }

  lemma FlagsDistinct()
    ensures B_FILL_WORD & B_INTEGRITY_MASK != B_INTEGRITY
    ensures B_INTEGRITY & B_INTEGRITY_MASK == B_INTEGRITY
    ensures (B_MALLOCED | B_INTEGRITY) & B_INTEGRITY_MASK == B_INTEGRITY
    ensures B_INTEGRITY & B_MALLOCED == 0 && (B_MALLOCED | B_INTEGRITY) & B_MALLOCED != 0
    ensures B_FILL_WORD != B_INTEGRITY
  {
  }

  // ----- The three parts of the invariant, and how each step keeps them -----

  ghost predicate BlocksOk(mem: map<int, Header>, data: map<int, seq<Byte>>, queues: seq<seq<int>>, cls: map<int, nat>)
  {
    forall a :: a in cls ==> BlockOk(mem, data, queues, a, cls[a])
  }

  ghost predicate QueuesOk(mem: map<int, Header>, cls: map<int, nat>, qhead: seq<int>, queues: seq<seq<int>>)
  {
    && |qhead| == B_MAX_CLASS && |queues| == B_MAX_CLASS
    && forall q :: 0 <= q < B_MAX_CLASS ==> QueueOk(mem, cls, qhead[q], queues[q], q)
  }

  ghost predicate RegionsOk(mem: map<int, Header>, data: map<int, seq<Byte>>, regions: map<int, nat>, base: int, size: int)
  {
    && (forall a :: a in regions ==> RegionOk(mem, data, a, regions[a]) && Apart(a, regions[a], base, size))
    && (forall a, b :: a in regions && b in regions && a != b ==> Apart(a, regions[a], b, regions[b]))
  }

  /** The header addresses of the blocks in use. */
  ghost function LiveSet(mem: map<int, Header>, cls: map<int, nat>, regions: map<int, nat>): (s: set<int>)
  {
    (set a | a in cls && a in mem && mem[a].flags == B_INTEGRITY) + regions.Keys
  }

  /** Taking the head of queue q makes that block, and no other, live. */
  lemma PopKeeps(mem: map<int, Header>, data: map<int, seq<Byte>>, cls: map<int, nat>, regions: map<int, nat>,
                 qhead: seq<int>, queues: seq<seq<int>>, q: nat)
    requires QueuesOk(mem, cls, qhead, queues) && BlocksOk(mem, data, queues, cls)
    requires q < B_MAX_CLASS && qhead[q] != 0
    ensures queues[q] != [] && qhead[q] in cls && cls[qhead[q]] == q && qhead[q] in mem
    ensures mem[qhead[q]].flags == B_FILL_WORD
    ensures var bp := qhead[q];
            var mem' := mem[bp := Header(DataSize(q), B_INTEGRITY)];
            var queues' := queues[q := queues[q][1..]];
            && QueuesOk(mem', cls, qhead[q := mem[bp].word], queues') && BlocksOk(mem', data, queues', cls)
            && LiveSet(mem', cls, regions) == LiveSet(mem, cls, regions) + {bp}
  {
    var bp, h := qhead[q], Header(DataSize(q), B_INTEGRITY);
    var s := queues[q];
    QueuePop(mem, cls, bp, s, q, h);
    forall r | 0 <= r < B_MAX_CLASS && r != q
      ensures QueueOk(mem[bp := h], cls, qhead[r], queues[r], r)
    {
      QueueKept(mem, cls, qhead[r], queues[r], r, mem[bp := h], cls);
    }
  }

  /** Linking a live block onto the queue of its class frees that block, and no other. */
  lemma PushKeeps(mem: map<int, Header>, data: map<int, seq<Byte>>, cls: map<int, nat>, regions: map<int, nat>,
                  qhead: seq<int>, queues: seq<seq<int>>, a: int)
    requires QueuesOk(mem, cls, qhead, queues) && BlocksOk(mem, data, queues, cls)
    requires a in cls && a in mem && mem[a].flags == B_INTEGRITY && a !in regions
    ensures cls[a] < B_MAX_CLASS
    ensures var q := cls[a];
            var mem' := mem[a := Header(qhead[q], B_FILL_WORD)];
            var queues' := queues[q := [a] + queues[q]];
            && QueuesOk(mem', cls, qhead[q := a], queues') && BlocksOk(mem', data, queues', cls)
            && LiveSet(mem', cls, regions) == LiveSet(mem, cls, regions) - {a}
  {
    FlagsDistinct();
    assert BlockOk(mem, data, queues, a, cls[a]);
    var q := cls[a];
    var h := Header(qhead[q], B_FILL_WORD);
    QueuePush(mem, cls, qhead[q], queues[q], q, a);
    forall r | 0 <= r < B_MAX_CLASS && r != q
      ensures QueueOk(mem[a := h], cls, qhead[r], queues[r], r)
    {
      QueueKept(mem, cls, qhead[r], queues[r], r, mem[a := h], cls);
    }
  }

  /** A new block beyond the tiled part of the arena is live and disturbs nothing. */
  lemma CutKeeps(mem: map<int, Header>, data: map<int, seq<Byte>>, cls: map<int, nat>, regions: map<int, nat>,
                 qhead: seq<int>, queues: seq<seq<int>>, bp: int, q: nat, bytes: seq<Byte>)
    requires QueuesOk(mem, cls, qhead, queues) && BlocksOk(mem, data, queues, cls)
    requires bp > 0 && q < B_MAX_CLASS && bp !in cls && |bytes| == DataSize(q)
    ensures var mem' := mem[bp := Header(DataSize(q), B_INTEGRITY)];
            var cls' := cls[bp := q];
            && QueuesOk(mem', cls', qhead, queues) && BlocksOk(mem', data[bp := bytes], queues, cls')
            && LiveSet(mem', cls', regions) == LiveSet(mem, cls, regions) + {bp}
  {
    var h := Header(DataSize(q), B_INTEGRITY);
    forall r | 0 <= r < B_MAX_CLASS
      ensures QueueOk(mem[bp := h], cls[bp := q], qhead[r], queues[r], r)
    {
      QueueKept(mem, cls, qhead[r], queues[r], r, mem[bp := h], cls[bp := q]);
    }
  }

  /** Headers and data of blocks outside the arena may change without touching the queues or blocks. */
  lemma OutsideKeeps(mem: map<int, Header>, data: map<int, seq<Byte>>, cls: map<int, nat>,
                     qhead: seq<int>, queues: seq<seq<int>>, mem': map<int, Header>, data': map<int, seq<Byte>>)
    requires QueuesOk(mem, cls, qhead, queues) && BlocksOk(mem, data, queues, cls)
    requires forall a :: a in cls && a in mem ==> a in mem' && mem'[a] == mem[a]
    requires forall a :: a in cls && a in data ==> a in data' && |data'[a]| == |data[a]|
    ensures QueuesOk(mem', cls, qhead, queues) && BlocksOk(mem', data', queues, cls)
  {
    forall r | 0 <= r < B_MAX_CLASS
      ensures QueueOk(mem', cls, qhead[r], queues[r], r)
    {
      QueueKept(mem, cls, qhead[r], queues[r], r, mem', cls);
    }
  }

  lemma RegionsFrame(mem: map<int, Header>, data: map<int, seq<Byte>>, regions: map<int, nat>, base: int, size: int,
                     mem': map<int, Header>, data': map<int, seq<Byte>>)
    requires RegionsOk(mem, data, regions, base, size)
    requires forall a :: a in regions && a in mem ==> a in mem' && mem'[a] == mem[a]
    requires forall a :: a in regions && a in data ==> a in data' && |data'[a]| == |data[a]|
    ensures RegionsOk(mem', data', regions, base, size)
  {
  }

  lemma RegionsAdd(mem: map<int, Header>, data: map<int, seq<Byte>>, regions: map<int, nat>, base: int, size: int,
                   a: int, n: nat, mem': map<int, Header>, data': map<int, seq<Byte>>)
    requires RegionsOk(mem, data, regions, base, size) && a !in regions
    requires RegionOk(mem', data', a, n) && Apart(a, n, base, size)
    requires forall b :: b in regions ==> Apart(a, n, b, regions[b])
    requires forall b :: b in mem && b != a ==> b in mem' && mem'[b] == mem[b]
    requires forall b :: b in data && b != a ==> b in data' && data'[b] == data[b]
    ensures RegionsOk(mem', data', regions[a := n], base, size)
  {
  }

  lemma RegionsDrop(mem: map<int, Header>, data: map<int, seq<Byte>>, regions: map<int, nat>, base: int, size: int, a: int)
    requires RegionsOk(mem, data, regions, base, size)
    ensures RegionsOk(mem - {a}, data - {a}, regions - {a}, base, size)
  {
  }

  lemma EmptyOk(data: map<int, seq<Byte>>, qhead: seq<int>, queues: seq<seq<int>>)
    requires |qhead| == |queues| == B_MAX_CLASS
    requires forall q :: 0 <= q < B_MAX_CLASS ==> qhead[q] == 0 && queues[q] == []
    ensures QueuesOk(map[], map[], qhead, queues) && BlocksOk(map[], data, queues, map[])
  {
  }

  lemma TiledCut(cls: map<int, nat>, base: int, end: int, q: nat)
    requires Tiled(cls, base, end)
    ensures end !in cls && Tiled(cls[end := q], base, end + BlockSize(q))
  {
    var cls' := cls[end := q];
    forall a | a in cls'
      ensures End(cls', a) == end + BlockSize(q) || End(cls', a) in cls'
    {
      assert a in cls ==> End(cls, a) == End(cls', a);
    }
  }

  // ----- Memory -----

  /** The allocator's variables and the memory it manages. */
  datatype Arena = Arena(
    freeBuf: int, freeSize: int, freeNext: int, freeLeft: int,
    qhead: seq<int>,
    mem: map<int, Header>,         // block headers, by address
    data: map<int, seq<Byte>>,     // the bytes after each header
    regions: map<int, nat>)        // blocks obtained from malloc and their sizes

  ghost predicate InOrder(ar: Arena, cls: map<int, nat>, queues: seq<seq<int>>)
  {
    && Tiled(cls, ar.freeBuf, ar.freeNext)
    && ar.freeLeft >= 0 && ar.freeNext + ar.freeLeft == ar.freeBuf + ar.freeSize
    && ar.mem.Keys == cls.Keys + ar.regions.Keys
    && QueuesOk(ar.mem, cls, ar.qhead, queues)
    && BlocksOk(ar.mem, ar.data, queues, cls)
    && RegionsOk(ar.mem, ar.data, ar.regions, ar.freeBuf, ar.freeSize)
  }

  datatype Layout = Layout(ar: Arena, cls: map<int, nat>, queues: seq<seq<int>>)

  ghost predicate LaidOut(l: Layout)
  {
    InOrder(l.ar, l.cls, l.queues)
  }

  /** The arena is in order; InvOpen says so. */
  ghost predicate Inv(ar: Arena, cls: map<int, nat>, queues: seq<seq<int>>)
  {
    |ar.qhead| == B_MAX_CLASS && |queues| == B_MAX_CLASS && Sealed(|queues|, LaidOut, Layout(ar, cls, queues))
  }

  lemma InvOpen(ar: Arena, cls: map<int, nat>, queues: seq<seq<int>>)
    ensures Inv(ar, cls, queues) <==> InOrder(ar, cls, queues)
  {
    SealedIs(|queues|, LaidOut, Layout(ar, cls, queues));
  }

  ghost function Live(ar: Arena, cls: map<int, nat>): (s: set<int>)
  {
    LiveSet(ar.mem, cls, ar.regions)
  }

  /** The blocks at these addresses keep their headers and their contents. */
  ghost predicate SameOn(s: set<int>, ar: Arena, ar': Arena)
  {
    forall a :: a in s ==>
      && a in ar.mem && a in ar'.mem && ar'.mem[a] == ar.mem[a]
      && a in ar.data && a in ar'.data && ar'.data[a] == ar.data[a]
  }

  /** The block at bp came into use with n bytes of data, and every block in use stayed as it was. */
  ghost predicate Allotted(ar: Arena, cls: map<int, nat>, ar': Arena, cls': map<int, nat>, bp: int, n: nat)
  {
    && bp !in Live(ar, cls) && Live(ar', cls') == Live(ar, cls) + {bp} && SameOn(Live(ar, cls), ar, ar')
    && bp in ar'.mem && ar'.mem[bp].word == n && bp in ar'.data && |ar'.data[bp]| == n
  }

  /** The block at bp went out of use, and its contents lead the contents of the new block at np. */
  ghost predicate Moved(ar: Arena, cls: map<int, nat>, ar': Arena, cls': map<int, nat>, bp: int, np: int, size: int)
  {
    && np !in Live(ar, cls) && Live(ar', cls') == Live(ar, cls) - {bp} + {np}
    && SameOn(Live(ar, cls) - {bp}, ar, ar')
    && np in ar'.mem && size <= ar'.mem[np].word && bp in ar.data && np in ar'.data && ar.data[bp] <= ar'.data[np]
  }

  /** Allocating, copying and freeing in turn move a block. */
  lemma MovedBy(ar0: Arena, cls0: map<int, nat>, ar1: Arena, cls: map<int, nat>, ar2: Arena, ar3: Arena,
                bp: int, np: int, size: nat)
    requires bp in Live(ar0, cls0) && bp in ar0.mem && bp in ar0.data && |ar0.data[bp]| < size
    requires Allotted(ar0, cls0, ar1, cls, np, DataSize(ClassOf(size)))
    requires ar2 == ar1.(data := ar1.data[np := ar0.data[bp] + ar1.data[np][|ar0.data[bp]|..]])
    requires Live(ar3, cls) == Live(ar2, cls) - {bp} && SameOn(Live(ar3, cls), ar2, ar3)
    ensures Moved(ar0, cls0, ar3, cls, bp, np, size)
  {
    assert np in Live(ar3, cls);
    assert ar3.data[np] == ar0.data[bp] + ar1.data[np][|ar0.data[bp]|..];
  }

  /** Exactly the blocks in use carry the integrity mark, and exactly the regions the malloc mark. */
  lemma LiveMarked(ar: Arena, cls: map<int, nat>, queues: seq<seq<int>>, a: int)
    requires Inv(ar, cls, queues) && a in ar.mem
    ensures a in Live(ar, cls) <==> ar.mem[a].flags & B_INTEGRITY_MASK == B_INTEGRITY
    ensures a in ar.regions <==> a in Live(ar, cls) && ar.mem[a].flags & B_MALLOCED != 0
  {
    InvOpen(ar, cls, queues);
    FlagsDistinct();
    assert a in cls ==> BlockOk(ar.mem, ar.data, queues, a, cls[a]);
    assert a in cls && a in ar.regions ==> false;
  }

  /** Neither the queue of class q nor the arena can supply a block. */
  ghost predicate NeedsMalloc(ar: Arena, queues: seq<seq<int>>, q: nat)
  {
    q >= B_MAX_CLASS || (q < |queues| && queues[q] == [] && ar.freeLeft <= BlockSize(q))
  }

  lemma HeadIsNull(ar: Arena, cls: map<int, nat>, queues: seq<seq<int>>, q: nat)
    requires Inv(ar, cls, queues) && q < B_MAX_CLASS
    ensures ar.qhead[q] == 0 <==> queues[q] == []
  {
    InvOpen(ar, cls, queues);
    assert QueueOk(ar.mem, cls, ar.qhead[q], queues[q], q);
    assert queues[q] != [] ==> queues[q][0] in cls;
  }

  /** No two blocks in use overlap, headers included. */
  lemma LiveApart(ar: Arena, cls: map<int, nat>, queues: seq<seq<int>>, a: int, b: int)
    requires Inv(ar, cls, queues) && a in Live(ar, cls) && b in Live(ar, cls) && a != b
    ensures a in ar.mem && b in ar.mem
    ensures Apart(a, ar.mem[a].word + HEADER, b, ar.mem[b].word + HEADER)
  {
    InvOpen(ar, cls, queues);
    FlagsDistinct();
  }

  function PopStep(ar: Arena, q: nat): (ar': Arena)
    requires q < |ar.qhead| && ar.qhead[q] in ar.mem
  {
    var bp := ar.qhead[q];
    ar.(qhead := ar.qhead[q := ar.mem[bp].word], mem := ar.mem[bp := Header(DataSize(q), B_INTEGRITY)])
  }

  lemma PopInv(ar: Arena, cls: map<int, nat>, queues: seq<seq<int>>, q: nat)
    requires Inv(ar, cls, queues) && q < B_MAX_CLASS && ar.qhead[q] != 0
    ensures queues[q] != [] && ar.qhead[q] == queues[q][0] && ar.qhead[q] in ar.mem && ar.qhead[q] > 0
    ensures Inv(PopStep(ar, q), cls, queues[q := queues[q][1..]])
    ensures Allotted(ar, cls, PopStep(ar, q), cls, ar.qhead[q], DataSize(q))
  {
    InvOpen(ar, cls, queues);
    FlagsDistinct();
    PopKeeps(ar.mem, ar.data, cls, ar.regions, ar.qhead, queues, q);
    var ar' := PopStep(ar, q);
    InvOpen(ar', cls, queues[q := queues[q][1..]]);
    assert ar.qhead[q] !in ar.regions;
    RegionsFrame(ar.mem, ar.data, ar.regions, ar.freeBuf, ar.freeSize, ar'.mem, ar'.data);
  }

  function CutStep(ar: Arena, q: nat, bytes: seq<Byte>): (ar': Arena)
  {
    ar.(freeNext := ar.freeNext + BlockSize(q), freeLeft := ar.freeLeft - BlockSize(q),
        mem := ar.mem[ar.freeNext := Header(DataSize(q), B_INTEGRITY)], data := ar.data[ar.freeNext := bytes])
  }

  lemma CutInv(ar: Arena, cls: map<int, nat>, queues: seq<seq<int>>, q: nat, bytes: seq<Byte>)
    requires Inv(ar, cls, queues) && q < B_MAX_CLASS && |bytes| == DataSize(q)
    requires ar.freeBuf > 0 && ar.freeLeft > BlockSize(q)
    ensures ar.freeNext > 0 && Inv(CutStep(ar, q, bytes), cls[ar.freeNext := q], queues)
    ensures Allotted(ar, cls, CutStep(ar, q, bytes), cls[ar.freeNext := q], ar.freeNext, DataSize(q))
  {
    InvOpen(ar, cls, queues);
    var ar', bp := CutStep(ar, q, bytes), ar.freeNext;
    InvOpen(ar', cls[bp := q], queues);
    TiledCut(cls, ar.freeBuf, bp, q);
    assert bp !in ar.regions && bp !in cls;
    CutKeeps(ar.mem, ar.data, cls, ar.regions, ar.qhead, queues, bp, q, bytes);
    RegionsFrame(ar.mem, ar.data, ar.regions, ar.freeBuf, ar.freeSize, ar'.mem, ar'.data);
  }

  /** What malloc may answer to a request of n bytes: null, or memory that nothing else occupies. */
  ghost predicate MallocMayGrant(ar: Arena, grant: int, n: nat)
  {
    grant == 0 ||
    (&& grant > 0 && n < INT_LIMIT && Apart(grant, n, ar.freeBuf, ar.freeSize)
     && forall a :: a in ar.regions ==> Apart(grant, n, a, ar.regions[a]))
  }

  function MallocStep(ar: Arena, bp: int, n: nat, bytes: seq<Byte>): (ar': Arena)
  {
    ar.(mem := ar.mem[bp := Header(n - HEADER, B_MALLOCED | B_INTEGRITY)],
        data := ar.data[bp := bytes], regions := ar.regions[bp := n])
  }

  lemma MallocFresh(ar: Arena, cls: map<int, nat>, queues: seq<seq<int>>, bp: int, n: nat)
    requires Inv(ar, cls, queues) && bp != 0 && MallocMayGrant(ar, bp, n) && n > HEADER
    ensures bp !in ar.regions && bp !in cls
  {
    InvOpen(ar, cls, queues);
  }

  lemma LiveBlock(ar: Arena, cls: map<int, nat>, queues: seq<seq<int>>, a: int)
    requires Inv(ar, cls, queues) && a in Live(ar, cls)
    ensures a in ar.mem && a in ar.data && a > 0 && 0 <= ar.mem[a].word && |ar.data[a]| == ar.mem[a].word
    ensures a !in ar.regions ==> a in cls && cls[a] < B_MAX_CLASS && ar.mem[a].word == DataSize(cls[a])
  {
    InvOpen(ar, cls, queues);
    LiveHasData(ar, cls, queues);
    FlagsDistinct();
  }

  lemma LiveHasData(ar: Arena, cls: map<int, nat>, queues: seq<seq<int>>)
    requires Inv(ar, cls, queues)
    ensures forall a :: a in Live(ar, cls) ==>
              a in ar.mem && a in ar.data && a > 0 && 0 <= ar.mem[a].word && |ar.data[a]| == ar.mem[a].word
  {
    InvOpen(ar, cls, queues);
    FlagsDistinct();
  }

  lemma MallocInv(ar: Arena, cls: map<int, nat>, queues: seq<seq<int>>, bp: int, n: nat, bytes: seq<Byte>)
    requires Inv(ar, cls, queues) && bp != 0 && MallocMayGrant(ar, bp, n)
    requires n > HEADER && |bytes| == n - HEADER
    ensures Inv(MallocStep(ar, bp, n, bytes), cls, queues)
  {
    InvOpen(ar, cls, queues);
    var ar' := MallocStep(ar, bp, n, bytes);
    InvOpen(ar', cls, queues);
    MallocFresh(ar, cls, queues, bp, n);
    OutsideKeeps(ar.mem, ar.data, cls, ar.qhead, queues, ar'.mem, ar'.data);
    RegionsAdd(ar.mem, ar.data, ar.regions, ar.freeBuf, ar.freeSize, bp, n, ar'.mem, ar'.data);
  }

  lemma MallocLive(ar: Arena, cls: map<int, nat>, queues: seq<seq<int>>, bp: int, n: nat, bytes: seq<Byte>)
    requires Inv(ar, cls, queues) && bp !in ar.regions && bp !in cls
    requires n > HEADER && |bytes| == n - HEADER
    ensures Allotted(ar, cls, MallocStep(ar, bp, n, bytes), cls, bp, n - HEADER)
  {
    LiveHasData(ar, cls, queues);
  }

  function PushStep(ar: Arena, a: int, q: nat): (ar': Arena)
    requires q < |ar.qhead|
  {
    ar.(qhead := ar.qhead[q := a], mem := ar.mem[a := Header(ar.qhead[q], B_FILL_WORD)])
  }

  lemma PushInv(ar: Arena, cls: map<int, nat>, queues: seq<seq<int>>, a: int)
    requires Inv(ar, cls, queues) && a in Live(ar, cls) && a !in ar.regions
    ensures a in cls && cls[a] < B_MAX_CLASS && a in ar.mem && ar.mem[a].word == DataSize(cls[a])
    ensures Live(PushStep(ar, a, cls[a]), cls) == Live(ar, cls) - {a}
    ensures Inv(PushStep(ar, a, cls[a]), cls, queues[cls[a] := [a] + queues[cls[a]]])
    ensures SameOn(Live(ar, cls) - {a}, ar, PushStep(ar, a, cls[a]))
  {
    InvOpen(ar, cls, queues);
    FlagsDistinct();
    PushKeeps(ar.mem, ar.data, cls, ar.regions, ar.qhead, queues, a);
    var ar' := PushStep(ar, a, cls[a]);
    InvOpen(ar', cls, queues[cls[a] := [a] + queues[cls[a]]]);
    RegionsFrame(ar.mem, ar.data, ar.regions, ar.freeBuf, ar.freeSize, ar'.mem, ar'.data);
  }

  function UnmapStep(ar: Arena, a: int): (ar': Arena)
  {
    ar.(mem := ar.mem - {a}, data := ar.data - {a}, regions := ar.regions - {a})
  }

  lemma UnmapInv(ar: Arena, cls: map<int, nat>, queues: seq<seq<int>>, a: int)
    requires Inv(ar, cls, queues) && a in ar.regions
    ensures a in ar.mem && Live(UnmapStep(ar, a), cls) == Live(ar, cls) - {a}
    ensures Inv(UnmapStep(ar, a), cls, queues) && SameOn(Live(ar, cls) - {a}, ar, UnmapStep(ar, a))
  {
    InvOpen(ar, cls, queues);
    FlagsDistinct();
    var ar' := UnmapStep(ar, a);
    InvOpen(ar', cls, queues);
    assert a !in cls;
    OutsideKeeps(ar.mem, ar.data, cls, ar.qhead, queues, ar'.mem, ar'.data);
    RegionsDrop(ar.mem, ar.data, ar.regions, ar.freeBuf, ar.freeSize, a);
  }

  /** Writing inside a block in use keeps the invariant: nothing of the allocator's lies there. */
  lemma StoreInv(ar: Arena, cls: map<int, nat>, queues: seq<seq<int>>, a: int, bytes: seq<Byte>)
    requires Inv(ar, cls, queues) && a in ar.data && |bytes| == |ar.data[a]|
    ensures Inv(ar.(data := ar.data[a := bytes]), cls, queues)
  {
    InvOpen(ar, cls, queues);
    InvOpen(ar.(data := ar.data[a := bytes]), cls, queues);
    var data' := ar.data[a := bytes];
    OutsideKeeps(ar.mem, ar.data, cls, ar.qhead, queues, ar.mem, data');
    RegionsFrame(ar.mem, ar.data, ar.regions, ar.freeBuf, ar.freeSize, ar.mem, data');
  }

  // ----- The allocator -----

  class Allocator {
    var isOpen: bool                  // the arena pointer is not null
    var openCount: nat
    var useMalloc: bool
    var ar: Arena
    ghost var cls: map<int, nat>      // the blocks of the arena: their class, by address
    ghost var queues: seq<seq<int>>   // the addresses on each free queue

    ghost predicate Valid()
      reads this
    {
      && (isOpen <==> openCount > 0) && (isOpen ==> ar.freeBuf > 0)
      && (!isOpen ==> ar.mem == map[] && ar.regions == map[] && cls == map[])
      && Inv(ar, cls, queues)
    }

    constructor ()
      ensures Valid() && !isOpen && Live(ar, cls) == {}
    {
      isOpen, openCount, useMalloc := false, 0, false;
      cls, queues := map[], seq(B_MAX_CLASS, _ => []);
      ar := Arena(0, 0, 0, 0, seq(B_MAX_CLASS, _ => 0), map[], map[], map[]);
      new;
      EmptyOk(map[], ar.qhead, queues);
      InvOpen(ar, cls, queues);
    }

    /**
     * Take `bufsize` bytes at `buf`, or at the address malloc grants (0 for failure) when `buf` is
     * null. A second opener only sets the flags.
     */
    method Open(buf: int, bufsize: nat, useMalloc: bool, grant: int) returns (rc: int)
      requires Valid() && buf >= 0 && grant >= 0
      modifies this
      ensures Valid() && this.useMalloc == useMalloc
      ensures rc == if !old(isOpen) && buf == 0 && grant == 0 then -1 else 0
      ensures isOpen <==> old(isOpen) || rc == 0
      ensures Live(ar, cls) == old(Live(ar, cls)) && cls == old(cls)
      ensures old(isOpen) ==> ar == old(ar) && queues == old(queues)
      ensures rc == 0 && !old(isOpen) ==>
                && ar.freeNext == ar.freeBuf == (if buf == 0 then grant else buf)
                && ar.freeLeft == ar.freeSize == (if buf == 0 && bufsize == 0 then B_DEFAULT_MEM else bufsize)
                && |queues| == B_MAX_CLASS && forall q :: 0 <= q < B_MAX_CLASS ==> queues[q] == []
    {
      this.useMalloc := useMalloc;
      openCount := openCount + 1;
      if openCount > 1 {
        return 0;
      }
      var base, size := buf, bufsize;
      if buf == 0 {
        if bufsize == 0 {
          size := B_DEFAULT_MEM;
        }
        base := grant;
        if base == 0 {
          openCount := openCount - 1;
          return -1;
        }
      }
      isOpen := true;
      InvOpen(ar, cls, queues);
      ar := ar.(freeSize := size, freeLeft := size, freeBuf := base, freeNext := base,
                qhead := seq(B_MAX_CLASS, _ => 0));
      queues := seq(B_MAX_CLASS, _ => []);
      EmptyOk(ar.data, ar.qhead, queues);
      InvOpen(ar, cls, queues);
      rc := 0;
    }

    /**
     * Allocate: from the queue of the class, else off the arena, else from malloc. The result is a
     * block that was not in use, holds `size` bytes, and leaves every block in use as it was.
     * `grant` and `arenaGrant` are what malloc answers for the block and for a first arena.
     */
    method Alloc(size: int, grant: int, arenaGrant: int) returns (p: int)
      requires Valid() && -INT_LIMIT <= size < INT_LIMIT && arenaGrant >= 0
      requires isOpen && size >= 0 ==> MallocMayGrant(ar, grant, BlockSize(ClassOf(size)))
      modifies this
      ensures Valid()
      ensures p == 0 ==> Live(ar, cls) == old(Live(ar, cls)) && (old(isOpen) ==> ar == old(ar) && cls == old(cls))
      ensures p != 0 ==> 0 <= size <= DataSize(ClassOf(size))
      ensures p != 0 ==> Allotted(old(ar), old(cls), ar, cls, p - HEADER, DataSize(ClassOf(size)))
      ensures old(isOpen) && size >= 0 ==>
                (p == 0 <==> NeedsMalloc(old(ar), old(queues), ClassOf(size)) && (!useMalloc || grant == 0))
      ensures !old(isOpen) ==>
                (p == 0 <==> arenaGrant == 0 || size < 0 || ClassOf(size) >= B_MAX_CLASS || BlockSize(ClassOf(size)) >= B_DEFAULT_MEM)
      ensures size < 0 ==> p == 0
    {
      if !isOpen {
        ghost var ar0, cls0 := ar, cls;
        var rc := Open(0, B_DEFAULT_MEM, false, arenaGrant);
        assert Live(ar0, cls0) == {};
        if rc < 0 || size < 0 {
          return 0;
        }
        p := AllocOpen(size, 0);
      } else {
        if size < 0 {
          return 0;
        }
        p := AllocOpen(size, grant);
      }
    }

    method AllocOpen(size: nat, grant: int) returns (p: int)
      requires Valid() && isOpen && size < INT_LIMIT
      requires MallocMayGrant(ar, grant, BlockSize(ClassOf(size)))
      modifies this`ar, this`cls, this`queues
      ensures Valid()
      ensures p == 0 ==> ar == old(ar) && cls == old(cls)
      ensures var q := ClassOf(size);
              p == 0 <==>
                && (q >= B_MAX_CLASS || (q < |old(queues)| && old(queues)[q] == [] && old(ar.freeLeft) <= DataSize(q) + HEADER))
                && (!useMalloc || grant == 0)
      ensures p != 0 ==> Allotted(old(ar), old(cls), ar, cls, p - HEADER, DataSize(ClassOf(size)))
      ensures p != 0 && NeedsMalloc(old(ar), old(queues), ClassOf(size)) ==> p == grant + HEADER
      ensures ClassOf(size) < B_MAX_CLASS && old(queues[ClassOf(size)]) != [] ==>
                p == old(queues[ClassOf(size)][0]) + HEADER && cls == old(cls)
    {
      var memSize, q := GetSize(size);
      var bp;
      if q < B_MAX_CLASS {
        HeadIsNull(ar, cls, queues, q);
      }
      if q >= B_MAX_CLASS {
        if !useMalloc || grant == 0 {
          return 0;
        }
        bp := FromMalloc(q, grant);
      } else if ar.qhead[q] != 0 {
        bp := FromQueue(q);
      } else if ar.freeLeft > memSize {
        bp := FromArena(q);
      } else {
        if !useMalloc || grant == 0 {
          return 0;
        }
        bp := FromMalloc(q, grant);
      }
      p := bp + HEADER;
    }

    /**
     * Free the block whose data is at mp. A header without the integrity mark (a block that is
     * already queued) is left alone; otherwise the block goes back to malloc or to the queue of the
     * class it was cut from.
     */
    method Free(mp: int)
      requires Valid() && mp - HEADER in ar.mem
      modifies this`ar, this`queues
      ensures Valid()
      ensures mp - HEADER !in old(Live(ar, cls)) ==> ar == old(ar) && queues == old(queues)
      ensures mp - HEADER in old(Live(ar, cls)) ==>
                && Live(ar, cls) == old(Live(ar, cls)) - {mp - HEADER}
                && SameOn(Live(ar, cls), old(ar), ar)
      ensures mp - HEADER in old(Live(ar, cls)) && mp - HEADER !in old(ar.regions) ==>
                && mp - HEADER in cls && cls[mp - HEADER] < B_MAX_CLASS == |queues| == |old(queues)|
                && queues == old(queues)[cls[mp - HEADER] := [mp - HEADER] + old(queues)[cls[mp - HEADER]]]
    {
      var bp := mp - HEADER;
      LiveMarked(ar, cls, queues, bp);
      if ar.mem[bp].flags & B_INTEGRITY_MASK != B_INTEGRITY {
        return;
      }
      LiveBlock(ar, cls, queues, bp);
      var memSize, q := GetSize(ar.mem[bp].word);
      if ar.mem[bp].flags & B_MALLOCED != 0 {
        UnmapInv(ar, cls, queues, bp);
        ar := UnmapStep(ar, bp);
      } else {
        ClassOfDataSize(cls[bp]);
        PushInv(ar, cls, queues, bp);
        ar := PushStep(ar, bp, q);
        queues := queues[q := [bp] + queues[q]];
      }
    }

    /** Free a block unless the pointer is null. */
    method FreeSafe(mp: int)
      requires Valid() && (mp != 0 ==> mp - HEADER in ar.mem)
      modifies this`ar, this`queues
      ensures Valid()
      ensures mp == 0 || mp - HEADER !in old(Live(ar, cls)) ==> ar == old(ar) && queues == old(queues)
      ensures mp != 0 && mp - HEADER in old(Live(ar, cls)) ==>
                && Live(ar, cls) == old(Live(ar, cls)) - {mp - HEADER}
                && SameOn(Live(ar, cls), old(ar), ar)
    {
      if mp != 0 {
        Free(mp);
      }
    }

    /**
     * Grow the block at mp. When it is already large enough nothing happens; when a new block cannot
     * be had the old one stays; otherwise the old contents are copied and the old block is freed.
     */
    method Realloc(mp: int, newsize: int, grant: int, arenaGrant: int) returns (p: int)
      requires Valid() && -INT_LIMIT <= newsize < INT_LIMIT && arenaGrant >= 0
      requires mp != 0 ==> isOpen && mp - HEADER in Live(ar, cls)
      requires isOpen && newsize >= 0 ==> MallocMayGrant(ar, grant, BlockSize(ClassOf(newsize)))
      modifies this
      ensures Valid()
      ensures mp == 0 && p != 0 ==> 0 <= newsize && Allotted(old(ar), old(cls), ar, cls, p - HEADER, DataSize(ClassOf(newsize)))
      ensures mp == 0 && p == 0 ==> Live(ar, cls) == old(Live(ar, cls)) && (old(isOpen) ==> ar == old(ar) && cls == old(cls))
      ensures mp == 0 && !old(isOpen) ==>
                (p == 0 <==> arenaGrant == 0 || newsize < 0 || ClassOf(newsize) >= B_MAX_CLASS
                             || BlockSize(ClassOf(newsize)) >= B_DEFAULT_MEM)
      ensures mp != 0 ==> mp - HEADER in old(ar.mem) && (p == mp <== newsize <= old(ar.mem)[mp - HEADER].word)
      ensures old(isOpen) && (mp == 0 || newsize > old(ar.mem)[mp - HEADER].word) && newsize >= 0 ==>
                (p == 0 <==> NeedsMalloc(old(ar), old(queues), ClassOf(newsize)) && (!useMalloc || grant == 0))
      ensures mp != 0 && (p == mp || p == 0) ==> ar == old(ar) && cls == old(cls)
      ensures mp != 0 && p == mp ==> mp - HEADER in ar.mem && newsize <= ar.mem[mp - HEADER].word
      ensures mp != 0 && p != 0 && p != mp ==> Moved(old(ar), old(cls), ar, cls, mp - HEADER, p - HEADER, newsize)
    {
      if mp == 0 {
        p := Alloc(newsize, grant, arenaGrant);
        return;
      }
      var bp := mp - HEADER;
      LiveBlock(ar, cls, queues, bp);
      if ar.mem[bp].word >= newsize {
        return mp;
      }
      p := Relocate(bp, newsize, grant);
    }

    /** Allocate a larger block, copy all of the old one, and free it. */
    method Relocate(bp: int, newsize: nat, grant: int) returns (p: int)
      requires Valid() && isOpen && newsize < INT_LIMIT && bp in Live(ar, cls)
      requires bp in ar.mem && bp in ar.data && |ar.data[bp]| < newsize
      requires MallocMayGrant(ar, grant, BlockSize(ClassOf(newsize)))
      modifies this`ar, this`cls, this`queues
      ensures Valid()
      ensures p == 0 ==> ar == old(ar) && cls == old(cls)
      ensures p == 0 <==> NeedsMalloc(old(ar), old(queues), ClassOf(newsize)) && (!useMalloc || grant == 0)
      ensures p != 0 ==> Moved(old(ar), old(cls), ar, cls, bp, p - HEADER, newsize)
    {
      ghost var ar0, cls0 := ar, cls;
      p := AllocOpen(newsize, grant);
      if p == 0 {
        return;
      }
      MoveTo(p - HEADER, bp, newsize, ar0, cls0);
    }

    /** Copy all of a block to a new one, and free it. */
    method MoveTo(np: int, bp: int, ghost newsize: nat, ghost ar0: Arena, ghost cls0: map<int, nat>)
      requires Valid() && isOpen && bp in ar.mem && bp in ar.data && bp in Live(ar0, cls0) && bp in ar0.data
      requires newsize < INT_LIMIT && |ar0.data[bp]| < newsize && Allotted(ar0, cls0, ar, cls, np, DataSize(ClassOf(newsize)))
      modifies this`ar, this`queues
      ensures Valid() && Moved(ar0, cls0, ar, cls, bp, np, newsize)
    {
      ghost var ar1 := ar;
      Store(np, ar.data[bp]);
      ghost var ar2 := ar;
      Free(bp + HEADER);
      MovedBy(ar0, cls0, ar1, cls, ar2, ar, bp, np, newsize);
    }

    /** Copy bytes to the start of a block in use, as its owner does. */
    method Store(bp: int, bytes: seq<Byte>)
      requires Valid() && isOpen && bp in ar.data && |bytes| <= |ar.data[bp]|
      modifies this`ar
      ensures Valid()
      ensures ar == old(ar).(data := old(ar.data)[bp := bytes + old(ar.data[bp])[|bytes|..]])
    {
      StoreInv(ar, cls, queues, bp, bytes + ar.data[bp][|bytes|..]);
      ar := ar.(data := ar.data[bp := bytes + ar.data[bp][|bytes|..]]);
    }

    method FromMalloc(q: nat, grant: int) returns (bp: int)
      requires Valid() && isOpen && grant != 0 && MallocMayGrant(ar, grant, BlockSize(q))
      modifies this`ar
      ensures Valid() && bp == grant > 0 && Allotted(old(ar), old(cls), ar, cls, bp, DataSize(q))
    {
      bp := grant;
      var bytes := Garbage(DataSize(q));
      MallocFresh(ar, cls, queues, bp, BlockSize(q));
      MallocInv(ar, cls, queues, bp, BlockSize(q), bytes);
      MallocLive(ar, cls, queues, bp, BlockSize(q), bytes);
      ar := MallocStep(ar, bp, BlockSize(q), bytes);
    }

    method FromQueue(q: nat) returns (bp: int)
      requires Valid() && isOpen && q < B_MAX_CLASS && ar.qhead[q] != 0
      modifies this`ar, this`queues
      ensures Valid() && Allotted(old(ar), old(cls), ar, cls, bp, DataSize(q))
      ensures old(queues[q]) != [] && bp == old(queues[q][0]) > 0 && ar.freeNext == old(ar.freeNext)
    {
      bp := ar.qhead[q];
      PopInv(ar, cls, queues, q);
      ar := PopStep(ar, q);
      queues := queues[q := queues[q][1..]];
    }

    method FromArena(q: nat) returns (bp: int)
      requires Valid() && isOpen && q < B_MAX_CLASS && ar.freeLeft > BlockSize(q)
      modifies this`ar, this`cls
      ensures Valid() && bp == old(ar.freeNext) > 0 && Allotted(old(ar), old(cls), ar, cls, bp, DataSize(q))
    {
      bp := ar.freeNext;
      var bytes := Garbage(DataSize(q));
      CutInv(ar, cls, queues, q, bytes);
      ar := CutStep(ar, q, bytes);
      cls := cls[bp := q];
    }
  }

  /** Memory nobody has written to yet. */
  method Garbage(n: nat) returns (bytes: seq<Byte>)
    ensures |bytes| == n
  {
    bytes := *;
    if |bytes| != n {
      bytes := seq(n, _ => 0);
    }
  }

  /** The next request of the same class gets the block freed last. */
  method FreeThenAlloc(a: Allocator, mp: int, size: nat, grant: int) returns (p: int)
    requires a.Valid() && a.isOpen && mp - HEADER in a.ar.mem && mp - HEADER in Live(a.ar, a.cls) && mp - HEADER !in a.ar.regions
    requires mp - HEADER in a.cls && a.cls[mp - HEADER] == ClassOf(size) && size < INT_LIMIT && grant == 0
    modifies a
    ensures a.Valid() && p == mp
  {
    a.Free(mp);
    p := a.AllocOpen(size, grant);
  }
}
