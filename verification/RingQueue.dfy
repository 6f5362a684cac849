/** The ring queue of ringq.c: a wrap-around byte buffer that grows, with one slot always kept free. */
module RingQueue {

  import opened Basics

  // ----- Buffer sizes -----

  ghost predicate IsPowerOfTwo(n: nat) {
    n == 1 || (n > 1 && n % 2 == 0 && IsPowerOfTwo(n / 2))
  }

  /** The power of two that a buffer for `size` bytes is given. */
  function BinSize(size: nat): (r: nat)
    ensures r >= 16 && r > size
  {
    if size < 16 then 16 else 2 * BinSize(size / 2)
  }

  lemma PowerGap(p: nat)
    requires IsPowerOfTwo(p)
    ensures p <= 16 || p >= 32
  {
    assert p > 8 ==> IsPowerOfTwo(p / 2) && IsPowerOfTwo(p / 4) && IsPowerOfTwo(p / 8);
  }

  lemma {:induction false} BinSizeIsLeast(size: nat, p: nat)
    requires IsPowerOfTwo(p)
    ensures IsPowerOfTwo(BinSize(size))
    ensures p >= 16 && p > size ==> BinSize(size) <= p
    decreases size
  {
    if size < 16 {
      assert IsPowerOfTwo(2) && IsPowerOfTwo(4) && IsPowerOfTwo(8) && IsPowerOfTwo(16);
    } else {
      PowerGap(p);
      BinSizeIsLeast(size / 2, if p > 1 then p / 2 else 1);
    }
  }

  /** A growth step asks for twice the old step, and the strict bound makes it four times. */
  lemma {:induction false} BinSizeOfDoubled(inc: nat)
    requires IsPowerOfTwo(inc) && inc >= 16
    ensures BinSize(2 * inc) == 4 * inc
  {
    if inc == 16 {
      assert BinSize(32) == 2 * BinSize(16) && BinSize(16) == 2 * BinSize(8);
    } else {
      PowerGap(inc);
      BinSizeOfDoubled(inc / 2);
    }
  }

  /** The value r doubled once for every bit of `rest` above the low four. */
  ghost function Doubled(r: nat, rest: nat): (n: nat)
    decreases rest
  {
    if rest < 16 then r else Doubled(2 * r, rest / 2)
  }

  lemma {:induction false} DoubledTwice(r: nat, rest: nat)
    ensures Doubled(2 * r, rest) == 2 * Doubled(r, rest)
    decreases rest
  {
    if rest >= 16 { DoubledTwice(2 * r, rest / 2); }
  }

  lemma {:induction false} DoubledIsBinSize(size: nat)
    ensures Doubled(16, size) == BinSize(size)
  {
    if size >= 16 {
      DoubledIsBinSize(size / 2);
      DoubledTwice(16, size / 2);
    }
  }

  /** Shift out the low bits, count the rest, and return 1 << (4 + count). */
  method GetBinBlockSize(size: nat) returns (r: nat)
    ensures r == BinSize(size)
  {
    var s := size / 16;
    r := 16;
    ghost var rest := size;
    while s != 0
      invariant s == rest / 16 && Doubled(r, rest) == Doubled(16, size)
      decreases s
    {
      rest := rest / 2;
      s := s / 2;
      r := 2 * r;
    }
    DoubledIsBinSize(size);
  }

  // ----- The queue -----

  /** The unread bytes of buffer `b`, from `servp` round to `endp`. */
  ghost function RingSeq(b: seq<Byte>, servp: nat, endp: nat): (s: seq<Byte>)
    requires servp < |b| && endp < |b|
  {
    if servp <= endp then b[servp..endp] else b[servp..] + b[..endp]
  }

  /** A straight copy to endp that leaves the free slot appends to the ring. */
  lemma RingAppend(b: seq<Byte>, servp: nat, endp: nat, data: seq<Byte>, b': seq<Byte>, end': nat)
    requires servp < |b| && endp < |b|
    requires endp + |data| <= |b| && |RingSeq(b, servp, endp)| + |data| < |b|
    requires b' == b[..endp] + data + b[endp + |data|..]
    requires end' == if endp + |data| == |b| then 0 else endp + |data|
    ensures RingSeq(b', servp, end') == RingSeq(b, servp, endp) + data
  {
  }

  /** Counting bytes that already lie at endp appends them. */
  lemma RingAdvance(b: seq<Byte>, servp: nat, endp: nat, n: nat, end': nat)
    requires servp < |b| && endp < |b| && endp + n <= |b| && |RingSeq(b, servp, endp)| + n < |b|
    requires end' == if endp + n == |b| then 0 else endp + n
    ensures RingSeq(b, servp, end') == RingSeq(b, servp, endp) + b[endp..endp + n]
  {
    assert b == b[..endp] + b[endp..endp + n] + b[endp + n..];
    RingAppend(b, servp, endp, b[endp..endp + n], b, end');
  }

  /** A straight write at endp into the free room leaves the unread bytes. */
  lemma RingKept(b: seq<Byte>, servp: nat, endp: nat, data: seq<Byte>, b': seq<Byte>)
    requires servp < |b| && endp < |b|
    requires endp + |data| <= |b| && |RingSeq(b, servp, endp)| + |data| < |b|
    requires b' == b[..endp] + data + b[endp + |data|..]
    ensures RingSeq(b', servp, endp) == RingSeq(b, servp, endp) && b'[endp..endp + |data|] == data
  {
  }

  lemma AppendStep(all: seq<Byte>, data: seq<Byte>, n: nat, k: nat)
    requires n + k <= |data|
    ensures (all + data[..n]) + data[n..n + k] == all + data[..n + k]
  {
  }

  /** Writing just before servp, round the end if need be, prepends to the ring. */
  lemma RingPrepend(b: seq<Byte>, servp: nat, endp: nat, c: Byte, serv': nat)
    requires servp < |b| && endp < |b| && |RingSeq(b, servp, endp)| + 1 < |b|
    requires serv' == if servp == 0 then |b| - 1 else servp - 1
    ensures RingSeq(b[serv' := c], serv', endp) == [c] + RingSeq(b, servp, endp)
  {
  }

  /** Unread bytes that do not run past the end of the buffer lie in a row from servp. */
  lemma RingStraight(b: seq<Byte>, servp: nat, endp: nat, n: nat)
    requires servp < |b| && endp < |b| && n <= |RingSeq(b, servp, endp)| && servp + n <= |b|
    ensures RingSeq(b, servp, endp)[..n] == b[servp..servp + n]
  {
  }

  /** Advancing servp over unread bytes drops them from the ring. */
  lemma RingDrop(b: seq<Byte>, servp: nat, endp: nat, n: nat, serv': nat)
    requires servp < |b| && endp < |b| && n <= |RingSeq(b, servp, endp)|
    requires serv' == if servp + n >= |b| then servp + n - |b| else servp + n
    ensures RingSeq(b, serv', endp) == RingSeq(b, servp, endp)[n..]
  {
  }

  /** Taking a straight run off the front. */
  lemma RingTake(b: seq<Byte>, servp: nat, endp: nat, n: nat, serv': nat)
    requires servp < |b| && endp < |b| && n <= |RingSeq(b, servp, endp)| && servp + n <= |b|
    requires serv' == if servp + n >= |b| then servp + n - |b| else servp + n
    ensures RingSeq(b, servp, endp) == b[servp..servp + n] + RingSeq(b, serv', endp)
  {
    var s := RingSeq(b, servp, endp);
    RingStraight(b, servp, endp, n);
    RingDrop(b, servp, endp, n, serv');
    assert s == s[..n] + s[n..];
  }

  // ----- A queue as a value -----

  /** What a queue holds, where its bytes start, and what its growth depends on; `grants` is what the allocator will answer. */
  datatype Queue = Queue(q: seq<Byte>, start: nat, size: nat, inc: nat, maxsize: int, grants: seq<bool>)

  ghost predicate QueueOk(s: Queue)
  {
    |s.q| < s.size && s.start < s.size && s.size >= 16 && s.inc >= 16
  }

  function Wrapped(n: nat, size: nat): (r: nat)
    requires n < 2 * size
    ensures r < size
  {
    if n >= size then n - size else n
  }

  /** The most bytes a straight copy to the end can add, and a straight copy from the start can take. */
  function RoomAtEnd(s: Queue): (n: nat)
    requires QueueOk(s)
    ensures |s.q| + n < s.size
  {
    Min(s.size - Wrapped(s.start + |s.q|, s.size), s.size - |s.q| - 1)
  }

  function RunAtStart(s: Queue): (n: nat)
    requires QueueOk(s)
    ensures n <= |s.q|
  {
    Min(s.size - s.start, |s.q|)
  }

  /** Growing is refused at the limit and when the allocator has nothing; it never changes the contents. */
  function GrowStep(s: Queue): (r: (bool, Queue))
    requires QueueOk(s)
    ensures QueueOk(r.1) && r.1.q == s.q && r.1.maxsize == s.maxsize && (s.grants == [] ==> r.1.grants == [])
    ensures r.0 <==> !(s.maxsize >= 0 && s.size >= s.maxsize) && (s.grants == [] || s.grants[0])
    ensures if r.0 then r.1.size > s.size else r.1.size == s.size && r.1.start == s.start && r.1.inc == s.inc
  {
    if s.maxsize >= 0 && s.size >= s.maxsize then (false, s)
    else
      var rest := if s.grants == [] then [] else s.grants[1..];
      if s.grants != [] && !s.grants[0] then (false, s.(grants := rest))
      else (true, Queue(s.q, 0, s.size + s.inc, BinSize(2 * s.inc), s.maxsize, rest))
  }

  /** The queue after it has grown k times. */
  ghost function GrownTimes(s: Queue, k: nat): (r: Queue)
    requires QueueOk(s)
    ensures QueueOk(r)
  {
    if k == 0 then s else GrowStep(GrownTimes(s, k - 1)).1
  }

  ghost function Pow4(k: nat): (p: nat)
  {
    if k == 0 then 1 else 4 * Pow4(k - 1)
  }

  /** The buffer grows by the step, and the step becomes four times as large. */
  lemma GrowOnce(s: Queue)
    requires QueueOk(s) && s.maxsize < 0 && s.grants == [] && IsPowerOfTwo(s.inc)
    ensures var r := GrowStep(s).1;
            r.size == s.size + s.inc && r.inc == 4 * s.inc && IsPowerOfTwo(r.inc) && r.maxsize < 0 && r.grants == [] && r.q == s.q
  {
    BinSizeOfDoubled(s.inc);
    DoubledPower(s.inc);
    DoubledPower(2 * s.inc);
  }

  lemma DoubledPower(n: nat)
    requires IsPowerOfTwo(n)
    ensures IsPowerOfTwo(2 * n)
  {
  }

  lemma TimesFour(b: nat, p: nat)
    ensures b * (4 * p) == 4 * (b * p)
  {
  }

  /** Without limit and with memory, k growths of a buffer of b bytes, a power of two, make it b * (4^k + 2) / 3. */
  lemma {:induction false} GrowthSizes(s: Queue, k: nat)
    requires QueueOk(s) && s.maxsize < 0 && s.grants == [] && s.inc == s.size && IsPowerOfTwo(s.size)
    ensures var r := GrownTimes(s, k);
            && 3 * r.size == s.size * Pow4(k) + 2 * s.size && r.inc == s.size * Pow4(k)
            && IsPowerOfTwo(r.inc) && r.maxsize < 0 && r.grants == [] && r.q == s.q
  {
    if k > 0 {
      GrowthSizes(s, k - 1);
      GrowOnce(GrownTimes(s, k - 1));
      TimesFour(s.size, Pow4(k - 1));
    }
  }

  /** Room for one more byte, in a larger buffer if the queue is full. */
  function RoomStep(s: Queue): (r: (bool, Queue))
    requires QueueOk(s)
    ensures QueueOk(r.1) && r.1.q == s.q && (r.0 ==> |s.q| + 1 < r.1.size)
  {
    if |s.q| + 1 == s.size then GrowStep(s) else (true, s)
  }

  /** Append byte after byte, until there is no room for one. */
  function PutStep(s: Queue, data: seq<Byte>): (r: (nat, Queue))
    requires QueueOk(s)
    ensures QueueOk(r.1) && r.0 <= |data|
    decreases |data|
  {
    if data == [] then (0, s) else
      var g := RoomStep(s);
      if !g.0 then (0, g.1) else
        var rest := PutStep(g.1.(q := s.q + [data[0]]), data[1..]);
        (1 + rest.0, rest.1)
  }

  /** Bytes there is room for can be appended at once. */
  lemma {:induction false} PutInParts(s: Queue, data: seq<Byte>, k: nat)
    requires QueueOk(s) && k <= |data| && |s.q| + k < s.size
    ensures var r := PutStep(s.(q := s.q + data[..k]), data[k..]); PutStep(s, data) == (k + r.0, r.1)
    decreases k
  {
    if k == 0 {
      assert s.q + data[..0] == s.q && data[0..] == data;
    } else {
      PutInParts(s.(q := s.q + [data[0]]), data[1..], k - 1);
      assert s.q + [data[0]] + data[1..][..k - 1] == s.q + data[..k] && data[1..][k - 1..] == data[k..];
    }
  }

  lemma PutFits(s: Queue, data: seq<Byte>)
    requires QueueOk(s) && |s.q| + |data| < s.size
    ensures PutStep(s, data) == (|data|, s.(q := s.q + data))
  {
    PutInParts(s, data, |data|);
    assert data[..|data|] == data && data[|data|..] == [];
  }

  /** The first k bytes have been appended, and nothing more can be if k is 0. */
  ghost predicate PutsOn(k: nat, data: seq<Byte>, s: Queue, s': Queue)
    requires QueueOk(s) && QueueOk(s') && k <= |data|
  {
    if k == 0 then PutStep(s, data) == (0, s')
    else var r := PutStep(s', data[k..]); PutStep(s, data) == (k + r.0, r.1)
  }

  /** The first n bytes have been appended, and appending the others gives the whole. */
  ghost predicate PutSoFar(n: nat, data: seq<Byte>, s: Queue, s': Queue)
  {
    && QueueOk(s) && QueueOk(s') && n <= |data|
    && var r := PutStep(s', data[n..]); PutStep(s, data) == (n + r.0, r.1)
  }

  lemma PutOneMore(n: nat, k: nat, data: seq<Byte>, s: Queue, mid: Queue, s': Queue)
    requires PutSoFar(n, data, s, mid) && QueueOk(s') && n + k <= |data| && PutsOn(k, data[n..], mid, s')
    ensures if k == 0 then PutStep(s, data) == (n, s') else PutSoFar(n + k, data, s, s')
  {
    assert data[n..][k..] == data[n + k..];
  }

  /** A full queue grows before anything is appended. */
  lemma GrowFirst(s: Queue, data: seq<Byte>)
    requires QueueOk(s) && |s.q| + 1 == s.size && data != []
    ensures var g := GrowStep(s); PutStep(s, data) == if !g.0 then (0, g.1) else PutStep(g.1, data)
  {
  }

  /** What is appended is a prefix; it is short only when growth was refused and the queue is full. */
  lemma {:induction false} PutMeans(s: Queue, data: seq<Byte>)
    requires QueueOk(s)
    ensures var r := PutStep(s, data);
            && r.1.q == s.q + data[..r.0] && r.1.maxsize == s.maxsize
            && r.1.size >= s.size && (s.grants == [] ==> r.1.grants == [])
            && (r.0 < |data| ==> |r.1.q| == r.1.size - 1 && (s.grants == [] ==> AtLimit(r.1)))
            && (AtLimit(s) || |s.q| + |data| < s.size ==>
                  r.1.size == s.size && r.1.start == s.start && r.1.inc == s.inc && r.1.grants == s.grants)
    decreases |data|
  {
    if data != [] {
      var g := RoomStep(s);
      if g.0 {
        PutMeans(g.1.(q := s.q + [data[0]]), data[1..]);
        var n := PutStep(g.1.(q := s.q + [data[0]]), data[1..]).0;
        assert s.q + [data[0]] + data[1..][..n] == s.q + data[..n + 1];
      }
    }
  }

  /** What fits keeps fitting. */
  lemma FitsStill(n: nat, data: seq<Byte>, s: Queue, s': Queue)
    requires PutSoFar(n, data, s, s') && s'.size >= s.size && Fits(s, |data|)
    ensures Fits(s', |data| - n)
  {
    PutFits(s, data);
    PutMeans(s', data[n..]);
  }

  ghost predicate Fits(s: Queue, n: nat)
  {
    |s.q| + n < s.size
  }

  /** Growing is refused for good once the buffer has reached its limit. */
  ghost predicate AtLimit(s: Queue)
  {
    s.maxsize >= 0 && s.size >= s.maxsize
  }

  class RingQ {
    var buf: array<Byte>      // buflen is buf.Length
    var servp: nat            // offset of the first unread byte
    var endp: nat             // offset of the next free slot
    var maxsize: int          // growth limit, negative for none
    var increment: nat
    var grants: seq<bool>     // what the allocator will answer; after that it always succeeds

    ghost predicate Valid()
      reads this
    {
      && servp < buf.Length && endp < buf.Length
      && buf.Length >= 16 && increment >= 16
    }

    ghost function Contents(): (s: seq<Byte>)
      requires Valid()
      reads this, buf
    {
      RingSeq(buf[..], servp, endp)
    }

    ghost function State(): (s: Queue)
      requires Valid()
      reads this, buf
    {
      Queue(Contents(), servp, buf.Length, increment, maxsize, grants)
    }

    ghost predicate AtLimit()
      reads this
    {
      maxsize >= 0 && buf.Length >= maxsize
    }

    constructor Open(initSize: nat, maxsize: int, grants: seq<bool>)
      ensures Valid() && fresh(buf)
      ensures Contents() == [] && servp == endp == 0 && buf[0] == 0
      ensures buf.Length == BinSize(initSize) && increment == BinSize(initSize)
      ensures this.maxsize == maxsize && this.grants == grants
      ensures maxsize == initSize ==> AtLimit()
    {
      var size := GetBinBlockSize(initSize);
      buf := new Byte[size];
      servp, endp := 0, 0;
      this.maxsize, increment, this.grants := maxsize, size, grants;
      new;
      buf[0] := 0;
    }

    function Len(): (n: nat)
      requires Valid()
      reads this, buf
      ensures n == |Contents()| && n < buf.Length
    {
      if servp > endp then buf.Length + endp - servp else endp - servp
    }

    /** The most bytes one straight copy to endp can add. */
    function PutBlkMax(): (n: nat)
      requires Valid()
      reads this, buf
      ensures n == 0 <==> |Contents()| == buf.Length - 1
      ensures |Contents()| + n < buf.Length && endp + n <= buf.Length
      ensures servp <= endp ==> endp + n < buf.Length || servp > 0
    {
      Min(buf.Length - endp, buf.Length - Len() - 1)
    }

    /** The most bytes one straight copy from servp can take. */
    function GetBlkMax(): (n: nat)
      requires Valid()
      reads this, buf
      ensures n == 0 <==> Contents() == []
      ensures n <= |Contents()| && servp + n <= buf.Length
    {
      Min(buf.Length - servp, Len())
    }

    method Flush()
      requires Valid()
      modifies this, buf
      ensures Valid() && buf == old(buf)
      ensures Contents() == [] && servp == 0 && buf[0] == 0
      ensures maxsize == old(maxsize) && increment == old(increment) && grants == old(grants)
    {
      servp, endp := 0, 0;
      buf[servp] := 0;
    }

    /** Move endp past bytes the caller has copied there; a size that cannot be right empties the queue. */
    method PutBlkAdj(size: nat)
      requires Valid()
      modifies this, buf
      ensures Valid() && buf == old(buf)
      ensures size <= old(PutBlkMax()) ==>
                Contents() == old(Contents()) + old(buf[endp..endp + size]) && servp == old(servp)
      ensures old(endp) + size >= 2 * buf.Length ==> Contents() == []
      ensures maxsize == old(maxsize) && increment == old(increment) && grants == old(grants)
    {
      ghost var b, from, room := buf[..], endp, PutBlkMax();
      endp := endp + size;
      if endp >= buf.Length {
        endp := endp - buf.Length;
      }
      if size <= room {
        RingAdvance(b, servp, from, size, endp);
      }
      if endp >= buf.Length {
        servp, endp := 0, 0;
        buf[0] := 0;
      }
    }

    /** Move servp past bytes the caller has copied out. */
    method GetBlkAdj(size: nat)
      requires Valid()
      modifies this, buf
      ensures Valid() && buf == old(buf)
      ensures size <= old(|Contents()|) ==>
                Contents() == old(Contents())[size..] && endp == old(endp) && servp == Wrapped(old(servp) + size, buf.Length)
      ensures old(servp) + size >= 2 * buf.Length ==> Contents() == []
      ensures maxsize == old(maxsize) && increment == old(increment) && grants == old(grants)
    {
      servp := servp + size;
      if servp >= buf.Length {
        servp := servp - buf.Length;
      }
      if size <= old(|Contents()|) {
        RingDrop(buf[..], old(servp), endp, size, servp);
      }
      if servp >= buf.Length {
        servp, endp := 0, 0;
        buf[0] := 0;
      }
    }

    /** One straight copy out of the queue. */
    method CopyOut(n: nat) returns (data: seq<Byte>)
      requires Valid() && n <= GetBlkMax()
      modifies this`servp
      ensures Valid()
      ensures |data| == n && old(Contents()) == data + Contents()
    {
      ghost var b, from := buf[..], servp;
      data := buf[servp..servp + n];
      servp := servp + n;
      if servp >= buf.Length {
        servp := 0;
      }
      RingTake(b, from, endp, n, servp);
    }

    method GetBlk(size: nat) returns (data: seq<Byte>)
      requires Valid()
      modifies this`servp
      ensures Valid()
      ensures |data| == Min(size, old(|Contents()|))
      ensures old(Contents()) == data + Contents()
    {
      data := [];
      var left: nat := size;
      ghost var all, b := Contents(), buf[..];
      while left > 0
        invariant Valid() && buf[..] == b
        invariant |data| + left == size
        invariant all == data + RingSeq(b, servp, endp)
        decreases left
      {
        var chunk := Min(GetBlkMax(), left);
        if chunk <= 0 {
          break;
        }
        var more := CopyOut(chunk);
        Regroup(data, more, RingSeq(b, servp, endp));
        data := data + more;
        left := left - chunk;
      }
    }

    /** One straight copy into the queue. */
    method CopyIn(data: seq<Byte>)
      requires Valid() && |data| <= PutBlkMax()
      modifies this`endp, buf
      ensures Valid() && Contents() == old(Contents()) + data
    {
      forall i | 0 <= i < |data| {
        buf[endp + i] := data[i];
      }
      endp := endp + |data|;
      if endp >= buf.Length {
        endp := 0;
      }
      RingAppend(old(buf[..]), servp, old(endp), data, buf[..], endp);
    }

    /** Copy into the room at the end, as far as it goes. */
    method CopySome(data: seq<Byte>) returns (k: nat)
      requires Valid() && data != [] && PutBlkMax() > 0
      modifies this`endp, buf
      ensures Valid() && 0 < k <= |data| && PutsOn(k, data, old(State()), State())
    {
      k := Min(PutBlkMax(), |data|);
      PutInParts(State(), data, k);
      CopyIn(data[..k]);
    }

    /** Copy into the room at the end; if there is none, grow first. Nothing is copied when that fails. */
    method PutRound(data: seq<Byte>) returns (k: nat)
      requires Valid() && data != []
      modifies this, buf
      ensures Valid() && (buf == old(buf) || (fresh(buf) && buf.Length > old(buf.Length)))
      ensures k <= |data| && PutsOn(k, data, old(State()), State())
      decreases if Fits(State(), |data|) then 0 else 1, 1
    {
      if PutBlkMax() <= 0 {
        GrowFirst(State(), data);
        var grown := Grow();
        if !grown {
          return 0;
        }
      }
      k := CopySome(data);
    }

    /** A round of a longer append, of which n bytes are done. */
    method PutMore(data: seq<Byte>, n: nat, ghost was: Queue) returns (k: nat)
      requires Valid() && n < |data| && PutSoFar(n, data, was, State()) && was.size <= buf.Length
      modifies this, buf
      ensures Valid() && (buf == old(buf) || (fresh(buf) && buf.Length > old(buf.Length)))
      ensures k == 0 ==> PutStep(was, data) == (n, State())
      ensures k > 0 ==> PutSoFar(n + k, data, was, State())
      decreases if Fits(was, |data|) then 0 else 1, 2
    {
      ghost var mid := State();
      if Fits(was, |data|) { FitsStill(n, data, was, mid); }
      k := PutRound(data[n..]);
      PutOneMore(n, k, data, was, mid, State());
    }

    method PutBlk(data: seq<Byte>) returns (n: nat)
      requires Valid()
      modifies this, buf
      ensures Valid() && (n, State()) == PutStep(old(State()), data)
      ensures buf == old(buf) || (fresh(buf) && buf.Length > old(buf.Length))
      decreases if Fits(State(), |data|) then 0 else 1, 3
    {
      n := 0;
      ghost var was, b := State(), buf;
      assert data[0..] == data;
      while n < |data|
        invariant Valid() && PutSoFar(n, data, was, State())
        invariant buf == b || (fresh(buf) && buf.Length > b.Length)
        decreases |data| - n
      {
        var k := PutMore(data, n, was);
        if k == 0 {
          return;
        }
        n := n + k;
      }
    }

    /** Move the contents to the start of a larger buffer. */
    method Grow() returns (ok: bool)
      requires Valid()
      modifies this, buf
      ensures Valid() && (ok, State()) == GrowStep(old(State()))
      ensures if ok then fresh(buf) && buf.Length > old(buf.Length) else buf == old(buf)
      decreases 1, 0
    {
      if maxsize >= 0 && buf.Length >= maxsize {
        return false;
      }
      ok := grants == [] || grants[0];
      grants := if grants == [] then [] else grants[1..];
      if ok {
        Enlarge();
      }
    }

    method Enlarge()
      requires Valid()
      modifies this, buf
      ensures Valid() && fresh(buf) && buf.Length > old(buf.Length)
      ensures State() == Queue(old(Contents()), 0, old(buf.Length + increment), BinSize(2 * old(increment)), old(maxsize), old(grants))
      decreases 0, 5
    {
      ghost var all := Contents();
      var newbuf := new Byte[buf.Length + increment];
      var data := GetBlk(Len());
      assert data == all;
      Refill(newbuf, data);
      increment := GetBinBlockSize(2 * increment);
    }

    method Refill(newbuf: array<Byte>, data: seq<Byte>)
      requires Valid() && newbuf.Length >= 16 && |data| < newbuf.Length
      modifies this, newbuf
      ensures Valid() && buf == newbuf
      ensures State() == Queue(data, 0, newbuf.Length, old(increment), old(maxsize), old(grants))
      decreases 0, 4
    {
      buf, servp, endp := newbuf, 0, 0;
      assert Contents() == [];
      PutFits(State(), data);
      var put := PutBlk(data);
    }

    method Getc() returns (c: int)
      requires Valid()
      modifies this`servp
      ensures Valid() && ([c], State()) == QueueStep(Get, old(State()))
    {
      if servp == endp {
        return -1;
      }
      c := buf[servp];
      ghost var from := servp;
      servp := servp + 1;
      if servp >= buf.Length {
        servp := 0;
      }
      RingTake(buf[..], from, endp, 1, servp);
    }

    /** Room for one more byte, if need be in a larger buffer. */
    method MakeRoom() returns (ok: bool)
      requires Valid()
      modifies this, buf
      ensures Valid() && (ok, State()) == RoomStep(old(State()))
      ensures buf == old(buf) || (fresh(buf) && buf.Length > old(buf.Length))
    {
      ok := true;
      if PutBlkMax() < 1 {
        ok := Grow();
      }
    }

    method Putc(c: Byte) returns (rc: int)
      requires Valid()
      modifies this, buf
      ensures Valid() && (buf == old(buf) || (fresh(buf) && buf.Length > old(buf.Length)))
      ensures ([rc], State()) == QueueStep(Put(c), old(State()))
    {
      var ok := MakeRoom();
      if !ok {
        return -1;
      }
      CopyIn([c]);
      rc := 0;
    }

    /** Put a byte back in front of the unread ones. */
    method Insertc(c: Byte) returns (rc: int)
      requires Valid()
      modifies this, buf
      ensures Valid() && (buf == old(buf) || (fresh(buf) && buf.Length > old(buf.Length)))
      ensures ([rc], State()) == QueueStep(Insert(c), old(State()))
    {
      var ok := MakeRoom();
      if !ok {
        return -1;
      }
      var cp := if servp <= 0 then buf.Length else servp;
      cp := cp - 1;
      RingPrepend(buf[..], servp, endp, c, cp);
      buf[cp] := c;
      servp := cp;
      rc := 0;
    }

    /** The terminating NUL goes into the free slot, so no queued byte is touched. */
    method PutStr(str: seq<Byte>) returns (n: nat)
      requires Valid()
      modifies this, buf
      ensures Valid() && (buf == old(buf) || (fresh(buf) && buf.Length > old(buf.Length)))
      ensures (n, State()) == PutStep(old(State()), str) && buf[endp] == 0
    {
      n := PutBlk(str);
      ghost var before := Contents();
      buf[endp] := 0;
      assert Contents() == before;
    }

    /** What a caller does with the room at the end: copy into it, and count the bytes. */
    method CopyAndAdjust(data: seq<Byte>) returns (n: nat)
      requires Valid()
      modifies this, buf
      ensures Valid() && buf == old(buf) && ([n], State()) == QueueStep(PutStraight(data), old(State()))
    {
      n := Min(PutBlkMax(), |data|);
      Poke(data[..n]);
      PutBlkAdj(n);
    }

    /** The caller's straight copy to endp. */
    method Poke(data: seq<Byte>)
      requires Valid() && |data| <= PutBlkMax()
      modifies buf
      ensures Contents() == old(Contents()) && buf[endp..endp + |data|] == data
    {
      ghost var b := buf[..];
      forall i | 0 <= i < |data| {
        buf[endp + i] := data[i];
      }
      assert buf[..] == b[..endp] + data + b[endp + |data|..];
      RingKept(b, servp, endp, data, buf[..]);
      assert buf[..][endp..endp + |data|] == buf[endp..endp + |data|];
    }

    /** What a caller does with the run at the start: copy it out, and count the bytes. */
    method CopyOutAndAdjust(size: nat) returns (data: seq<Byte>)
      requires Valid()
      modifies this, buf
      ensures Valid() && buf == old(buf) && (data, State()) == QueueStep(TakeStraight(size), old(State()))
    {
      var n := Min(GetBlkMax(), size);
      data := Front(n);
      GetBlkAdj(n);
    }

    /** The first bytes, in a row from servp. */
    method Front(n: nat) returns (data: seq<Byte>)
      requires Valid() && n <= GetBlkMax()
      ensures data == Contents()[..n]
    {
      RingStraight(buf[..], servp, endp, n);
      data := buf[servp..servp + n];
    }
  }

  // ----- Whole runs -----

  datatype Op =
    | Put(c: Byte) | Insert(c: Byte) | PutAll(s: seq<Byte>) | PutText(s: seq<Byte>) | PutStraight(s: seq<Byte>)
    | Take(n: nat) | TakeStraight(n: nat) | Get | Empty

  function Answer(n: int): (r: seq<int>)
  {
    [n]
  }

  function Dropped(s: Queue, n: nat): (r: Queue)
    requires QueueOk(s) && n <= |s.q|
  {
    s.(q := s.q[n..], start := Wrapped(s.start + n, s.size))
  }

  /** One operation on the value: what it answers or hands out, and the queue after it. */
  function QueueStep(op: Op, s: Queue): (r: (seq<int>, Queue))
    requires QueueOk(s)
    ensures QueueOk(r.1)
  {
    match op
    case Put(c) =>
      var g := RoomStep(s);
      if g.0 then ([0], g.1.(q := s.q + [c])) else ([-1], g.1)
    case Insert(c) =>
      var g := RoomStep(s);
      if g.0 then ([0], g.1.(q := [c] + s.q, start := if g.1.start == 0 then g.1.size - 1 else g.1.start - 1)) else ([-1], g.1)
    case PutAll(t) => var r := PutStep(s, t); ([r.0], r.1)
    case PutText(t) => var r := PutStep(s, t); ([r.0], r.1)
    case PutStraight(t) => var n := Min(RoomAtEnd(s), |t|); ([n], s.(q := s.q + t[..n]))
    case Take(n) => (s.q[..Min(n, |s.q|)], Dropped(s, Min(n, |s.q|)))
    case TakeStraight(n) => (s.q[..Min(RunAtStart(s), n)], Dropped(s, Min(RunAtStart(s), n)))
    case Get => if s.q == [] then (Answer(-1), s) else (Answer(s.q[0]), Dropped(s, 1))
    case Empty => ([], s.(q := [], start := 0))
  }

  function QueueRun(ops: seq<Op>, s: Queue): (r: (seq<int>, Queue))
    requires QueueOk(s)
    ensures QueueOk(r.1)
  {
    if ops == [] then ([], s) else
      var step := QueueStep(ops[0], s);
      var rest := QueueRun(ops[1..], step.1);
      (step.0 + rest.0, rest.1)
  }

  method Step(rq: RingQ, op: Op) returns (out: seq<int>)
    requires rq.Valid()
    modifies rq, rq.buf
    ensures rq.Valid() && (rq.buf == old(rq.buf) || (fresh(rq.buf) && rq.buf.Length > old(rq.buf.Length)))
    ensures (out, rq.State()) == QueueStep(op, old(rq.State()))
    ensures op.PutText? ==> rq.buf[rq.endp] == 0
  {
    if op.Put? {
      var rc := rq.Putc(op.c);
      out := [rc];
    } else if op.Insert? {
      var rc := rq.Insertc(op.c);
      out := [rc];
    } else if op.PutAll? {
      var n := rq.PutBlk(op.s);
      out := [n];
    } else if op.PutText? {
      var n := rq.PutStr(op.s);
      out := [n];
    } else if op.PutStraight? {
      var n := rq.CopyAndAdjust(op.s);
      out := [n];
    } else if op.Take? {
      out := rq.GetBlk(op.n);
    } else if op.TakeStraight? {
      out := rq.CopyOutAndAdjust(op.n);
    } else if op.Get? {
      var c := rq.Getc();
      out := [c];
    } else {
      rq.Flush();
      out := [];
    }
  }

  /** Any run on a queue is the same run on the value; a queue at its limit keeps its buffer. */
  method Run(rq: RingQ, ops: seq<Op>) returns (out: seq<int>)
    requires rq.Valid()
    modifies rq, rq.buf
    ensures rq.Valid() && (out, rq.State()) == QueueRun(ops, old(rq.State()))
    ensures rq.buf == old(rq.buf) || (fresh(rq.buf) && rq.buf.Length > old(rq.buf.Length))
    ensures old(rq.AtLimit()) ==> rq.buf == old(rq.buf)
    decreases |ops|
  {
    if AtLimit(rq.State()) { RunAtLimit(ops, rq.State()); }
    if ops == [] {
      return [];
    }
    var first := Step(rq, ops[0]);
    var rest := Run(rq, ops[1..]);
    out := first + rest;
  }

  // ----- What the value stands for -----

  /** One operation on a plain sequence that takes everything: the bytes it hands out, and the sequence after it. */
  function SeqStep(op: Op, q: seq<Byte>): (r: (seq<int>, seq<Byte>))
  {
    match op
    case Put(c) => ([0], q + [c])
    case Insert(c) => ([0], [c] + q)
    case PutAll(t) => ([|t|], q + t)
    case PutText(t) => ([|t|], q + t)
    case PutStraight(t) => ([|t|], q + t)
    case Take(n) => (q[..Min(n, |q|)], q[Min(n, |q|)..])
    case TakeStraight(n) => (q[..Min(n, |q|)], q[Min(n, |q|)..])
    case Get => if q == [] then (Answer(-1), []) else (Answer(q[0]), q[1..])
    case Empty => ([], [])
  }

  /** How much of an operation a queue of this state does: all of it, nothing, or a part. */
  function Allowed(op: Op, s: Queue): (op': Option<Op>)
    requires QueueOk(s)
  {
    match op
    case Put(c) => if RoomStep(s).0 then Some(op) else None
    case Insert(c) => if RoomStep(s).0 then Some(op) else None
    case PutAll(t) => PutMeans(s, t); Some(PutAll(t[..PutStep(s, t).0]))
    case PutText(t) => PutMeans(s, t); Some(PutText(t[..PutStep(s, t).0]))
    case PutStraight(t) => Some(PutStraight(t[..Min(RoomAtEnd(s), |t|)]))
    case TakeStraight(n) => Some(TakeStraight(Min(RunAtStart(s), n)))
    case _ => Some(op)
  }

  /** An operation does its allowed part as a plain sequence does, or answers -1 and leaves the sequence. */
  lemma StepIsSeqStep(op: Op, s: Queue)
    requires QueueOk(s)
    ensures var r := QueueStep(op, s);
            match Allowed(op, s)
            case None => r.0 == [-1] && r.1.q == s.q
            case Some(op') => (r.0, r.1.q) == SeqStep(op', s.q)
  {
    match op
    case PutAll(t) => PutMeans(s, t);
    case PutText(t) => PutMeans(s, t);
    case _ =>
  }

  /** An operation that appends is cut short exactly when the queue is full and could not grow. */
  lemma CutShort(op: Op, s: Queue)
    requires QueueOk(s) && (op.Put? || op.Insert? || op.PutAll? || op.PutText?)
    ensures var r := QueueStep(op, s);
            && (Allowed(op, s) != Some(op) ==> |r.1.q| == r.1.size - 1 && (s.grants == [] ==> AtLimit(r.1)))
            && (AtLimit(s) ==> (Allowed(op, s) == Some(op) <==>
                                  |s.q| + (if op.Put? || op.Insert? then 1 else |op.s|) < s.size))
  {
    if op.PutAll? || op.PutText? {
      PutMeans(s, op.s);
      assert op.s[..|op.s|] == op.s;
    }
  }

  lemma StepAtLimit(op: Op, s: Queue)
    requires QueueOk(s) && AtLimit(s)
    ensures var r := QueueStep(op, s).1; AtLimit(r) && r.size == s.size && r.inc == s.inc && r.grants == s.grants
  {
    match op
    case PutAll(t) => PutMeans(s, t);
    case PutText(t) => PutMeans(s, t);
    case _ =>
  }

  /** A queue at its limit never grows in any run, and so never holds more than its size less one. */
  lemma {:induction false} RunAtLimit(ops: seq<Op>, s: Queue)
    requires QueueOk(s) && AtLimit(s)
    ensures var r := QueueRun(ops, s).1; AtLimit(r) && r.size == s.size && |r.q| < s.size
  {
    if ops != [] {
      StepAtLimit(ops[0], s);
      RunAtLimit(ops[1..], QueueStep(ops[0], s).1);
    }
  }

  function SeqRun(ops: seq<Op>, q: seq<Byte>): (r: (seq<int>, seq<Byte>))
  {
    if ops == [] then ([], q) else
      var step := SeqStep(ops[0], q);
      var rest := SeqRun(ops[1..], step.1);
      (step.0 + rest.0, rest.1)
  }

  /** The parts of a run's operations that are done. */
  function AllowedRun(ops: seq<Op>, s: Queue): (r: seq<Op>)
    requires QueueOk(s)
  {
    if ops == [] then [] else
      var rest := AllowedRun(ops[1..], QueueStep(ops[0], s).1);
      if Allowed(ops[0], s).None? then rest else [Allowed(ops[0], s).value] + rest
  }

  /** What a queue holds after any run is what a plain sequence holds after the allowed parts. */
  lemma {:induction false} RunIsSeqRun(ops: seq<Op>, s: Queue)
    requires QueueOk(s)
    ensures QueueRun(ops, s).1.q == SeqRun(AllowedRun(ops, s), s.q).1
  {
    if ops != [] {
      StepIsSeqStep(ops[0], s);
      RunIsSeqRun(ops[1..], QueueStep(ops[0], s).1);
      var rest := AllowedRun(ops[1..], QueueStep(ops[0], s).1);
      if Allowed(ops[0], s).Some? {
        assert ([Allowed(ops[0], s).value] + rest)[1..] == rest;
      }
    }
  }

  /** Operations that do not depend on where the bytes lie in the buffer. */
  predicate Placeless(op: Op)
  {
    !op.PutStraight? && !op.TakeStraight?
  }

  /** Without a limit and with memory, every run is the run on a plain sequence. */
  lemma {:induction false} UnlimitedRun(ops: seq<Op>, s: Queue)
    requires QueueOk(s) && s.maxsize < 0 && s.grants == []
    requires forall i :: 0 <= i < |ops| ==> Placeless(ops[i])
    ensures var r := QueueRun(ops, s); (r.0, r.1.q) == SeqRun(ops, s.q)
  {
    if ops != [] {
      var op := ops[0];
      StepIsSeqStep(op, s);
      if op.PutAll? || op.PutText? {
        PutMeans(s, op.s);
        assert op.s[..|op.s|] == op.s;
      }
      assert forall i :: 0 <= i < |ops[1..]| ==> ops[1..][i] == ops[i + 1];
      UnlimitedRun(ops[1..], QueueStep(op, s).1);
    }
  }
}
