/** Streaming MD5 of md5c.c, over any 64-byte block function. */
module Md5 {
  import opened Basics

  const WORD: int := 0x1_0000_0000
  const BLOCK: nat := 64

  type Word = x: int | 0 <= x < 0x1_0000_0000

  /** The chaining state ABCD. */
  datatype Chain = Chain(a: Word, b: Word, c: Word, d: Word)

  type BlockFunction = (Chain, seq<Byte>) -> Chain

  const PADDING: seq<Byte> := [0x80] + seq(63, _ => 0)

  const INITIAL: Chain := Chain(0x67452301, 0xefcdab89, 0x98badcfe, 0x10325476)

  // ----- Little-endian words -----

  function WordBytes(w: Word): (s: seq<Byte>)
    ensures |s| == 4
  {
    [w % 256, w / 256 % 256, w / 65536 % 256, w / 16777216 % 256]
  }

  function WordOf(b0: int, b1: int, b2: int, b3: int): (w: Word)
    requires 0 <= b0 < 256 && 0 <= b1 < 256 && 0 <= b2 < 256 && 0 <= b3 < 256
  {
    b0 + 256 * b1 + 65536 * b2 + 16777216 * b3
  }

  lemma Quotient256(lo: nat, hi: nat)
    requires lo < 256
    ensures (lo + 256 * hi) / 256 == hi && (lo + 256 * hi) % 256 == lo
  {
  }

  lemma Quotient65536(lo: nat, hi: nat)
    requires lo < 65536
    ensures (lo + 65536 * hi) / 65536 == hi
  {
  }

  lemma Quotient16777216(lo: nat, hi: nat)
    requires lo < 16777216
    ensures (lo + 16777216 * hi) / 16777216 == hi
  {
  }

  lemma WordOfBytes(w: Word)
    ensures var s := WordBytes(w); w == WordOf(s[0], s[1], s[2], s[3])
  {
    WordDigits(w, w / 256 / 256 / 256, w / 256 / 256 % 256, w / 256 % 256, w % 256);
  }

  lemma WordDigits(w: Word, b3: int, b2: int, b1: int, b0: int)
    requires w == b0 + 256 * b1 + 65536 * b2 + 16777216 * b3
    requires 0 <= b0 < 256 && 0 <= b1 < 256 && 0 <= b2 < 256 && 0 <= b3 < 256
    ensures WordBytes(w) == [b0, b1, b2, b3]
  {
    Quotient256(b0, b1 + 256 * b2 + 65536 * b3);
    Quotient65536(b0 + 256 * b1, b2 + 256 * b3);
    Quotient16777216(b0 + 256 * b1 + 65536 * b2, b3);
    Quotient256(b1, b2 + 256 * b3);
    Quotient256(b2, b3);
  }

  function Bytes(ws: seq<Word>): (s: seq<Byte>)
    ensures |s| == 4 * |ws|
  {
    if ws == [] then [] else Bytes(ws[..|ws| - 1]) + WordBytes(ws[|ws| - 1])
  }

  method Encode(input: seq<Word>) returns (output: seq<Byte>)
    ensures output == Bytes(input)
  {
    output := [];
    for i := 0 to |input|
      invariant output == Bytes(input[..i])
    {
      var w := input[i];
      assert input[..i + 1][..i] == input[..i];
      output := output + [w % 256, w / 256 % 256, w / 65536 % 256, w / 16777216 % 256];
    }
    assert input[..|input|] == input;
  }

  lemma BytesAt(input: seq<Byte>, j: nat)
    requires j + 4 <= |input|
    ensures WordBytes(WordOf(input[j], input[j + 1], input[j + 2], input[j + 3])) == input[j..j + 4]
  {
    WordDigits(WordOf(input[j], input[j + 1], input[j + 2], input[j + 3]), input[j + 3], input[j + 2], input[j + 1], input[j]);
  }

  lemma BytesMore(output: seq<Word>, w: Word, input: seq<Byte>, j: nat)
    requires j + 4 <= |input| && Bytes(output) == input[..j] && WordBytes(w) == input[j..j + 4]
    ensures Bytes(output + [w]) == input[..j + 4]
  {
    assert (output + [w])[..|output|] == output;
    assert input[..j + 4] == input[..j] + input[j..j + 4];
  }

  method Decode(input: seq<Byte>) returns (output: seq<Word>)
    requires |input| % 4 == 0
    ensures |output| == |input| / 4 && Bytes(output) == input
  {
    output := [];
    var j := 0;
    while j < |input|
      invariant 0 <= j <= |input| && j % 4 == 0 && |output| == j / 4
      invariant Bytes(output) == input[..j]
    {
      var w := WordOf(input[j], input[j + 1], input[j + 2], input[j + 3]);
      BytesAt(input, j);
      BytesMore(output, w, input, j);
      output := output + [w];
      j := j + 4;
    }
    assert input[..j] == input;
  }

  /** Distinct word sequences have distinct encodings, so decoding undoes encoding. */
  lemma {:induction false} BytesInjective(a: seq<Word>, b: seq<Word>)
    requires Bytes(a) == Bytes(b)
    ensures a == b
  {
    assert |a| == |b|;
    if a != [] {
      var n := |a| - 1;
      var x, y := Bytes(a[..n]), Bytes(b[..n]);
      assert Bytes(a)[..4 * n] == x && Bytes(b)[..4 * n] == y;
      assert Bytes(a)[4 * n..] == WordBytes(a[n]) && Bytes(b)[4 * n..] == WordBytes(b[n]);
      BytesInjective(a[..n], b[..n]);
      assert WordBytes(a[n]) == WordBytes(b[n]);
      WordBytesInjective(a[n], b[n]);
      assert a == a[..n] + [a[n]] && b == b[..n] + [b[n]];
    }
  }

  lemma WordBytesInjective(a: Word, b: Word)
    requires WordBytes(a) == WordBytes(b)
    ensures a == b
  {
    WordOfBytes(a);
    WordOfBytes(b);
  }

  // ----- What MD5 computes -----

  /** The block function folded over the first k blocks of a message. */
  ghost function Folded(f: BlockFunction, m: seq<Byte>, k: nat): (r: Chain)
    requires BLOCK * k <= |m|
    decreases k
  {
    if k == 0 then INITIAL else f(Folded(f, m, k - 1), m[BLOCK * (k - 1)..BLOCK * k])
  }

  /** Bytes after the first k blocks do not matter to them. */
  lemma {:induction false} FoldedPrefix(f: BlockFunction, m: seq<Byte>, more: seq<Byte>, k: nat)
    requires BLOCK * k <= |m|
    ensures Folded(f, m + more, k) == Folded(f, m, k)
  {
    if k > 0 {
      FoldedPrefix(f, m, more, k - 1);
      assert (m + more)[BLOCK * (k - 1)..BLOCK * k] == m[BLOCK * (k - 1)..BLOCK * k];
    }
  }

  /** Bytes of padding: at least one, so that 8 bytes are missing to a whole block. */
  function PadLength(n: nat): (k: nat)
    ensures 1 <= k <= BLOCK && (n + k) % BLOCK == 56
  {
    if n % BLOCK < 56 then 56 - n % BLOCK else 120 - n % BLOCK
  }

  function Padding(k: nat): (s: seq<Byte>)
    ensures |s| == k
  {
    seq(k, i => if i == 0 then 0x80 else 0)
  }

  /** The bit length modulo 2^64 as two words, low word first. */
  function BitLength(n: nat): (ws: seq<Word>)
    ensures |ws| == 2
  {
    [8 * n % WORD, 8 * n / WORD % WORD]
  }

  /** The padded message of sections 3.1 and 3.2 of RFC 1321. */
  function Padded(m: seq<Byte>): (p: seq<Byte>)
    ensures |p| % BLOCK == 0 && m <= p
  {
    m + Padding(PadLength(|m|)) + Bytes(BitLength(|m|))
  }

  ghost function Digest(f: BlockFunction, m: seq<Byte>): (d: seq<Byte>)
  {
    var r := Folded(f, Padded(m), |Padded(m)| / BLOCK);
    Bytes([r.a, r.b, r.c, r.d])
  }

  // ----- The standard's own words -----

  /** A number from its bytes, lowest first. */
  ghost function Number(s: seq<Byte>): (n: nat)
  {
    if s == [] then 0 else s[0] + 256 * Number(s[1..])
  }

  /**
   * Sections 3.1 and 3.2 of RFC 1321: the message, a byte 80, zero bytes, and the bit length modulo
   * 2^64 in eight bytes, lowest first; as few zeros as make whole blocks.
   */
  ghost predicate Rfc1321(m: seq<Byte>, p: seq<Byte>)
  {
    && |p| % 64 == 0 && |m| + 9 <= |p| < |m| + 73
    && p[..|m|] == m && p[|m|] == 0x80 && (forall i :: |m| < i < |p| - 8 ==> p[i] == 0)
    && Number(p[|p| - 8..]) == 8 * |m| % 0x1_0000_0000_0000_0000
  }

  lemma NumberOfOne(b: Byte, rest: seq<Byte>)
    ensures Number([b] + rest) == b + 256 * Number(rest)
  {
    assert ([b] + rest)[1..] == rest;
  }

  lemma NumberOfFour(b0: Byte, b1: Byte, b2: Byte, b3: Byte, rest: seq<Byte>)
    ensures Number([b0, b1, b2, b3] + rest) == b0 + 256 * b1 + 65536 * b2 + 16777216 * b3 + WORD * Number(rest)
  {
    var s3 := [b3] + rest;
    var s2 := [b2] + s3;
    var s1 := [b1] + s2;
    assert [b0, b1, b2, b3] + rest == [b0] + s1;
    NumberOfOne(b3, rest);
    NumberOfOne(b2, s3);
    NumberOfOne(b1, s2);
    NumberOfOne(b0, s1);
    var n, n3 := Number(rest), Number(s3);
    assert Number([b0] + s1) == b0 + 256 * (b1 + 256 * (b2 + 256 * n3)) && n3 == b3 + 256 * n;
  }

  lemma NumberOfWord(w: Word, rest: seq<Byte>)
    ensures Number(WordBytes(w) + rest) == w + WORD * Number(rest)
  {
    var b := WordBytes(w);
    WordOfBytes(w);
    NumberOfFour(b[0], b[1], b[2], b[3], rest);
    assert b == [b[0], b[1], b[2], b[3]];
  }

  lemma BytesOfTwo(a: Word, b: Word)
    ensures Bytes([a, b]) == WordBytes(a) + WordBytes(b)
  {
    assert [a, b][..1] == [a] && [a][..0] == [];
  }

  /** Two words hold a number modulo 2^64. */
  lemma TwoWords(n: nat)
    ensures n % WORD + WORD * (n / WORD % WORD) == n % 0x1_0000_0000_0000_0000
  {
    var q, r := n / WORD, n % WORD;
    var k, t := q / WORD, q % WORD;
    assert n == 0x1_0000_0000_0000_0000 * k + (WORD * t + r);
  }

  /** The padding is the standard's. */
  lemma PaddedIs(m: seq<Byte>)
    ensures Rfc1321(m, Padded(m))
  {
    var k, ws, p := PadLength(|m|), BitLength(|m|), Padded(m);
    var tail := Bytes(ws);
    BytesOfTwo(ws[0], ws[1]);
    assert ws == [ws[0], ws[1]];
    assert p == m + (Padding(k) + tail) && p[|p| - 8..] == tail;
    NumberOfWord(ws[0], WordBytes(ws[1]));
    NumberOfWord(ws[1], []);
    assert WordBytes(ws[1]) + [] == WordBytes(ws[1]);
    TwoWords(8 * |m|);
  }

  lemma {:induction false} NumberInjective(a: seq<Byte>, b: seq<Byte>)
    requires |a| == |b| && Number(a) == Number(b)
    ensures a == b
  {
    if a != [] {
      Quotient256(a[0], Number(a[1..]));
      Quotient256(b[0], Number(b[1..]));
      NumberInjective(a[1..], b[1..]);
      assert a == [a[0]] + a[1..] && b == [b[0]] + b[1..];
    }
  }

  /** Nothing else is. */
  lemma PaddedOnly(m: seq<Byte>, p: seq<Byte>)
    requires Rfc1321(m, p)
    ensures p == Padded(m)
  {
    var q := Padded(m);
    PaddedIs(m);
    SameBlocks(|p|, |q|, |m|);
    NumberInjective(p[|p| - 8..], q[|q| - 8..]);
    forall i | 0 <= i < |p|
      ensures p[i] == q[i]
    {
      if i < |m| {
        assert p[i] == p[..|m|][i] && q[i] == q[..|m|][i];
      } else if i >= |p| - 8 {
        assert p[i] == p[|p| - 8..][i - (|p| - 8)] && q[i] == q[|q| - 8..][i - (|q| - 8)];
      }
    }
  }

  lemma SameBlocks(a: nat, b: nat, n: nat)
    requires a % 64 == 0 && b % 64 == 0 && n + 9 <= a < n + 73 && n + 9 <= b < n + 73
    ensures a == b
  {
  }

  /** Section 3.3: the bytes of the initial words. */
  lemma InitialBytes()
    ensures WordBytes(INITIAL.a) + WordBytes(INITIAL.b) + WordBytes(INITIAL.c) + WordBytes(INITIAL.d) ==
            [0x01, 0x23, 0x45, 0x67, 0x89, 0xab, 0xcd, 0xef, 0xfe, 0xdc, 0xba, 0x98, 0x76, 0x54, 0x32, 0x10]
  {
    WordDigits(INITIAL.a, 0x67, 0x45, 0x23, 0x01);
    WordDigits(INITIAL.b, 0xef, 0xcd, 0xab, 0x89);
    WordDigits(INITIAL.c, 0x98, 0xba, 0xdc, 0xfe);
    WordDigits(INITIAL.d, 0x10, 0x32, 0x54, 0x76);
  }

  /** The states of a hash: from the initial words on, each block of the padded message gives the next. */
  ghost predicate Chained(f: BlockFunction, p: seq<Byte>, states: seq<Chain>)
  {
    && |p| % 64 == 0 && |states| == |p| / 64 + 1 && states[0] == INITIAL
    && forall i :: 0 <= i < |p| / 64 ==> states[i + 1] == f(states[i], p[64 * i..64 * i + 64])
  }

  lemma {:induction false} ChainedFolded(f: BlockFunction, p: seq<Byte>, states: seq<Chain>, k: nat)
    requires Chained(f, p, states) && k <= |p| / 64
    ensures states[k] == Folded(f, p, k)
  {
    if k > 0 { ChainedFolded(f, p, states, k - 1); }
  }

  /** Sections 3.4 and 3.5: the digest is the last state, word A first, each word lowest byte first. */
  lemma DigestIs(f: BlockFunction, m: seq<Byte>, p: seq<Byte>, states: seq<Chain>)
    requires Rfc1321(m, p) && Chained(f, p, states)
    ensures var last := states[|p| / 64];
            Digest(f, m) == WordBytes(last.a) + WordBytes(last.b) + WordBytes(last.c) + WordBytes(last.d)
  {
    PaddedOnly(m, p);
    ChainedFolded(f, p, states, |p| / 64);
    var r := states[|p| / 64];
    BytesOfFour(r.a, r.b, r.c, r.d);
  }

  lemma BytesOfFour(a: Word, b: Word, c: Word, d: Word)
    ensures Bytes([a, b, c, d]) == WordBytes(a) + WordBytes(b) + WordBytes(c) + WordBytes(d)
  {
    BytesOfTwo(a, b);
    assert [a, b, c, d][..3] == [a, b, c] && [a, b, c][..2] == [a, b];
    assert Bytes([a, b, c]) == Bytes([a, b]) + WordBytes(c);
  }

  /** The counter's carry: adding 8 * len to the two words adds it to the 64-bit count. */
  lemma CounterAdd(n: nat, len: nat)
    requires len < WORD
    ensures var c := BitLength(n);
            var low := (c[0] + 8 * len % WORD) % WORD;
            var carry := if low < 8 * len % WORD then 1 else 0;
            BitLength(n + len) == [low, ((c[1] + carry) % WORD + len / 0x2000_0000) % WORD]
  {
    var s, t := 8 * len % WORD, len / 0x2000_0000;
    assert 8 * len == s + WORD * t;
    var lo, hi := 8 * n % WORD, 8 * n / WORD;
    var sum := lo + s;
    var carry := if sum >= WORD then 1 else 0;
    DivMod(8 * (n + len), hi + t + carry, sum - WORD * carry);
    DivMod(sum, carry, sum - WORD * carry);
    ModMod(hi, carry, t);
  }

  lemma DivMod(x: nat, q: nat, r: nat)
    requires x == r + WORD * q && r < WORD
    ensures x / WORD == q && x % WORD == r
  {
  }

  lemma ModMod(hi: nat, carry: nat, t: nat)
    ensures ((hi % WORD + carry) % WORD + t) % WORD == (hi + t + carry) % WORD
  {
    var x := hi % WORD + carry;
    assert (x % WORD + t) % WORD == (x + t) % WORD by {
      DivMod(x, x / WORD, x % WORD);
      ModShift(x % WORD + t, x / WORD);
    }
    ModShift(x + t, hi / WORD);
  }

  lemma ModShift(x: nat, k: nat)
    ensures (x + WORD * k) % WORD == x % WORD
  {
    DivMod(x + WORD * k, x / WORD + k, x % WORD);
  }

  /** The counter knows how many bytes wait in the buffer. */
  lemma IndexOfCount(n: nat)
    ensures BitLength(n)[0] / 8 % BLOCK == n % BLOCK
  {
    var h := 8 * n / WORD;
    var x := n - 0x2000_0000 * h;
    assert 8 * n % WORD == 8 * x;
    BlockShift(x, 0x80_0000 * h);
  }

  lemma BlockShift(x: nat, k: nat)
    ensures (x + BLOCK * k) % BLOCK == x % BLOCK
  {
    var q, r := x / BLOCK, x % BLOCK;
    assert x + BLOCK * k == BLOCK * (q + k) + r;
  }

  // ----- The context -----

  class Context {
    const transform: BlockFunction
    var state: Chain
    var count: seq<Word>
    const buffer: array<Byte>
    ghost var message: seq<Byte>     // everything passed to Update since Init

    ghost predicate Valid()
      reads this, buffer
    {
      && buffer.Length == BLOCK
      && count == BitLength(|message|)
      && state == Folded(transform, message, |message| / BLOCK)
      && buffer[..|message| % BLOCK] == message[|message| - |message| % BLOCK..]
    }

    constructor (transform: BlockFunction)
      ensures Valid() && message == [] && this.transform == transform && fresh(buffer)
    {
      this.transform := transform;
      buffer := new Byte[BLOCK];
      state, count, message := INITIAL, [0, 0], [];
    }

    /** Copy into the buffer. */
    method Fill(at: nat, bytes: seq<Byte>)
      requires at + |bytes| <= buffer.Length
      modifies buffer
      ensures buffer[..at + |bytes|] == old(buffer[..at]) + bytes
    {
      forall k | 0 <= k < |bytes| {
        buffer[at + k] := bytes[k];
      }
    }

    /** Add to the two-word bit count. */
    method Advance(len: nat, ghost n: nat)
      requires len < WORD && count == BitLength(n)
      modifies this`count
      ensures count == BitLength(n + len)
    {
      var shifted := 8 * len % WORD;
      var low := (count[0] + shifted) % WORD;
      var high := count[1];
      if low < shifted {
        high := (high + 1) % WORD;
      }
      high := (high + len / 0x2000_0000) % WORD;
      CounterAdd(n, len);
      count := [low, high];
    }

    /**
     * Take in more of the message: complete the buffered block, run over the whole blocks of the
     * input, and keep the rest. The buffered bytes and the input together must stay below 2^32.
     */
    method Update(input: seq<Byte>)
      requires Valid() && |message| % BLOCK + |input| < WORD
      modifies this, buffer
      ensures Valid() && message == old(message) + input
    {
      IndexOfCount(|message|);
      var index := count[0] / 8 % BLOCK;
      Advance(|input|, |message|);
      ghost var m, k := message + input, |message| / BLOCK;
      FoldedPrefix(transform, message, input, k);
      assert m[BLOCK * k..] == message[BLOCK * k..] + input;
      k := Absorb(input, index, m, k);
      BlockCount(|m|, k);
      message := m;
    }

    /** Fold the whole blocks of the buffered bytes and the input, and keep the rest in the buffer. */
    method Absorb(input: seq<Byte>, index: nat, ghost m: seq<Byte>, ghost k: nat) returns (ghost k': nat)
      requires buffer.Length == BLOCK && index < BLOCK && index + |input| < WORD
      requires BLOCK * k + index + |input| == |m| && m[BLOCK * k..] == buffer[..index] + input
      requires state == Folded(transform, m, k)
      modifies this`state, buffer
      ensures BLOCK * k' <= |m| < BLOCK * k' + BLOCK && state == Folded(transform, m, k')
      ensures buffer[..|m| - BLOCK * k'] == m[BLOCK * k'..]
    {
      var i, at := 0, index;
      k' := k;
      if |input| >= BLOCK - index {
        i := BLOCK - index;
        MiddleOf(m, BLOCK * k, buffer[..index], input, i);
        CompleteBlock(index, input[..i], m, k);
        i, k' := RunBlocks(input, i, index, m, k, k + 1);
        at := 0;
      }
      Fill(at, input[i..]);
    }

    /** Pad, append the bit length counted before the padding, and read the state out. */
    method Final() returns (digest: seq<Byte>)
      requires Valid()
      modifies this, buffer
      ensures digest == Digest(transform, old(message))
      ensures state == Chain(0, 0, 0, 0) && count == [0, 0]
      ensures forall i :: 0 <= i < buffer.Length ==> buffer[i] == 0
    {
      ghost var m := message;
      var bits := Encode(count);
      IndexOfCount(|m|);
      var index := count[0] / 8 % BLOCK;
      var padLen := if index < 56 then 56 - index else 120 - index;
      assert PADDING[..padLen] == Padding(PadLength(|m|));
      Update(PADDING[..padLen]);
      Update(bits);
      assert message == Padded(m);
      digest := Encode([state.a, state.b, state.c, state.d]);
      state, count := Chain(0, 0, 0, 0), [0, 0];
      forall i | 0 <= i < buffer.Length {
        buffer[i] := 0;
      }
    }

    /** Fill up the buffer and run the block function on it. */
    method CompleteBlock(index: nat, bytes: seq<Byte>, ghost m: seq<Byte>, ghost k: nat)
      requires buffer.Length == BLOCK == index + |bytes| && BLOCK * (k + 1) <= |m|
      requires m[BLOCK * k..BLOCK * (k + 1)] == buffer[..index] + bytes
      requires state == Folded(transform, m, k)
      modifies this`state, buffer
      ensures state == Folded(transform, m, k + 1)
    {
      Fill(index, bytes);
      assert buffer[..] == m[BLOCK * k..BLOCK * (k + 1)];
      state := transform(state, buffer[..]);
    }

    /** Run the block function over the input's whole blocks, from an offset on. */
    method RunBlocks(input: seq<Byte>, from: nat, ghost index: nat, ghost m: seq<Byte>, ghost first: nat, ghost done: nat)
      returns (i: nat, ghost k: nat)
      requires from <= |input| && index < BLOCK && index + |input| < WORD
      requires |m| == BLOCK * first + index + |input| && m[BLOCK * first + index..] == input
      requires BLOCK * done == BLOCK * first + index + from && state == Folded(transform, m, done)
      modifies this`state
      ensures from <= i <= |input| < i + BLOCK
      ensures BLOCK * k == BLOCK * first + index + i && state == Folded(transform, m, k)
      ensures m[BLOCK * k..] == input[i..]
    {
      i, k := from, done;
      NoWrap(index, |input|, i, k - first);
      while (i + 63) % WORD < |input|
        invariant from <= i <= |input| && i + 63 < WORD && (i + 63) % WORD == i + 63
        invariant BLOCK * k == BLOCK * first + index + i && state == Folded(transform, m, k)
        decreases |input| - i
      {
        SliceOf(m, input, BLOCK * first + index, i, BLOCK);
        state := transform(state, input[i..i + BLOCK]);
        i, k := i + BLOCK, k + 1;
        NoWrap(index, |input|, i, k - first);
      }
    }
  }

  /** A message's blocks are counted by division. */
  lemma BlockCount(n: nat, k: nat)
    requires BLOCK * k <= n < BLOCK * k + BLOCK
    ensures n / BLOCK == k && n % BLOCK == n - BLOCK * k
  {
  }

  lemma MiddleOf(m: seq<Byte>, at: nat, a: seq<Byte>, b: seq<Byte>, i: nat)
    requires at <= |m| && m[at..] == a + b && i <= |b|
    ensures m[at..at + |a| + i] == a + b[..i] && m[at + |a|..] == b
  {
    assert m[at..][..|a| + i] == m[at..at + |a| + i];
    assert m[at..][|a|..] == m[at + |a|..];
  }

  lemma SliceOf(m: seq<Byte>, input: seq<Byte>, at: nat, i: nat, n: nat)
    requires at <= |m| && m[at..] == input && i + n <= |input|
    ensures m[at + i..at + i + n] == input[i..i + n]
  {
    assert m[at..][i..i + n] == m[at + i..at + i + n];
  }

  /** Hashing a message in pieces, whatever the pieces, gives the digest of their concatenation. */
  method HashPieces(f: BlockFunction, pieces: seq<seq<Byte>>) returns (digest: seq<Byte>)
    requires forall i :: 0 <= i < |pieces| ==> |pieces[i]| < WORD - 63
    ensures digest == Digest(f, Joined(pieces))
  {
    var context := new Context(f);
    for i := 0 to |pieces|
      invariant context.Valid() && context.message == Joined(pieces[..i]) && context.transform == f
      invariant fresh(context) && fresh(context.buffer)
    {
      context.Update(pieces[i]);
      assert pieces[..i + 1][..i] == pieces[..i];
    }
    assert pieces[..|pieces|] == pieces;
    digest := context.Final();
  }

  ghost function Joined(pieces: seq<seq<Byte>>): (m: seq<Byte>)
  {
    if pieces == [] then [] else Joined(pieces[..|pieces| - 1]) + pieces[|pieces| - 1]
  }

  /** Within the bound the loop's offset arithmetic does not wrap round. */
  lemma NoWrap(index: nat, len: nat, i: nat, k: int)
    requires index + len < WORD && i <= len && BLOCK * k == index + i
    ensures i + 63 < WORD && (i + 63) % WORD == i + 63
  {
  }

  /**
   * Outside that bound the guard of the block loop holds for every offset the loop can reach, so the
   * bound is exact: within it the offsets do not wrap and the loop stops.
   */
  lemma GuardNeverFails(index: nat, len: nat, i: nat)
    requires index < BLOCK && len < WORD && index + len >= WORD
    requires i < WORD && (index + i) % BLOCK == 0
    ensures (i + 63) % WORD < len
  {
  }
}
