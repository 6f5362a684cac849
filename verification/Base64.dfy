/** Base64 of base64.c: websEncode64 and the decoder that replaced websDecode64. */
module Base64 {
  import opened Basics

  // Bit fields are written with division and remainder: x & 0x3f is x % 64, x >> 6 is x / 64, and an
  // or of fields that do not meet is a sum.

  type Sextet = x: int | 0 <= x < 64

  const PAD: Byte := 61

  /** The entry of alphabet64. */
  function Letter(x: Sextet): (c: Byte)
  {
    if x < 26 then 65 + x else if x < 52 then 71 + x else if x < 62 then x - 4 else if x == 62 then 43 else 47
  }

  /** The entry of b64_decode_table. */
  function TableEntry(c: Byte): (d: int)
    ensures -1 <= d < 64
  {
    if 65 <= c <= 90 then c - 65
    else if 97 <= c <= 122 then c - 71
    else if 48 <= c <= 57 then c + 4
    else if c == 43 then 62
    else if c == 47 then 63
    else -1
  }

  lemma TableInverts(x: Sextet, c: Byte)
    ensures TableEntry(Letter(x)) == x && TableEntry(PAD) == -1
    ensures TableEntry(c) >= 0 ==> Letter(TableEntry(c)) == c
  {
  }

  /** The letters are those of table 1 of RFC 4648: capitals, small letters, digits, plus and slash. */
  lemma AlphabetIs(x: Sextet)
    ensures x < 26 ==> Letter(x) == 'A' as int + x
    ensures 26 <= x < 52 ==> Letter(x) == 'a' as int + (x - 26)
    ensures 52 <= x < 62 ==> Letter(x) == '0' as int + (x - 52)
    ensures Letter(62) == '+' as int && Letter(63) == '/' as int && PAD == '=' as int
  {
  }

  // ----- Section 4 of RFC 4648 -----

  // The sextets of three bytes, and the bytes of four sextets.
  function X0(a: int): (x: Sextet) requires 0 <= a < 256 { a / 4 }
  function X1(a: int, b: int): (x: Sextet) requires 0 <= a < 256 && 0 <= b < 256 { a % 4 * 16 + b / 16 }
  function X2(b: int, c: int): (x: Sextet) requires 0 <= b < 256 && 0 <= c < 256 { b % 16 * 4 + c / 64 }
  function X3(c: int): (x: Sextet) requires 0 <= c < 256 { c % 64 }
  function B0(x: int, y: int): (b: Byte) requires 0 <= x < 64 && 0 <= y < 64 { x * 4 + y / 16 }
  function B1(y: int, z: int): (b: Byte) requires 0 <= y < 64 && 0 <= z < 64 { y % 16 * 16 + z / 4 }
  function B2(z: int, w: int): (b: Byte) requires 0 <= z < 64 && 0 <= w < 64 { z % 4 * 64 + w }

  lemma GroupInverts(a: Byte, b: Byte, c: Byte)
    ensures B0(X0(a), X1(a, b)) == a && B1(X1(a, b), X2(b, c)) == b && B2(X2(b, c), X3(c)) == c
  {
    Fields(a % 4, b / 16, 16);
    Fields(b % 16, c / 64, 4);
  }

  /** The first byte and the first sextet come highest: both read as the same 24-bit number. */
  lemma BigEndian(a: Byte, b: Byte, c: Byte)
    ensures 262144 * X0(a) + 4096 * X1(a, b) + 64 * X2(b, c) + X3(c) == 65536 * a + 256 * b + c
  {
  }

  lemma Fields(hi: nat, lo: nat, n: nat)
    requires (n == 16 && lo < 16) || (n == 4 && lo < 4)
    ensures (hi * n + lo) / n == hi && (hi * n + lo) % n == lo
  {
  }

  /** Three bytes as four sextets; a short last group is filled with zero bits and padded. */
  function Encoded(s: seq<Byte>): (r: seq<Byte>)
    ensures |r| == 4 * ((|s| + 2) / 3)
  {
    if s == [] then []
    else if |s| == 1 then [Letter(X0(s[0])), Letter(X1(s[0], 0)), PAD, PAD]
    else if |s| == 2 then [Letter(X0(s[0])), Letter(X1(s[0], s[1])), Letter(X2(s[1], 0)), PAD]
    else [Letter(X0(s[0])), Letter(X1(s[0], s[1])), Letter(X2(s[1], s[2])), Letter(X3(s[2]))] + Encoded(s[3..])
  }

  /** Four sextets as three bytes; a short last group gives the bytes it completes. */
  function Decoded(ds: seq<Sextet>): (r: seq<Byte>)
  {
    if |ds| < 2 then []
    else if |ds| == 2 then [B0(ds[0], ds[1])]
    else if |ds| == 3 then [B0(ds[0], ds[1]), B1(ds[1], ds[2])]
    else [B0(ds[0], ds[1]), B1(ds[1], ds[2]), B2(ds[2], ds[3])] + Decoded(ds[4..])
  }

  lemma {:induction false} DecodedLength(ds: seq<Sextet>)
    ensures |Decoded(ds)| == 3 * |ds| / 4
  {
    if |ds| >= 4 {
      DecodedLength(ds[4..]);
    }
  }

  /** The sextet of an alphabet byte; nothing for any other byte. */
  function One(c: Byte): (ds: seq<Sextet>)
  {
    if TableEntry(c) == -1 then [] else [TableEntry(c)]
  }

  /** The sextets of the alphabet bytes of a string. */
  function Sextets(s: seq<Byte>): (ds: seq<Sextet>)
  {
    FlatMap(One, s)
  }

  lemma {:induction false} Quad(a: Byte, b: Byte, c: Byte, d: Byte, t: seq<Byte>)
    ensures Sextets([a, b, c, d] + t) == One(a) + One(b) + One(c) + One(d) + Sextets(t)
  {
    FlatMapOne(One, a); FlatMapOne(One, b); FlatMapOne(One, c); FlatMapOne(One, d);
    FlatMapConcat(One, [a] + [b] + [c] + [d], t);
    FlatMapConcat(One, [a] + [b] + [c], [d]);
    FlatMapConcat(One, [a] + [b], [c]);
    FlatMapConcat(One, [a], [b]);
    assert [a] + [b] + [c] + [d] == [a, b, c, d];
  }

  lemma LetterIsOne(x: Sextet)
    ensures One(Letter(x)) == [x] && One(PAD) == []
  {
  }

  lemma {:induction false} OneByte(a: Byte, z: Byte)
    ensures Decoded(Sextets([Letter(X0(a)), Letter(X1(a, z)), PAD, PAD])) == [a]
  {
    LetterIsOne(X0(a)); LetterIsOne(X1(a, z));
    Quad(Letter(X0(a)), Letter(X1(a, z)), PAD, PAD, []);
    GroupInverts(a, z, z);
    var e := [Letter(X0(a)), Letter(X1(a, z)), PAD, PAD];
    assert e == e + [];
    assert Sextets(e) == [X0(a), X1(a, z)];
  }

  lemma {:induction false} TwoBytes(a: Byte, b: Byte)
    ensures Decoded(Sextets([Letter(X0(a)), Letter(X1(a, b)), Letter(X2(b, 0)), PAD])) == [a, b]
  {
    LetterIsOne(X0(a)); LetterIsOne(X1(a, b)); LetterIsOne(X2(b, 0));
    Quad(Letter(X0(a)), Letter(X1(a, b)), Letter(X2(b, 0)), PAD, []);
    GroupInverts(a, b, 0);
    var e := [Letter(X0(a)), Letter(X1(a, b)), Letter(X2(b, 0)), PAD];
    assert e == e + [];
    assert Sextets(e) == [X0(a), X1(a, b), X2(b, 0)];
  }

  lemma {:induction false} ThreeBytes(a: Byte, b: Byte, c: Byte, t: seq<Byte>)
    ensures Decoded(Sextets([Letter(X0(a)), Letter(X1(a, b)), Letter(X2(b, c)), Letter(X3(c))] + t)) ==
            [a, b, c] + Decoded(Sextets(t))
  {
    LetterIsOne(X0(a)); LetterIsOne(X1(a, b)); LetterIsOne(X2(b, c)); LetterIsOne(X3(c));
    Quad(Letter(X0(a)), Letter(X1(a, b)), Letter(X2(b, c)), Letter(X3(c)), t);
    GroupInverts(a, b, c);
    var ds := [X0(a), X1(a, b), X2(b, c), X3(c)] + Sextets(t);
    assert ds == [X0(a)] + [X1(a, b)] + [X2(b, c)] + [X3(c)] + Sextets(t);
    assert ds[4..] == Sextets(t);
  }

  /** Decoding an encoding gives the bytes back. */
  lemma {:induction false} RoundTrip(s: seq<Byte>)
    ensures Decoded(Sextets(Encoded(s))) == s
  {
    if |s| == 1 {
      OneByte(s[0], 0);
      assert s == [s[0]];
    } else if |s| == 2 {
      TwoBytes(s[0], s[1]);
      assert s == [s[0], s[1]];
    } else if |s| >= 3 {
      RoundTrip(s[3..]);
      ThreeBytes(s[0], s[1], s[2], Encoded(s[3..]));
      assert s == [s[0], s[1], s[2]] + s[3..];
    }
  }

  // ----- b64_decode -----

  /** The position of the next sextet in its group of four. */
  function Phase(n: nat): (p: nat)
    ensures p < 4
  {
    if n < 4 then n else Phase(n - 4)
  }

  lemma {:induction false} PhaseNext(n: nat)
    ensures Phase(n + 1) == if Phase(n) == 3 then 0 else Phase(n) + 1
  {
    if n >= 4 { PhaseNext(n - 4); }
  }

  /** What one more sextet completes, given its place in the group and the sextet before it. */
  function Completed(phase: nat, prev: int, d: int): (r: seq<Byte>)
    requires 0 <= prev < 64 && 0 <= d < 64
    ensures |r| == if phase == 0 then 0 else 1
  {
    if phase == 0 then [] else if phase == 1 then [B0(prev, d)] else if phase == 2 then [B1(prev, d)] else [B2(prev, d)]
  }

  ghost function Last(ds: seq<Sextet>): (d: Sextet)
  {
    if ds == [] then 0 else ds[|ds| - 1]
  }

  lemma {:induction false} DecodedStep(ds: seq<Sextet>, d: Sextet)
    ensures Decoded(ds + [d]) == Decoded(ds) + Completed(Phase(|ds|), Last(ds), d)
  {
    if |ds| == 3 {
      assert Decoded((ds + [d])[4..]) == [];
    } else if |ds| == 4 {
      assert Decoded((ds + [d])[4..]) == [] && Decoded(ds[4..]) == [];
    } else if |ds| > 4 {
      DecodedStep(ds[4..], d);
      assert (ds + [d])[4..] == ds[4..] + [d];
      assert Last(ds[4..]) == Last(ds);
    }
  }

  /** Bytes outside the alphabet make no difference: deleting them leaves the same sextets. */
  lemma {:induction false} JunkIsIgnored(s: seq<Byte>)
    ensures Sextets(OnlyAlphabet(s)) == Sextets(s)
  {
    if s != [] {
      var last := s[|s| - 1];
      var init := s[..|s| - 1];
      JunkIsIgnored(init);
      assert s == init + [last];
      FlatMapConcat(One, init, [last]);
      FlatMapOne(One, last);
      var rest := OnlyAlphabet(init);
      if TableEntry(last) == -1 {
        assert rest + [] == rest && Sextets(init) + [] == Sextets(init);
      } else {
        FlatMapConcat(One, rest, [last]);
      }
    }
  }

  function OnlyAlphabet(s: seq<Byte>): (r: seq<Byte>)
    ensures forall c :: c in r ==> TableEntry(c) != -1
  {
    if s == [] then [] else
      OnlyAlphabet(s[..|s| - 1]) + (if TableEntry(s[|s| - 1]) == -1 then [] else [s[|s| - 1]])
  }

  /** Store one byte while there is room. */
  method Emit(c: Byte, space: array<Byte>, n: nat, size: nat, ghost done: seq<Byte>) returns (n': nat)
    requires size <= space.Length && n == Min(size, |done|) && space[..n] == done[..n]
    modifies space
    ensures n' == Min(size, |done| + 1) && space[..n'] == (done + [c])[..n']
    ensures forall k :: n' <= k < space.Length ==> space[k] == old(space[k])
  {
    n' := n;
    if n < size {
      space[n] := c;
      n' := n + 1;
    }
  }

  /** Decode a C string into at most `size` bytes of `space`. */
  method Decode(str: seq<Byte>, space: array<Byte>, size: nat) returns (n: nat)
    requires 0 !in str && size <= space.Length
    modifies space
    ensures |Decoded(Sextets(str))| == 3 * |Sextets(str)| / 4 && n == Min(size, |Decoded(Sextets(str))|)
    ensures space[..n] == Decoded(Sextets(str))[..n]
    ensures forall i :: n <= i < space.Length ==> space[i] == old(space[i])
  {
    n := 0;
    var phase: nat, prev := 0, 0;
    ghost var ds: seq<Sextet> := [];
    for i := 0 to |str|
      invariant ds == Sextets(str[..i]) && phase == Phase(|ds|) && prev == Last(ds)
      invariant n == Min(size, |Decoded(ds)|) && space[..n] == Decoded(ds)[..n]
      invariant forall k :: n <= k < space.Length ==> space[k] == old(space[k])
    {
      var d := TableEntry(str[i]);
      SextetsSnoc(str, i);
      if d != -1 {
        DecodedStep(ds, d);
        PhaseNext(|ds|);
        if phase == 0 {
          phase := 1;
        } else {
          var c := if phase == 1 then B0(prev, d) else if phase == 2 then B1(prev, d) else B2(prev, d);
          assert Completed(phase, prev, d) == [c];
          n := Emit(c, space, n, size, Decoded(ds));
          phase := if phase == 3 then 0 else phase + 1;
        }
        prev := d;
        ds := ds + [d];
      }
    }
    assert str[..|str|] == str;
    DecodedLength(ds);
  }

  lemma {:induction false} SextetsSnoc(s: seq<Byte>, i: nat)
    requires i < |s|
    ensures Sextets(s[..i + 1]) == Sextets(s[..i]) + One(s[i])
  {
    FlatMapConcat(One, s[..i], [s[i]]);
    FlatMapOne(One, s[i]);
    assert s[..i + 1] == s[..i] + [s[i]];
  }

  // ----- websEncode64 -----

  /** The four letters of a 24-bit shift buffer. */
  function Letters(bits: int): (r: seq<Byte>)
    requires 0 <= bits < 16777216
    ensures |r| == 4
  {
    [Letter(bits / 262144 % 64), Letter(bits / 4096 % 64), Letter(bits / 64 % 64), Letter(bits % 64)]
  }

  lemma Split64(hi: nat, lo: nat)
    requires lo < 64
    ensures (hi * 64 + lo) / 64 == hi && (hi * 64 + lo) % 64 == lo
  {
  }

  lemma Split4096(hi: nat, lo: nat)
    requires lo < 4096
    ensures (hi * 4096 + lo) / 4096 == hi
  {
  }

  lemma Split262144(hi: nat, lo: nat)
    requires lo < 262144
    ensures (hi * 262144 + lo) / 262144 == hi
  {
  }

  lemma ShiftFields(a: int, b: int, c: int)
    requires 0 <= a < 256 && 0 <= b < 256 && 0 <= c < 256
    ensures Letters(a * 65536 + b * 256 + c) == [Letter(X0(a)), Letter(X1(a, b)), Letter(X2(b, c)), Letter(X3(c))]
  {
    Split262144(a / 4, a % 4 * 65536 + b * 256 + c);
    Split4096(a * 16 + b / 16, b % 16 * 256 + c);
    Split64(a * 1024 + b * 4 + c / 64, c % 64);
    Split64(0, a / 4);
    Split64(a / 4, a % 4 * 16 + b / 16);
    Split64(a * 16 + b / 16, b % 16 * 4 + c / 64);
  }

  /** Byte i of a group, or zero when the string has ended. */
  function ByteOr0(s: seq<Byte>, i: nat): (b: Byte)
  {
    if i < |s| then s[i] else 0
  }

  /** The first three bytes of a string as 24 bits, with zeros for those that are missing. */
  function GroupBits(s: seq<Byte>): (bits: int)
    ensures 0 <= bits < 16777216
  {
    var a: int, b: int, c: int := ByteOr0(s, 0), ByteOr0(s, 1), ByteOr0(s, 2);
    a * 65536 + b * 256 + c
  }

  function GroupPads(s: seq<Byte>): (n: nat)
    ensures n <= 3
  {
    if |s| < 3 then 3 - |s| else 0
  }

  function Pads(n: nat): (r: seq<Byte>)
    ensures |r| == n
  {
    seq(n, _ => PAD)
  }

  /** The first group of an encoding: its letters, then padding. */
  lemma {:induction false} EncodedLetters(s: seq<Byte>, a: Byte, b: Byte, c: Byte, l: seq<Byte>)
    requires s != [] && a == ByteOr0(s, 0) && b == ByteOr0(s, 1) && c == ByteOr0(s, 2)
    requires l == [Letter(X0(a)), Letter(X1(a, b)), Letter(X2(b, c)), Letter(X3(c))]
    ensures Encoded(s) == l[..4 - GroupPads(s)] + Pads(GroupPads(s)) + Encoded(s[3 - GroupPads(s)..])
  {
    if |s| == 1 {
      assert Encoded(s) == l[..2] + [PAD, PAD];
      assert Pads(2) == [PAD, PAD] && s[1..] == [];
    } else if |s| == 2 {
      assert Encoded(s) == l[..3] + [PAD];
      assert Pads(1) == [PAD] && s[2..] == [];
    } else {
      assert Pads(0) == [] && l[..4] == l;
    }
  }

  lemma {:induction false} EncodedGroup(s: seq<Byte>)
    requires s != []
    ensures var pads := GroupPads(s);
            Encoded(s) == Letters(GroupBits(s))[..4 - pads] + Pads(pads) + Encoded(s[3 - pads..])
  {
    var a, b, c := ByteOr0(s, 0), ByteOr0(s, 1), ByteOr0(s, 2);
    ShiftFields(a, b, c);
    EncodedLetters(s, a, b, c, Letters(GroupBits(s)));
  }

  /** Shift up to three bytes of the string into 24 bits; j ends as the number of missing bytes. */
  method Gather(input: seq<Byte>, from: nat) returns (bits: int, j: nat, cp: nat)
    requires from < |input|
    ensures bits == GroupBits(input[from..]) && j == GroupPads(input[from..]) && cp == from + 3 - j
  {
    bits, cp := 0, from;
    var k, place := 2, 65536;
    ghost var s := input[from..];
    ghost var a: int, b: int, c: int := ByteOr0(s, 0), ByteOr0(s, 1), ByteOr0(s, 2);
    while k >= 0 && cp < |input|
      invariant -1 <= k <= 2 && cp == from + 2 - k <= |input|
      invariant place == if k == 2 then 65536 else if k == 1 then 256 else if k == 0 then 1 else 0
      invariant bits == (if k < 2 then a * 65536 else 0) + (if k < 1 then b * 256 else 0) + (if k < 0 then c else 0)
      decreases k
    {
      bits := bits + (input[cp] as int) * place;
      k, place, cp := k - 1, place / 256, cp + 1;
    }
    j := k + 1;
  }

  /** How many of n bytes fit after the first `used`. */
  function Room(used: nat, outlen: nat, n: nat): (k: nat)
    ensures k <= n
  {
    if outlen <= used then 0 else Min(n, outlen - used)
  }

  /** Write the letters of a group while there is room, then its padding whether there is room or not. */
  method WriteGroup(out: seq<Byte>, bits: int, pads: nat, outlen: nat) returns (out': seq<Byte>)
    requires 0 <= bits < 16777216 && pads <= 3
    ensures out' == out + Letters(bits)[..Room(|out|, outlen, 4 - pads)] + Pads(pads)
  {
    out' := out;
    var i, shifted := pads, [262144, 4096, 64, 1];
    while i < 4 && |out'| < outlen
      invariant pads <= i <= 4
      invariant out' == out + Letters(bits)[..i - pads]
      invariant i > pads ==> |out| + i - pads <= outlen
    {
      out' := out' + [Letter(bits / shifted[i - pads] % 64)];
      i := i + 1;
    }
    ghost var lettered := out';
    var j := pads;
    while j > 0
      invariant 0 <= j <= pads && out' == lettered + Pads(pads - j)
    {
      out' := out' + [PAD];
      j := j - 1;
    }
  }

  /** The letters of an encoding; the rest of it is padding. */
  function LetterCount(n: nat): (k: nat)
    ensures n % 3 == 0 ==> k == n / 3 * 4
  {
    (4 * n + 2) / 3
  }

  /** What the encoder writes, without the NUL after it: the letters that fit, and all the padding. */
  function Written(input: seq<Byte>, outlen: nat): (r: seq<Byte>)
  {
    Encoded(input)[..Min(LetterCount(|input|), outlen)] + Pads(|Encoded(input)| - LetterCount(|input|))
  }

  lemma Counts(g: nat, j: nat)
    requires j <= 2
    ensures LetterCount(3 * g + 3 - j) == 4 * g + 4 - j && (3 * g + 3 - j + 2) / 3 == g + 1
  {
  }

  /** A group more: its letters as far as they fit. */
  lemma GroupWritten(input: seq<Byte>, g: nat, j: nat, l: seq<Byte>, outlen: nat, out: seq<Byte>, out': seq<Byte>)
    requires Begun(input, g, outlen, out) && j == GroupPads(input[3 * g..]) && |l| == 4
    requires Encoded(input[3 * g..]) == l[..4 - j] + Pads(j) + Encoded(input[3 * g..][3 - j..])
    requires out' == out + l[..Room(|out|, outlen, 4 - j)] + Pads(j)
    ensures if 3 * g + 3 < |input| then j == 0 && Begun(input, g + 1, outlen, out') else out' == Written(input, outlen)
  {
    var rest := input[3 * g..][3 - j..];
    assert rest == input[3 * g + 3 - j..];
    GroupTaken(Encoded(input), 4 * g, l, j, Encoded(rest), outlen, out, out');
    if 3 * g + 3 >= |input| { LastWritten(input, g, j, outlen, out'); }
  }

  lemma GroupTaken(e: seq<Byte>, n: nat, l: seq<Byte>, j: nat, rest: seq<Byte>, outlen: nat, out: seq<Byte>, out': seq<Byte>)
    requires n <= |e| && |l| == 4 && j <= 3 && e[n..] == l[..4 - j] + Pads(j) + rest && out == e[..Min(n, outlen)]
    requires out' == out + l[..Room(|out|, outlen, 4 - j)] + Pads(j)
    ensures n + 4 - j <= |e| && out' == e[..Min(n + 4 - j, outlen)] + Pads(j)
    ensures j == 0 ==> e[n + 4..] == rest && out' == e[..Min(n + 4, outlen)]
  {
    Regroup(l[..4 - j], Pads(j), rest);
    NextTaken(e, n, l[..4 - j], Pads(j) + rest, outlen, out);
    assert l[..Room(|out|, outlen, 4 - j)] == l[..4 - j][..Room(|out|, outlen, 4 - j)];
    if j == 0 { assert Pads(0) == [] && Pads(0) + rest == rest; }
  }

  lemma LastWritten(input: seq<Byte>, g: nat, j: nat, outlen: nat, out: seq<Byte>)
    requires |input| == 3 * g + 3 - j && j <= 2 && 4 * g + 4 - j <= |Encoded(input)|
    requires out == Encoded(input)[..Min(4 * g + 4 - j, outlen)] + Pads(j)
    ensures out == Written(input, outlen)
  {
    Counts(g, j);
  }

  /** The first g groups are out, as far as they fit, and others follow. */
  ghost predicate Begun(input: seq<Byte>, g: nat, outlen: nat, out: seq<Byte>)
  {
    && 3 * g < |input| && 4 * g <= |Encoded(input)| && Encoded(input)[4 * g..] == Encoded(input[3 * g..])
    && out == Encoded(input)[..Min(4 * g, outlen)]
  }

  /** A prefix that takes as much as fits takes as much of what comes next. */
  lemma NextTaken(e: seq<Byte>, n: nat, l: seq<Byte>, rest: seq<Byte>, outlen: nat, out: seq<Byte>)
    requires n <= |e| && e[n..] == l + rest && out == e[..Min(n, outlen)]
    ensures out + l[..Room(|out|, outlen, |l|)] == e[..Min(n + |l|, outlen)] && e[n + |l|..] == rest
  {
    assert e[n + |l|..] == e[n..][|l|..];
    var k := Room(|out|, outlen, |l|);
    if outlen > n {
      assert e[n..n + k] == l[..k];
    }
  }

  /** The encoding is whole exactly when its letters fit, and the NUL stays inside exactly when the padding fits before it. */
  lemma WrittenWhole(input: seq<Byte>, outlen: nat)
    ensures Written(input, outlen) == Encoded(input) <==> outlen >= LetterCount(|input|)
    ensures |Written(input, outlen)| < outlen <==> outlen > |Encoded(input)|
  {
    PaddingLast(input);
  }

  lemma {:induction false} PaddingLast(s: seq<Byte>)
    ensures LetterCount(|s|) <= |Encoded(s)| && Encoded(s) == Encoded(s)[..LetterCount(|s|)] + Pads(|Encoded(s)| - LetterCount(|s|))
    decreases |s|
  {
    if |s| > 3 {
      PaddingLast(s[3..]);
      assert LetterCount(|s|) == LetterCount(|s| - 3) + 4;
    } else if s != [] {
      EncodedGroup(s);
      assert s[3 - GroupPads(s)..] == [];
      Counts(0, GroupPads(s));
    }
  }

  /** Encode a C string. A NUL follows what is written. */
  method Encode(input: seq<Byte>, outlen: nat) returns (out: seq<Byte>)
    requires 0 !in input
    ensures out == Written(input, outlen)
    ensures out == Encoded(input) <==> outlen >= LetterCount(|input|)
    ensures |out| < outlen <==> outlen > |Encoded(input)|
  {
    out := [];
    var cp := 0;
    ghost var g := 0;
    while cp < |input|
      invariant 0 <= cp <= |input|
      invariant if cp < |input| then cp == 3 * g && Begun(input, g, outlen, out) else out == Written(input, outlen)
      decreases |input| - cp
    {
      var bits, j, next := Gather(input, cp);
      ghost var before := out;
      out := WriteGroup(out, bits, j, outlen);
      EncodedGroup(input[cp..]);
      GroupWritten(input, g, j, Letters(bits), outlen, before, out);
      cp, g := next, g + 1;
    }
    WrittenWhole(input, outlen);
  }
}
