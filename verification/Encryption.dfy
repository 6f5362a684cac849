/** The XOR transform of um.c, which hides stored passwords and undoes itself. */
module Encryption {
  import opened Basics
  import opened Numbers

  const MASK: string := "s#$5wert#$WEAT768d@#4a#$%215$T^QWRtr5TrgsDF$"

  /** A C string of 8-bit characters. */
  ghost predicate Bytes(s: string)
  {
    forall i :: 0 <= i < |s| ==> 0 < s[i] as int < 256
  }

  // ----- Exclusive or -----

  /** Exclusive or of the low k bits. */
  function Xor(a: nat, b: nat, k: nat): (r: nat)
    ensures r < Pow2(k)
  {
    if k == 0 then 0 else 2 * Xor(a / 2, b / 2, k - 1) + (if a % 2 == b % 2 then 0 else 1)
  }

  /** Exclusive or with the same number twice gives the number back. */
  lemma {:induction false} XorTwice(a: nat, b: nat, k: nat)
    requires a < Pow2(k)
    ensures Xor(Xor(a, b, k), b, k) == a
  {
    if k > 0 {
      XorTwice(a / 2, b / 2, k - 1);
    }
  }

  /** Exclusive or keeps a number only with zero. */
  lemma {:induction false} XorMoves(a: nat, b: nat, k: nat)
    requires a < Pow2(k) && b < Pow2(k)
    ensures Xor(a, b, k) == a <==> b == 0
  {
    if k > 0 {
      XorMoves(a / 2, b / 2, k - 1);
    }
  }

  /** A bit is set in the result exactly if it is set in one of the two. */
  lemma {:induction false} XorBits(a: nat, b: nat, k: nat, i: nat)
    requires i < k
    ensures Xor(a, b, k) / Pow2(i) % 2 == 1 <==> a / Pow2(i) % 2 != b / Pow2(i) % 2
    decreases k
  {
    XorHalf(a, b, k);
    if i > 0 {
      XorBits(a / 2, b / 2, k - 1, i - 1);
      HalfFirst(Xor(a, b, k), i);
      HalfFirst(a, i);
      HalfFirst(b, i);
    }
  }

  lemma XorHalf(a: nat, b: nat, k: nat)
    requires k > 0
    ensures Xor(a, b, k) / 2 == Xor(a / 2, b / 2, k - 1) && (Xor(a, b, k) % 2 == 1 <==> a % 2 != b % 2)
  {
  }

  lemma HalfFirst(n: nat, i: nat)
    requires i > 0
    ensures n / Pow2(i) == n / 2 / Pow2(i - 1)
  {
    var q, p := n / 2, Pow2(i - 1);
    var t, r := q / p, q % p;
    assert n == 2 * (p * t + r) + n % 2;
    assert 2 * (p * t) == (2 * p) * t;
    QuotientIs(n, 2 * p, t, 2 * r + n % 2);
  }

  lemma Pow2Eight()
    ensures Pow2(8) == 256
  {
    assert Pow2(4) == 16;
  }

  // ----- One character -----

  function XorChar(c: char, m: char): (r: char)
    ensures r as int < 256
  {
    assert Pow2(8) == 256 by { Pow2Eight(); }
    Xor(c as int, m as int, 8) as char
  }

  /** A result the transform does not store. */
  predicate Refused(c: char)
  {
    c == '\0' || IsSpace(c)
  }

  function EncryptChar(c: char, m: char): (r: char)
  {
    var e := XorChar(c, m);
    if Refused(e) then c else e
  }

  /** The transform undoes itself on a character unless it turned white space into something else. */
  lemma EncryptCharTwice(c: char, m: char)
    requires 0 < c as int < 256 && 0 < m as int < 256
    ensures EncryptChar(EncryptChar(c, m), m) == c <==> !IsSpace(c) || Refused(XorChar(c, m))
  {
    Pow2Eight();
    XorTwice(c as int, m as int, 8);
    XorMoves(c as int, m as int, 8);
    var e := XorChar(c, m);
    assert XorChar(e, m) == c;
  }

  // ----- Strings -----

  /** The mask character over position i: the mask repeats. */
  function MaskAt(mask: string, i: nat): (m: char)
    requires mask != ""
  {
    mask[i % |mask|]
  }

  ghost function Encrypted(s: string, mask: string): (r: string)
    requires mask != ""
    ensures |r| == |s| && forall i :: 0 <= i < |s| ==> r[i] == EncryptChar(s[i], MaskAt(mask, i))
  {
    seq(|s|, i requires 0 <= i < |s| => EncryptChar(s[i], MaskAt(mask, i)))
  }

  /**
   * Each character is replaced by its exclusive or with the mask character over it, unless that is a
   * NUL or white space; the mask is laid end to end over the string, k times before position i.
   */
  lemma EncryptedAt(s: string, mask: string, k: nat, j: nat)
    requires j < |mask| && |mask| * k + j < |s|
    ensures var i, r := |mask| * k + j, Encrypted(s, mask);
            var e := Xor(s[i] as int, mask[j] as int, 8);
            if e == 0 || e == 32 || 9 <= e <= 13 then r[i] == s[i] else r[i] as int == e
  {
    var i := |mask| * k + j;
    QuotientIs(i, |mask|, k, j);
    assert MaskAt(mask, i) == mask[j];
    EncryptCharIs(s[i], mask[j]);
  }

  lemma EncryptCharIs(c: char, m: char)
    ensures var e := Xor(c as int, m as int, 8);
            if e == 0 || e == 32 || 9 <= e <= 13 then EncryptChar(c, m) == c else EncryptChar(c, m) as int == e
  {
    Pow2Eight();
  }

  ghost predicate SpaceFree(s: string)
  {
    forall i :: 0 <= i < |s| ==> !IsSpace(s[i])
  }

  lemma MaskIsBytes()
    ensures Bytes(MASK) && MASK != ""
  {
  }

  /** The encrypted text has the same length, stays a C string, and gains no white space. */
  lemma EncryptedIsClean(s: string, mask: string)
    requires Bytes(s) && mask != ""
    ensures Bytes(Encrypted(s, mask))
    ensures SpaceFree(s) ==> SpaceFree(Encrypted(s, mask))
  {
  }

  /** Only white space that the mask turns into something else is not recovered. */
  ghost predicate Recoverable(s: string, mask: string)
    requires mask != ""
  {
    forall i :: 0 <= i < |s| ==> !IsSpace(s[i]) || Refused(XorChar(s[i], MaskAt(mask, i)))
  }

  /** Encrypting twice gives the string back exactly when it is recoverable, as every string without spaces is. */
  lemma EncryptedTwice(s: string, mask: string)
    requires Bytes(s) && Bytes(mask) && mask != ""
    ensures Encrypted(Encrypted(s, mask), mask) == s <==> Recoverable(s, mask)
    ensures SpaceFree(s) ==> Recoverable(s, mask)
  {
    forall i | 0 <= i < |s|
      ensures Encrypted(Encrypted(s, mask), mask)[i] == s[i] <==>
                !IsSpace(s[i]) || Refused(XorChar(s[i], MaskAt(mask, i)))
    {
      EncryptCharTwice(s[i], MaskAt(mask, i));
    }
  }

  lemma XorOfTab()
    ensures Xor(9, 115, 8) == 122
  {
    assert Xor(0, 3, 3) == 3;
    assert Xor(0, 7, 4) == 7;
    assert Xor(1, 14, 5) == 15;
    assert Xor(2, 28, 6) == 30;
    assert Xor(4, 57, 7) == 61;
  }

  /** A tab under the letter that the site's mask starts with is not recovered. */
  lemma TabIsLost(mask: string)
    requires Bytes(mask) && mask != "" && mask[0] == MASK[0]
    ensures Encrypted(Encrypted("\t", mask), mask) != "\t"
  {
    var s := "\t";
    XorOfTab();
    assert s[0] as int == 9 && MaskAt(mask, 0) == 's' && 's' as int == 115;
    assert !Refused(XorChar(s[0], MaskAt(mask, 0)));
    EncryptedTwice(s, mask);
  }

  lemma NextMask(i: nat, n: nat)
    requires n > 0
    ensures (i + 1) % n == if i % n + 1 == n then 0 else i % n + 1
  {
    var q, r := i / n, i % n;
    assert i == n * q + r;
    if r + 1 == n {
      assert n * q + n == n * (q + 1);
      QuotientIs(i + 1, n, q + 1, 0);
    } else {
      QuotientIs(i + 1, n, q, r + 1);
    }
  }

  /** Encrypt a NUL-terminated string in place; the mask pointer wraps around. */
  method EncryptString(text: array<char>, mask: string, ghost s: string) returns (numChars: nat)
    requires text.Length > |s| && text[..|s|] == s && text[|s|] == '\0' && Bytes(s) && mask != ""
    modifies text
    ensures numChars == |s| && text[..|s|] == Encrypted(s, mask)
    ensures forall i :: |s| <= i < text.Length ==> text[i] == old(text[i])
  {
    var enMask := 0;
    numChars := 0;
    while text[numChars] != '\0'
      invariant 0 <= numChars <= |s| && enMask == numChars % |mask|
      invariant forall i :: 0 <= i < numChars ==> text[i] == Encrypted(s, mask)[i]
      invariant forall i :: numChars <= i < text.Length ==> text[i] == old(text[i])
      decreases |s| - numChars
    {
      var enChar := XorChar(text[numChars], mask[enMask]);
      assert EncryptChar(s[numChars], MaskAt(mask, numChars)) == Encrypted(s, mask)[numChars];
      if enChar != '\0' && !IsSpace(enChar) {
        text[numChars] := enChar;
      }
      NextMask(numChars, |mask|);
      enMask := enMask + 1;
      numChars := numChars + 1;
      if enMask == |mask| {
        enMask := 0;
      }
    }
  }
}
