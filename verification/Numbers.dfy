/** Formatting and reading of misc.c: the growing string buffer, decimal output, and gstrtoi. */
module Numbers {
  import opened Basics

  const STR_INC: nat := 64
  const WORD: int := 0x1_0000_0000
  const ULONG_MAX_10: nat := 429496729   // ULONG_MAX / 10

  predicate IsInt(v: int)
  {
    -0x8000_0000 <= v < 0x8000_0000
  }

  /** An unsigned word read as a signed one. */
  function Signed(u: int): (v: int)
    requires 0 <= u < WORD
    ensures IsInt(v) && (v == u || v == u - WORD)
  {
    if u < 0x8000_0000 then u else u - WORD
  }

  // ----- Decimal notation -----

  function Digit(d: nat): (c: char)
    requires d < 10
    ensures '0' <= c <= '9'
  {
    "0123456789"[d]
  }

  function Digits(n: nat): (s: string)
    ensures s != "" && forall i :: 0 <= i < |s| ==> '0' <= s[i] <= '9'
  {
    if n < 10 then [Digit(n)] else Digits(n / 10) + [Digit(n % 10)]
  }

  /** What %d prints. */
  function Decimal(v: int): (s: string)
  {
    if v >= 0 then Digits(v) else "-" + Digits(-v)
  }

  ghost function Pow10(k: nat): (p: nat)
    ensures p > 0
  {
    if k == 0 then 1 else 10 * Pow10(k - 1)
  }

  /** The value without its last k digits. */
  ghost function Shift(value: nat, k: nat): (r: nat)
  {
    if k == 0 then value else Shift(value / 10, k - 1)
  }

  lemma {:induction false} ShiftMore(value: nat, k: nat)
    ensures Shift(value, k + 1) == Shift(value, k) / 10
  {
    if k > 0 { ShiftMore(value / 10, k - 1); }
  }

  lemma {:induction false} ShiftSmall(value: nat, k: nat)
    ensures value < Pow10(k) <==> Shift(value, k) == 0
  {
    if k > 0 { ShiftSmall(value / 10, k - 1); }
  }

  lemma Multiple(b: int, d: int)
    requires b > 0
    ensures d >= 1 ==> b * d >= b
    ensures d <= -1 ==> b * d <= -b
  {
  }

  lemma QuotientIs(a: int, b: nat, q: int, r: int)
    requires b > 0 && a == b * q + r && 0 <= r < b
    ensures a / b == q
  {
    var d := a / b - q;
    assert b * (a / b) == b * q + b * d;
    Multiple(b, d);
  }

  lemma TenTimes(b: nat, t: nat)
    ensures 10 * (b * t) == (10 * b) * t
  {
  }

  lemma DivTen(a: nat, b: nat)
    requires b > 0
    ensures a / 10 / b == a / (10 * b)
  {
    var q := a / 10;
    var t, r := q / b, q % b;
    TenTimes(b, t);
    QuotientIs(a, 10 * b, t, 10 * r + a % 10);
  }

  lemma {:induction false} ShiftIsQuotient(value: nat, k: nat)
    ensures value / Pow10(k) == Shift(value, k)
  {
    if k > 0 {
      ShiftIsQuotient(value / 10, k - 1);
      DivTen(value, Pow10(k - 1));
    }
  }

  // ----- The string buffer -----

  /** A string cut to n characters. */
  function Clip(s: string, n: nat): (r: string)
  {
    if |s| <= n then s else s[..n]
  }

  lemma ClipMore(s: string, t: string, n: nat)
    ensures Clip(Clip(s, n) + t, n) == Clip(s + t, n)
  {
  }

  /** The characters a buffer of at most `max` bytes can take: it grows by whole increments, and once always. */
  function Capacity(max: nat): (n: nat)
  {
    (if max < STR_INC then STR_INC else max / STR_INC * STR_INC) - 1
  }

  lemma GrowthStops(size: nat, max: nat)
    requires size % STR_INC == 0 && (size <= max || size <= STR_INC)
    ensures size > 0 && size + STR_INC > max ==> Capacity(max) == size - 1
    ensures size == 0 || size + STR_INC <= max ==> size + STR_INC - 1 <= Capacity(max)
  {
    var k := size / STR_INC;
    assert size == STR_INC * k;
    if size <= max && size > 0 && size + STR_INC > max {
      QuotientIs(max, STR_INC, k, max - size);
    }
  }

  class StrBuf {
    var text: string
    var size: nat
    const max: nat

    ghost predicate Valid()
      reads this
    {
      && size % STR_INC == 0 && (size <= max || size <= STR_INC)
      && (if size == 0 then text == "" else |text| < size)
    }

    constructor (limit: nat)
      ensures Valid() && text == "" && max == limit
    {
      text, size, max := "", 0, limit;
    }

    /** Append a character, growing the buffer when it is full; past the limit it is dropped. */
    method PutChar(c: char)
      requires Valid()
      modifies this
      ensures Valid() && text == Clip(old(text) + [c], Capacity(max))
    {
      GrowthStops(size, max);
      if |text| >= size - 1 {
        size := size + STR_INC;
        if size > max && size > STR_INC {
          size := size - STR_INC;
          return;
        }
      } else {
        assert |text| + 1 <= Capacity(max) by {
          GrowthStops(size - STR_INC, max);
        }
      }
      text := text + [c];
    }

    method PutString(s: string)
      requires Valid() && |text| <= Capacity(max)
      modifies this
      ensures Valid() && text == Clip(old(text) + s, Capacity(max))
    {
      var i := 0;
      assert old(text) + s[..0] == old(text);
      while i < |s|
        invariant 0 <= i <= |s| && Valid() && text == Clip(old(text) + s[..i], Capacity(max))
      {
        ClipMore(old(text) + s[..i], [s[i]], Capacity(max));
        assert old(text) + s[..i] + [s[i]] == old(text) + s[..i + 1];
        PutChar(s[i]);
        i := i + 1;
      }
      assert s[..i] == s;
    }

    /** The greatest power of ten not above the value, or 1. */
    static method LeadingPower(value: nat) returns (x: nat, ghost k: nat)
      requires value < WORD
      ensures x == Pow10(k) && (x <= value || k == 0) && value < 10 * x
    {
      x, k := 1, 0;
      while x < ULONG_MAX_10
        invariant x == Pow10(k) && (x <= value || k == 0)
        invariant x >= ULONG_MAX_10 ==> x >= 1000000000
        decreases 1000000000 - x
      {
        var x2 := x * 10;
        if x2 > value {
          return;
        }
        k := k + 1;
        PowerGap(k);
        x := x2;
      }
    }

    static method DigitAt(value: nat, x: nat, ghost k: nat) returns (c: char)
      requires x == Pow10(k)
      ensures c == Digit(Shift(value, k) % 10)
    {
      ShiftIsQuotient(value, k);
      c := Digit((value / x) % 10);
    }

    method PutDigit(value: nat, x: nat, ghost left: nat, ghost top: nat, ghost out: string, ghost was: string)
      returns (ghost out': string)
      requires Valid() && text == Clip(was + out, Capacity(max))
      requires left > 0 && x == Pow10(left - 1) && Printing(value, left, top, out)
      modifies this
      ensures Valid() && text == Clip(was + out', Capacity(max)) && Printing(value, left - 1, top, out')
    {
      PrintStep(value, left, top, out);
      var c := DigitAt(value, x, left - 1);
      out' := out + [c];
      ClipMore(was + out, [c], Capacity(max));
      assert was + out + [c] == was + out';
      PutChar(c);
    }

    /** Print an unsigned word in decimal, from its leading digit down. */
    method PutUlong(value: nat)
      requires Valid() && |text| <= Capacity(max) && value < WORD
      modifies this
      ensures Valid() && text == Clip(old(text) + Digits(value), Capacity(max))
    {
      var x, k := LeadingPower(value);
      ghost var top, out, left := k + 1, "", k + 1;
      assert old(text) + out == old(text);
      ShiftSmall(value, top);
      ShiftSmall(value, k);
      while x > 0
        invariant left <= top && x == if left == 0 then 0 else Pow10(left - 1)
        invariant Printing(value, left, top, out)
        invariant Valid() && text == Clip(old(text) + out, Capacity(max))
        decreases left
      {
        out := PutDigit(value, x, left, top, out, old(text));
        left := left - 1;
        x := x / 10;
      }
    }
  }

  /** No power of ten lies between ULONG_MAX / 10 and 10^9. */
  lemma {:induction false} PowerGap(k: nat)
    ensures Pow10(k) >= ULONG_MAX_10 ==> Pow10(k) >= 1000000000
  {
    if k >= 9 {
      Pow10Grows(9, k);
    } else {
      Pow10Grows(k, 8);
    }
  }

  lemma {:induction false} Pow10Grows(j: nat, k: nat)
    requires j <= k
    ensures Pow10(j) <= Pow10(k)
    ensures Pow10(8) == 100000000 && Pow10(9) == 1000000000
  {
    if j < k { Pow10Grows(j, k - 1); }
    assert Pow10(3) == 1000 && Pow10(6) == 1000000;
  }

  /** All but the last `left` digits of the value are out; all are to come at `top`. */
  ghost predicate Printing(value: nat, left: nat, top: nat, out: string)
  {
    && left <= top && Shift(value, top) == 0 && (top > 1 ==> Shift(value, top - 1) != 0)
    && out == if left == top then "" else Digits(Shift(value, left))
  }

  lemma PrintStep(value: nat, left: nat, top: nat, out: string)
    requires Printing(value, left, top, out) && left > 0
    ensures Printing(value, left - 1, top, out + [Digit(Shift(value, left - 1) % 10)])
  {
    ShiftMore(value, left - 1);
    ShiftPositive(value, left, top - 1);
  }

  lemma {:induction false} ShiftPositive(value: nat, k: nat, top: nat)
    ensures k <= top && Shift(value, top) != 0 ==> Shift(value, k) != 0
    decreases top - k
  {
    if k < top {
      ShiftPositive(value, k + 1, top);
      ShiftMore(value, k);
    }
  }

  // ----- Formats -----

  lemma {:induction false} DigitsLength(value: nat, k: nat)
    requires k > 0 && value < Pow10(k)
    ensures |Digits(value)| <= k
  {
    if value >= 10 { DigitsLength(value / 10, k - 1); }
  }

  /** A signed word printed with %d into a buffer limited to 20 bytes: nothing is cut. */
  method FormatInt(v: int) returns (s: string)
    requires IsInt(v)
    ensures s == Decimal(v)
  {
    var buf := new StrBuf(20);
    Pow10Grows(9, 10);
    if v >= 0 {
      DigitsLength(v, 10);
      assert "" + Digits(v) == Digits(v);
      buf.PutUlong(v);
    } else {
      DigitsLength(-v, 10);
      assert "" + "-" == "-";
      buf.PutString("-");
      buf.PutUlong(-v);
    }
    s := buf.text;
  }

  const BUF_MAX: nat := 4096

  /** A key=value line, cut to what the buffer holds. */
  method FormatKeyValue(key: string, value: string) returns (s: string)
    ensures s == Clip(key + "=" + value + "\n", BUF_MAX - 1)
  {
    var buf := new StrBuf(BUF_MAX);
    assert Capacity(BUF_MAX) == BUF_MAX - 1;
    assert "" + key == key;
    buf.PutString(key);
    ClipMore(key, "=", BUF_MAX - 1);
    buf.PutString("=");
    ClipMore(key + "=", value, BUF_MAX - 1);
    buf.PutString(value);
    ClipMore(key + "=" + value, "\n", BUF_MAX - 1);
    buf.PutString("\n");
    s := buf.text;
  }

  // ----- Reading -----

  predicate IsSpace(c: char)
  {
    c == ' ' || 9 as char <= c <= 13 as char
  }

  /** The string without its leading white space. */
  function Trim(s: string): (r: string)
    ensures r == "" || !IsSpace(r[0])
    ensures |r| <= |s| && r == s[|s| - |r|..]
    ensures |r| == |s| <==> s == "" || !IsSpace(s[0])
  {
    if s != "" && IsSpace(s[0]) then Trim(s[1..]) else s
  }

  /** The number spelt by the leading digits of s, after `acc`. */
  function ReadDigits(s: string, acc: nat): (n: nat)
  {
    if s == "" || !('0' <= s[0] <= '9') then acc
    else ReadDigits(s[1..], 10 * acc + (s[0] as int - '0' as int))
  }

  /** What the C library's atoi reads, before it is put in a word. */
  function Atoi(s: string): (v: int)
  {
    var t := Trim(s);
    if t != "" && t[0] == '-' then 0 - ReadDigits(t[1..], 0)
    else if t != "" && t[0] == '+' then ReadDigits(t[1..], 0)
    else ReadDigits(t, 0)
  }

  /** The value of a hexadecimal digit. */
  function HexDigit(c: char): (d: Option<nat>)
    ensures d.Some? ==> d.value < 16
  {
    if '0' <= c <= '9' then Some(c as int - '0' as int)
    else if 'a' <= c <= 'f' then Some(c as int - 'a' as int + 10)
    else if 'A' <= c <= 'F' then Some(c as int - 'A' as int + 10)
    else None
  }

  ghost function ReadHex(s: string, acc: nat): (n: nat)
  {
    if s == "" || HexDigit(s[0]).None? then acc else ReadHex(s[1..], 16 * acc + HexDigit(s[0]).value)
  }

  predicate HexPrefixed(s: string)
  {
    |s| >= 2 && s[0] == '0' && (s[1] == 'x' || s[1] == 'X')
  }

  /** gstrtoi as a signed word: hexadecimal after 0x (a second 0x is skipped too), else decimal. */
  ghost function ReadInt(s: string): (v: int)
    ensures IsInt(v)
  {
    Signed(if HexPrefixed(s) then ReadHex(if HexPrefixed(s[2..]) then s[4..] else s[2..], 0) % WORD else Atoi(s) % WORD)
  }

  lemma WordStep(acc: nat, d: nat)
    ensures (acc % WORD * 16 + d) % WORD == (16 * acc + d) % WORD
  {
    var q, r := acc / WORD, acc % WORD;
    var t := r * 16 + d;
    assert 16 * acc + d == WORD * (16 * q + t / WORD) + t % WORD;
    QuotientIs(16 * acc + d, WORD, 16 * q + t / WORD, t % WORD);
  }

  /** Read hexadecimal digits into a word that wraps around. */
  method Hextoi(hexstring: string) returns (v: nat)
    ensures v == ReadHex(if HexPrefixed(hexstring) then hexstring[2..] else hexstring, 0) % WORD
  {
    ghost var s := if HexPrefixed(hexstring) then hexstring[2..] else hexstring;
    var h := if HexPrefixed(hexstring) then 2 else 0;
    ghost var acc := 0;
    v := 0;
    assert hexstring[h..] == s;
    while h < |hexstring|
      invariant h <= |hexstring| && 0 <= acc && v == acc % WORD
      invariant ReadHex(hexstring[h..], acc) == ReadHex(s, 0)
    {
      var d := HexDigit(hexstring[h]);
      if d.None? {
        break;
      }
      assert hexstring[h..][1..] == hexstring[h + 1..];
      WordStep(acc, d.value);
      v := (v * 16 + d.value) % WORD;
      acc := 16 * acc + d.value;
      h := h + 1;
    }
  }

  method Gstrtoi(s: string) returns (v: int)
    ensures v == ReadInt(s)
  {
    if HexPrefixed(s) {
      var u := Hextoi(s[2..]);
      assert HexPrefixed(s[2..]) ==> s[2..][2..] == s[4..];
      return Signed(u);
    }
    v := Signed(Atoi(s) % WORD);
  }

  // ----- Hexadecimal notation -----

  /** A number in hexadecimal, in small letters or capitals. */
  ghost function HexText(n: nat, capitals: bool): (s: string)
    ensures s != ""
  {
    var d := if capitals then "0123456789ABCDEF"[n % 16] else "0123456789abcdef"[n % 16];
    if n < 16 then [d] else HexText(n / 16, capitals) + [d]
  }

  lemma HexDigitReads(d: nat)
    requires d < 16
    ensures HexDigit("0123456789ABCDEF"[d]) == Some(d) && HexDigit("0123456789abcdef"[d]) == Some(d)
  {
  }

  ghost predicate HexOnly(s: string)
  {
    forall i :: 0 <= i < |s| ==> HexDigit(s[i]).Some?
  }

  lemma {:induction false} ReadHexAppend(s: string, c: char, acc: nat)
    requires HexOnly(s) && HexDigit(c).Some?
    ensures ReadHex(s + [c], acc) == 16 * ReadHex(s, acc) + HexDigit(c).value
  {
    if s == "" {
      assert (s + [c])[1..] == "";
    } else {
      assert HexDigit(s[0]).Some? && (s + [c])[1..] == s[1..] + [c];
      assert forall i :: 0 <= i < |s[1..]| ==> s[1..][i] == s[i + 1];
      ReadHexAppend(s[1..], c, 16 * acc + HexDigit(s[0]).value);
    }
  }

  /** Every number written in hexadecimal is read back. */
  lemma {:induction false} HexRoundTrip(n: nat, capitals: bool)
    ensures HexOnly(HexText(n, capitals)) && ReadHex(HexText(n, capitals), 0) == n
  {
    HexDigitReads(n % 16);
    if n >= 16 {
      HexRoundTrip(n / 16, capitals);
      var s, d := HexText(n / 16, capitals), if capitals then "0123456789ABCDEF"[n % 16] else "0123456789abcdef"[n % 16];
      ReadHexAppend(s, d, 0);
      assert HexText(n, capitals) == s + [d];
    } else {
      assert HexText(n, capitals)[1..] == "";
    }
  }

  /** An int given in hexadecimal after 0x is the word read as signed; a second 0x is passed over. */
  lemma HexIntReads(n: nat, capitals: bool)
    requires n < WORD
    ensures ReadInt("0x" + HexText(n, capitals)) == Signed(n) && ReadInt("0x0x" + HexText(n, capitals)) == Signed(n)
  {
    var t := HexText(n, capitals);
    HexRoundTrip(n, capitals);
    QuotientIs(n, WORD, 0, n);
    assert ("0x" + t)[2..] == t && ("0x0x" + t)[2..] == "0x" + t && ("0x0x" + t)[4..] == t;
    NotPrefixed(n, capitals);
  }

  lemma {:induction false} NotPrefixed(n: nat, capitals: bool)
    ensures !HexPrefixed(HexText(n, capitals))
  {
    HexRoundTrip(n, capitals);
    var t := HexText(n, capitals);
    if |t| >= 2 { assert HexDigit(t[1]).Some?; }
  }

  // ----- Round trip -----

  lemma {:induction false} ReadAppend(s: string, c: char, acc: nat)
    requires forall i :: 0 <= i < |s| ==> '0' <= s[i] <= '9'
    requires '0' <= c <= '9'
    ensures ReadDigits(s + [c], acc) == 10 * ReadDigits(s, acc) + (c as int - '0' as int)
  {
    if s == "" {
      assert (s + [c])[1..] == "";
    } else {
      assert (s + [c])[1..] == s[1..] + [c];
      ReadAppend(s[1..], c, 10 * acc + (s[0] as int - '0' as int));
    }
  }

  lemma DigitValue(d: nat)
    requires d < 10
    ensures Digit(d) as int - '0' as int == d
  {
  }

  lemma {:induction false} ReadsDigits(n: nat)
    ensures ReadDigits(Digits(n), 0) == n
  {
    DigitValue(n % 10);
    if n >= 10 {
      ReadsDigits(n / 10);
      ReadAppend(Digits(n / 10), Digit(n % 10), 0);
    } else {
      assert Digits(n)[1..] == "";
    }
  }

  lemma {:induction false} LeadingDigit(n: nat)
    ensures Digits(n)[0] == '0' <==> n == 0
    ensures n == 0 ==> |Digits(n)| == 1
  {
    if n >= 10 { LeadingDigit(n / 10); }
  }

  lemma SignedWord(v: int)
    requires IsInt(v)
    ensures Signed(v % WORD) == v
  {
    if v < 0 { QuotientIs(v, WORD, -1, v + WORD); } else { QuotientIs(v, WORD, 0, v); }
  }

  lemma AtoiOf(t: string)
    requires t != "" && '0' <= t[0] <= '9'
    ensures Atoi(t) == ReadDigits(t, 0) && Atoi("-" + t) == 0 - ReadDigits(t, 0) && Atoi("+" + t) == ReadDigits(t, 0)
    ensures !IsSpace(t[0]) && !HexPrefixed("-" + t)
  {
    var s, p := "-" + t, "+" + t;
    assert s[0] == '-' && s[1..] == t && p[0] == '+' && p[1..] == t;
    assert Trim(t) == t && Trim(s) == s && Trim(p) == p;
  }

  /** The digits of a number as read: one digit if the first is 0. */
  lemma SpeltDigits(n: nat) returns (t: string)
    ensures t == Digits(n) && t != "" && '0' <= t[0] <= '9' && ReadDigits(t, 0) == n && !HexPrefixed(t)
  {
    t := Digits(n);
    ReadsDigits(n);
    LeadingDigit(n);
  }

  /** atoi reads what %d printed, which never looks hexadecimal. */
  lemma AtoiReads(v: int)
    ensures Atoi(Decimal(v)) == v && !HexPrefixed(Decimal(v))
    ensures Decimal(v) != "" && !IsSpace(Decimal(v)[0])
  {
    var t := SpeltDigits(if v >= 0 then v else -v);
    AtoiOf(t);
  }

  /** Every signed word that is printed is read back. */
  lemma IntRoundTrip(v: int)
    requires IsInt(v)
    ensures ReadInt(Decimal(v)) == v
  {
    AtoiReads(v);
    SignedWord(v);
  }
}
