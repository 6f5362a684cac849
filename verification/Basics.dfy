/** Values shared by the models. */
module Basics {

  datatype Option<+T> = None | Some(value: T)

  type Byte = x: int | 0 <= x < 256

  function Min(a: int, b: int): (r: int)
  {
    if a < b then a else b
  }

  /** The sequences f gives for the elements of s, end to end. */
  function FlatMap<A, B>(f: A -> seq<B>, s: seq<A>): (r: seq<B>)
  {
    if s == [] then [] else f(s[0]) + FlatMap(f, s[1..])
  }

  lemma {:induction false} FlatMapConcat<A, B>(f: A -> seq<B>, s: seq<A>, t: seq<A>)
    ensures FlatMap(f, s + t) == FlatMap(f, s) + FlatMap(f, t)
  {
    if s == [] {
      assert s + t == t;
    } else {
      var x, rest := s[0], s[1..];
      FlatMapConcat(f, rest, t);
      assert (s + t)[0] == x && (s + t)[1..] == rest + t;
      Regroup(f(x), FlatMap(f, rest), FlatMap(f, t));
    }
  }

  lemma {:induction false} FlatMapOne<A, B>(f: A -> seq<B>, x: A)
    ensures FlatMap(f, [x]) == f(x)
  {
    assert [x][1..] == [];
  }

  /** The sign of strcmp. */
  function StrCmp(a: string, b: string): (r: int)
    ensures -1 <= r <= 1 && (r == 0 <==> a == b)
  {
    if a == b then 0
    else if a == "" then -1
    else if b == "" then 1
    else if a[0] != b[0] then (if a[0] < b[0] then -1 else 1)
    else assert a == [a[0]] + a[1..] && b == [b[0]] + b[1..]; StrCmp(a[1..], b[1..])
  }

  lemma {:induction false} StrCmpReverse(a: string, b: string)
    ensures StrCmp(a, b) == -StrCmp(b, a)
  {
    if a != b && a != "" && b != "" && a[0] == b[0] {
      StrCmpReverse(a[1..], b[1..]);
      assert a == [a[0]] + a[1..] && b == [b[0]] + b[1..];
    }
  }

  lemma {:induction false} StrCmpTransitive(a: string, b: string, c: string)
    requires StrCmp(a, b) >= 0 && StrCmp(b, c) >= 0
    ensures StrCmp(a, c) >= 0
  {
    if a != b && b != c && a != c && c != "" && a[0] == b[0] == c[0] {
      assert a == [a[0]] + a[1..] && b == [b[0]] + b[1..] && c == [c[0]] + c[1..];
      StrCmpTransitive(a[1..], b[1..], c[1..]);
    }
  }

  function Pow2(k: nat): (p: nat)
    ensures p > 0
  {
    if k == 0 then 1 else 2 * Pow2(k - 1)
  }

  /** Division as C does it, towards zero. */
  function TruncDiv(a: int, b: int): (q: int)
    requires b != 0
    ensures b > 0 && a >= 0 ==> b * q <= a < b * q + b
    ensures b > 0 && a < 0 ==> b * q - b < a <= b * q
  {
    var q := (if a < 0 then -a else a) / (if b < 0 then -b else b);
    if (a < 0) == (b < 0) then q else -q
  }

  lemma Regroup<T>(a: seq<T>, b: seq<T>, c: seq<T>)
    ensures a + (b + c) == (a + b) + c
  {
  }

  // ----- Sealed definitions -----

  /**
   * f(x) at a distance. A proof sees nothing of f until it calls SealedIs, so long definitions (an
   * invariant, a loader, what a tree means) can be carried along at no cost.
   */
  ghost function Sealed<A, B>(depth: nat, f: A -> B, x: A): (r: B)
  {
    Behind(depth + 3, f, x)
  }

  ghost function Behind<A, B>(steps: nat, f: A -> B, x: A): (r: B)
    decreases steps
  {
    if steps == 0 then f(x) else Behind(steps - 1, f, x)
  }

  lemma SealedIs<A, B>(depth: nat, f: A -> B, x: A)
    ensures Sealed(depth, f, x) == f(x)
  {
    BehindIs(depth + 3, f, x);
  }

  lemma {:induction false} BehindIs<A, B>(steps: nat, f: A -> B, x: A)
    ensures Behind(steps, f, x) == f(x)
    decreases steps
  {
    if steps > 0 { BehindIs(steps - 1, f, x); }
  }
}
