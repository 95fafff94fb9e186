/** Small helpers shared by the widget models. */
module Common {

  /** A value or nothing; stands for a C++ pointer that may be null. */
  datatype Option<T> = None | Some(value: T)

  /** 2^64: size_t arithmetic wraps modulo this value. */
  const SizeModulus: int := 0x1_0000_0000_0000_0000

  /** Values of a 32-bit `unsigned int` lie below this bound. */
  const UIntModulus: int := 0x1_0000_0000

  /** The size_t value of the mathematical integer `x` (wrap-around). */
  function SizeT(x: int): (r: nat)
    ensures r < SizeModulus
    ensures 0 <= x < SizeModulus ==> r == x
    ensures -SizeModulus <= x < 0 ==> r == x + SizeModulus
  {
    x % SizeModulus
  }

  function Min(a: int, b: int): int { if a <= b then a else b }
  function Max(a: int, b: int): int { if a >= b then a else b }

  /** `s` with every character of `drop` erased, the others kept in order. */
  function Remove(s: string, drop: set<char>): (r: string)
    ensures |r| <= |s|
    ensures forall i :: 0 <= i < |r| ==> r[i] !in drop
    ensures (forall i :: 0 <= i < |s| ==> s[i] !in drop) ==> r == s
  {
    if s == [] then []
    else if s[0] in drop then Remove(s[1..], drop)
    else [s[0]] + Remove(s[1..], drop)
  }

  /** Removing characters distributes over concatenation. */
  lemma {:induction false} RemoveAppend(a: string, b: string, drop: set<char>)
    ensures Remove(a + b, drop) == Remove(a, drop) + Remove(b, drop)
  {
    if a == [] {
      assert a + b == b;
    } else {
      assert (a + b)[1..] == a[1..] + b;
      RemoveAppend(a[1..], b, drop);
    }
  }

  /** Removing is idempotent. */
  lemma RemoveIdempotent(s: string, drop: set<char>)
    ensures Remove(Remove(s, drop), drop) == Remove(s, drop)
  {
  }

  /** Number of occurrences of `c` in `s`. */
  function Count(s: string, c: char): (n: nat)
    ensures n <= |s|
  {
    if s == [] then 0 else (if s[0] == c then 1 else 0) + Count(s[1..], c)
  }

  lemma {:induction false} CountAppend(a: string, b: string, c: char)
    ensures Count(a + b, c) == Count(a, c) + Count(b, c)
  {
    if a == [] {
      assert a + b == b;
    } else {
      assert (a + b)[1..] == a[1..] + b;
      CountAppend(a[1..], b, c);
    }
  }

  /** A string without `c` has no occurrence of it. */
  lemma {:induction false} CountNone(s: string, c: char)
    requires forall k :: 0 <= k < |s| ==> s[k] != c
    ensures Count(s, c) == 0
  {
    if s != [] {
      CountNone(s[1..], c);
    }
  }

  /** Removing `c` removes exactly its occurrences. */
  lemma {:induction false} RemoveCount(s: string, c: char)
    ensures |Remove(s, {c})| == |s| - Count(s, c)
  {
    if s != [] {
      RemoveCount(s[1..], c);
    }
  }

  /**
   * What `std::map::insert` does: the key is bound to `v` only when it was
   * absent; every other key keeps its binding.
   */
  function InsertAbsent<K, V>(m: map<K, V>, k: K, v: V): (r: map<K, V>)
    ensures k in r && r[k] == (if k in m then m[k] else v)
    ensures r.Keys == m.Keys + {k}
    ensures forall j :: j in m && j != k ==> r[j] == m[j]
  {
    if k in m then m else m[k := v]
  }
}
