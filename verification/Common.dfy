/** Small datatypes and byte helpers shared by the models. */
module Common {

  datatype Option<+T> = None | Some(value: T)

  datatype Result<+T, +E> = Ok(value: T) | Err(error: E)

  /** One octet of a packet or stream. */
  type byte = x: int | 0 <= x < 256

  const MAX_U64: nat := 0xFFFF_FFFF_FFFF_FFFF
  const MAX_I64: nat := 0x7FFF_FFFF_FFFF_FFFF

  /** `u64::saturating_add(1)`. */
  function SaturatingNext(n: nat): nat {
    if n < MAX_U64 then n + 1 else n
  }

  /** `u16::from_be_bytes`. */
  function Be16(high: byte, low: byte): nat {
    high * 256 + low
  }

  lemma {:induction false} SubsetSize<T>(a: set<T>, b: set<T>)
    requires a <= b
    ensures |a| <= |b|
  {
    assert a + (b - a) == b;
  }

  lemma ShrinkingKeys<K, V>(m: map<K, V>, m': map<K, V>)
    requires m'.Keys <= m.Keys
    ensures |m'| <= |m|
  {
    SubsetSize(m'.Keys, m.Keys);
  }

  lemma PuttingKey<K, V>(m: map<K, V>, k: K, v: V)
    ensures |m[k := v]| == if k in m then |m| else |m| + 1
  {
    assert m[k := v].Keys == m.Keys + {k};
  }

  /** `part` stands in `whole` at position `at`. */
  predicate StandsAt<T(==)>(whole: seq<T>, at: int, part: seq<T>) {
    0 <= at && at + |part| <= |whole| && whole[at..at + |part|] == part
  }

  lemma Regroup<T>(a: seq<T>, b: seq<T>, c: seq<T>)
    ensures a + (b + c) == a + b + c
  {
  }

  lemma RegroupFour<T>(a: seq<T>, b: seq<T>, c: seq<T>, d: seq<T>)
    ensures a + (b + c + d) == a + b + c + d
  {
  }

  lemma SliceOfSlice<T>(s: seq<T>, i: nat, j: nat, a: nat, b: nat)
    requires i <= j <= |s| && a <= b <= j - i
    ensures s[i..j][a..b] == s[i + a..i + b]
  {
    var middle := s[i..j];
    var x, y := middle[a..b], s[i + a..i + b];
    forall k | 0 <= k < b - a ensures x[k] == y[k] {
      assert x[k] == middle[a + k] == s[i + (a + k)];
    }
  }

  lemma PartsOfThree<T>(a: seq<T>, b: seq<T>, c: seq<T>)
    ensures (a + b + c)[..|a|] == a && (a + b + c)[|a|..|a| + |b|] == b && (a + b + c)[|a| + |b|..] == c
  {
  }

  function Sum(xs: seq<nat>, n: nat): nat
    requires n <= |xs|
  {
    if n == 0 then 0 else Sum(xs, n - 1) + xs[n - 1]
  }

  lemma {:induction false} SumOfPrefix(xs: seq<nat>, more: seq<nat>, n: nat)
    requires n <= |xs|
    ensures Sum(xs + more, n) == Sum(xs, n)
  {
    if n > 0 { SumOfPrefix(xs, more, n - 1); }
  }

  lemma {:induction false} SumOfUpdate(xs: seq<nat>, k: nat, x: nat, n: nat)
    requires k < |xs| && n <= |xs|
    ensures Sum(xs[k := x], n) + (if k < n then xs[k] else 0) == Sum(xs, n) + (if k < n then x else 0)
  {
    if n > 0 { SumOfUpdate(xs, k, x, n - 1); }
  }
}
