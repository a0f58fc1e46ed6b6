/** Vocabulary shared by every module: optional results, bytes, and byte strings found at an offset. */
module Prelude {

  datatype Option<+T> = None | Some(value: T)

  /** The outcome of reading a value at an offset of a buffer: the value and the offset just past it. */
  datatype Parsed<+T> = Bad | Got(value: T, next: nat)

  type Byte = b: int | 0 <= b < 256

  /** One more than the largest `u64`. */
  const U64_SPAN: nat := 0x1_0000_0000_0000_0000
  const U64_MAX: nat := U64_SPAN - 1

  type U64 = n: int | 0 <= n <= U64_MAX

  function Pow256(k: nat): (r: nat)
    ensures r > 0
  {
    if k == 0 then 1 else 256 * Pow256(k - 1)
  }

  function Min(a: int, b: int): int { if a <= b then a else b }

  function Max(a: int, b: int): int { if a <= b then b else a }

  function SaturatingSub(a: nat, b: nat): nat { if a <= b then 0 else a - b }

  /** `u64::saturating_add`. */
  function SaturatingAdd(a: nat, b: nat): nat { if a + b <= U64_MAX then a + b else U64_MAX }

  predicate Ascends(s: seq<nat>) {
    forall i, j :: 0 <= i < j < |s| ==> s[i] <= s[j]
  }

  /** The position a parse stopped at, forgetting the value it produced. */
  function NextOf<T>(parsed: Parsed<T>): Option<nat> {
    match parsed
    case Bad => None
    case Got(_, next) => Some(next)
  }

  /** `s` is what `buf` holds from offset `p` on. */
  predicate At(buf: seq<Byte>, p: nat, s: seq<Byte>) {
    p + |s| <= |buf| && buf[p..p + |s|] == s
  }

  lemma ByteAt(buf: seq<Byte>, p: nat, s: seq<Byte>, k: nat)
    requires At(buf, p, s) && k < |s|
    ensures p + k < |buf| && buf[p + k] == s[k]
  {
    assert buf[p..p + |s|][k] == buf[p + k];
  }

  lemma AtBytewise(buf: seq<Byte>, p: nat, s: seq<Byte>)
    requires p + |s| <= |buf| && forall x :: p <= x < p + |s| ==> buf[x] == s[x - p]
    ensures At(buf, p, s)
  {
    forall k | 0 <= k < |s| ensures buf[p..p + |s|][k] == s[k] {
      assert buf[p + k] == s[p + k - p];
    }
  }

  lemma AtConcat(buf: seq<Byte>, p: nat, a: seq<Byte>, b: seq<Byte>)
    ensures At(buf, p, a + b) <==> At(buf, p, a) && At(buf, p + |a|, b)
  {
    if p + |a| + |b| <= |buf| {
      var whole := buf[p..p + |a| + |b|];
      assert whole == buf[p..p + |a|] + buf[p + |a|..p + |a| + |b|];
      if At(buf, p, a + b) {
        assert whole[..|a|] == a && whole[|a|..] == b;
      }
    }
  }

  /** Growing a buffer at its end does not disturb what an offset of it already held. */
  lemma AtPrefix(buf: seq<Byte>, n: nat, p: nat, s: seq<Byte>)
    requires n <= |buf|
    ensures At(buf[..n], p, s) <==> At(buf, p, s) && p + |s| <= n
  {
    if p + |s| <= n {
      assert buf[..n][p..p + |s|] == buf[p..p + |s|];
    }
  }
}
