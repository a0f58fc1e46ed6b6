/** Decoding a base58 key into exactly 32 bytes (`bs58_decode_32` in `selection.rs`). */
module Base58 {
  import opened Prelude

  const DIGITS: string := "123456789"
  const UPPER: string := "ABCDEFGHJKLMNPQRSTUVWXYZ"
  const LOWER: string := "abcdefghijkmnopqrstuvwxyz"
  const ALPHABET: string := DIGITS + UPPER + LOWER
  const OUT_LEN: nat := 32
  const NO_DIGIT: nat := 255

  lemma AlphabetIsAscii()
    ensures |ALPHABET| == 58 && forall i :: 0 <= i < |ALPHABET| ==> ALPHABET[i] as int < 128
  {
    assert forall i :: 0 <= i < |DIGITS| ==> DIGITS[i] as int < 128;
    assert forall i :: 0 <= i < |UPPER| ==> UPPER[i] as int < 128;
    assert forall i :: 0 <= i < |LOWER| ==> LOWER[i] as int < 128;
  }

  /** The digit a byte stands for among the first `n` of the alphabet. */
  function DigitBelow(c: Byte, n: nat): Option<nat>
    requires n <= |ALPHABET|
  {
    if n == 0 then None
    else if ALPHABET[n - 1] as int == c then Some(n - 1)
    else DigitBelow(c, n - 1)
  }

  function Digit(c: Byte): Option<nat> { DigitBelow(c, |ALPHABET|) }

  predicate AllDigits(s: seq<Byte>) {
    forall i :: 0 <= i < |s| ==> Digit(s[i]).Some?
  }

  /** The number a string of digits denotes in base 58. */
  function Value(s: seq<Byte>): nat
    requires AllDigits(s)
  {
    if s == [] then 0 else Value(s[..|s| - 1]) * 58 + Digit(s[|s| - 1]).value
  }

  /** The number a byte string denotes, most significant byte first. */
  function BigEndian(s: seq<Byte>): nat {
    if s == [] then 0 else s[0] * Pow256(|s| - 1) + BigEndian(s[1..])
  }

  lemma {:induction false} BigEndianBelow(s: seq<Byte>)
    ensures BigEndian(s) < Pow256(|s|)
  {
    if s != [] {
      BigEndianBelow(s[1..]);
      ByteTimes(s[0], Pow256(|s| - 1));
    }
  }

  lemma ByteTimes(b: Byte, p: nat)
    ensures b * p + p <= 256 * p
  {
  }

  lemma {:induction false} ValueGrows(s: seq<Byte>, k: nat)
    requires AllDigits(s) && k <= |s|
    ensures Value(s[..k]) <= Value(s)
  {
    if k == |s| {
      assert s[..k] == s;
    } else {
      ValueGrows(s[..|s| - 1], k);
      assert s[..|s| - 1][..k] == s[..k];
    }
  }

  /** The table from ASCII byte to digit, filled from the alphabet. */
  method DigitTable() returns (table: seq<nat>)
    ensures |table| == 128
    ensures forall c: Byte :: c < 128 ==> table[c] == if Digit(c).Some? then Digit(c).value else NO_DIGIT
  {
    AlphabetIsAscii();
    table := seq(128, _ => NO_DIGIT);
    for i := 0 to |ALPHABET|
      invariant |table| == 128
      invariant forall c: Byte :: c < 128 ==> table[c] == if DigitBelow(c, i).Some? then DigitBelow(c, i).value else NO_DIGIT
    {
      table := table[ALPHABET[i] as int := i];
    }
  }

  lemma {:induction false} DigitsAreSmall(c: Byte, n: nat)
    requires n <= |ALPHABET|
    ensures DigitBelow(c, n).Some? ==> DigitBelow(c, n).value < n && c < 128
  {
    AlphabetIsAscii();
    if n > 0 {
      DigitsAreSmall(c, n - 1);
    }
  }

  /** One column of the multiplication: what moves on as carry is what the byte could not hold. */
  lemma ColumnStep(b: Byte, carry: nat, p: nat, low: nat, lowBefore: nat, val: nat)
    requires low + carry * p == lowBefore * 58 + val
    ensures var cur := b * 58 + carry;
            cur % 256 * p + low + cur / 256 * (256 * p) == (b * p + lowBefore) * 58 + val
  {
    var cur := b * 58 + carry;
    var r, q := cur % 256, cur / 256;
    assert cur == r + 256 * q;
    calc {
      r * p + low + q * (256 * p);
      (r + 256 * q) * p + low;
      cur * p + low;
      b * 58 * p + (low + carry * p);
    }
  }

  /** Multiplies the number in `out` by 58 and adds `val`, column by column from the right. */
  method MulAdd(out: array<Byte>, val: nat) returns (carry: nat)
    requires out.Length == OUT_LEN
    modifies out
    ensures BigEndian(out[..]) + carry * Pow256(OUT_LEN) == BigEndian(old(out[..])) * 58 + val
  {
    ghost var before := out[..];
    carry := val;
    var j := OUT_LEN;
    assert out[OUT_LEN..] == [] && before[OUT_LEN..] == [];
    while j > 0
      invariant 0 <= j <= OUT_LEN
      invariant out[..j] == before[..j]
      invariant BigEndian(out[j..]) + carry * Pow256(OUT_LEN - j) == BigEndian(before[j..]) * 58 + val
    {
      ghost var low, lowBefore, p := BigEndian(out[j..]), BigEndian(before[j..]), Pow256(OUT_LEN - j);
      j := j - 1;
      assert out[j] == out[..j + 1][j] == before[..j + 1][j];
      ColumnStep(out[j], carry, p, low, lowBefore, val);
      var cur := out[j] * 58 + carry;
      assert before[j..][1..] == before[j + 1..];
      ghost var tail := out[j + 1..];
      out[j] := cur % 256;
      carry := cur / 256;
      assert out[j..][1..] == tail;
      assert out[..j] == before[..j];
    }
    assert out[0..] == out[..] && before[0..] == before;
  }

  /** Succeeds exactly on strings of digits whose value fits 32 bytes, with that value's big-endian bytes. */
  method Decode32(s: seq<Byte>) returns (r: Option<seq<Byte>>)
    ensures r.Some? <==> AllDigits(s) && Value(s) < Pow256(OUT_LEN)
    ensures r.Some? ==> |r.value| == OUT_LEN && BigEndian(r.value) == Value(s)
  {
    var table := DigitTable();
    var out := new Byte[OUT_LEN](_ => 0);
    ZerosAreZero(out[..]);
    for i := 0 to |s|
      invariant AllDigits(s[..i]) && BigEndian(out[..]) == Value(s[..i])
    {
      assert s[..i + 1][..i] == s[..i];
      DigitsAreSmall(s[i], |ALPHABET|);
      if s[i] >= 128 {
        return None;
      }
      var val := table[s[i]];
      AlphabetIsAscii();
      if val == NO_DIGIT {
        return None;
      }
      assert AllDigits(s[..i + 1]);
      var carry := MulAdd(out, val);
      assert Value(s[..i + 1]) == Value(s[..i]) * 58 + val;
      if carry != 0 {
        CarryOverflows(carry, Pow256(OUT_LEN));
        if AllDigits(s) {
          ValueGrows(s, i + 1);
        }
        return None;
      }
    }
    assert s[..|s|] == s;
    BigEndianBelow(out[..]);
    return Some(out[..]);
  }

  lemma CarryOverflows(carry: nat, p: nat)
    requires carry > 0
    ensures carry * p >= p
  {
  }

  lemma {:induction false} ZerosAreZero(s: seq<Byte>)
    requires forall i :: 0 <= i < |s| ==> s[i] == 0
    ensures BigEndian(s) == 0
  {
    if s != [] {
      ZerosAreZero(s[1..]);
    }
  }
}
