/** Placeholders of the buy transaction and where they are found in it (`template.rs`). */
module Placeholders {
  import opened Prelude
  import opened Scan
  import opened WireFormat
  import opened PumpFilter

  const MSG_OFFSET: nat := 65

  datatype Field =
    | FeeRecipient | BuybackRecipient | Mint | BondingCurve | AssociatedBondingCurve | BondingCurveV2
    | CreatorVault | TokenAccount | TokenProgram | Seed | Amount | MaxSolCost | NonceAccount | NonceValue
    | TipAccount | TipLamports | CuPrice

  function Repeat(b: Byte, n: nat): (s: seq<Byte>)
    ensures |s| == n && forall i :: 0 <= i < n ==> s[i] == b
  {
    seq(n, _ => b)
  }

  /** The dummy that stands for a field while the transaction is compiled. */
  function Needle(f: Field): (s: seq<Byte>)
    ensures |s| == Width(f)
  {
    match f
    case Mint => Repeat(0xA1, 32)
    case BondingCurve => Repeat(0xA2, 32)
    case AssociatedBondingCurve => Repeat(0xA3, 32)
    case BondingCurveV2 => Repeat(0xA4, 32)
    case CreatorVault => Repeat(0xA5, 32)
    case TokenAccount => Repeat(0xA6, 32)
    case TokenProgram => Repeat(0xA7, 32)
    case TipAccount => Repeat(0xA8, 32)
    case NonceValue => Repeat(0xA9, 32)
    case FeeRecipient => Repeat(0xAA, 32)
    case BuybackRecipient => Repeat(0xAB, 32)
    case NonceAccount => Repeat(0xAC, 32)
    case Amount => Repeat(0x11, 8)
    case MaxSolCost => Repeat(0x22, 8)
    case TipLamports => Repeat(0x33, 8)
    case CuPrice => Repeat(0x44, 8)
    case Seed => [0xB1, 0xB2, 0xB3, 0xB4, 0xB5, 0xB6]
  }

  function Width(f: Field): (n: nat)
    ensures n > 0
  {
    match f
    case Seed => 6
    case Amount => 8
    case MaxSolCost => 8
    case TipLamports => 8
    case CuPrice => 8
    case _ => 32
  }

  /** Which field's dummy a byte can belong to. */
  function Owner(b: Byte): Option<Field> {
    if b == 0xA1 then Some(Mint)
    else if b == 0xA2 then Some(BondingCurve)
    else if b == 0xA3 then Some(AssociatedBondingCurve)
    else if b == 0xA4 then Some(BondingCurveV2)
    else if b == 0xA5 then Some(CreatorVault)
    else if b == 0xA6 then Some(TokenAccount)
    else if b == 0xA7 then Some(TokenProgram)
    else if b == 0xA8 then Some(TipAccount)
    else if b == 0xA9 then Some(NonceValue)
    else if b == 0xAA then Some(FeeRecipient)
    else if b == 0xAB then Some(BuybackRecipient)
    else if b == 0xAC then Some(NonceAccount)
    else if b == 0x11 then Some(Amount)
    else if b == 0x22 then Some(MaxSolCost)
    else if b == 0x33 then Some(TipLamports)
    else if b == 0x44 then Some(CuPrice)
    else if 0xB1 <= b <= 0xB6 then Some(Seed)
    else None
  }

  /** The dummies are written in disjoint alphabets. */
  lemma BytesNameTheirField(f: Field, i: nat)
    requires i < Width(f)
    ensures Owner(Needle(f)[i]) == Some(f)
  {
  }

  // ---------------------------------------------------------------- searching

  /** Every offset of the needle, overlapping ones included, in order. */
  method FindAll(haystack: seq<Byte>, needle: seq<Byte>) returns (out: seq<nat>)
    ensures forall p: nat :: p in out <==> At(haystack, p, needle)
    ensures forall i, j :: 0 <= i < j < |out| ==> out[i] < out[j]
  {
    out := [];
    var i := 0;
    while i + |needle| <= |haystack|
      invariant forall p: nat :: p in out <==> p < i && At(haystack, p, needle)
      invariant forall j :: 0 <= j < |out| ==> out[j] < i
      invariant forall j, k :: 0 <= j < k < |out| ==> out[j] < out[k]
      decreases |haystack| - i
    {
      if haystack[i..i + |needle|] == needle {
        out := out + [i];
      }
      i := i + 1;
    }
  }

  ghost predicate Twice(haystack: seq<Byte>, needle: seq<Byte>) {
    exists p: nat, q: nat :: p < q && At(haystack, p, needle) && At(haystack, q, needle)
  }

  /** The only offset of the needle; missing and ambiguous needles are refused alike. */
  method FindUnique(haystack: seq<Byte>, needle: seq<Byte>) returns (found: Option<nat>)
    ensures found.Some? ==> forall p: nat :: At(haystack, p, needle) <==> p == found.value
    ensures found.None? ==> (forall p: nat :: !At(haystack, p, needle)) || Twice(haystack, needle)
  {
    found := None;
    var i := 0;
    while i + |needle| <= |haystack|
      invariant found.Some? ==> found.value < i && At(haystack, found.value, needle)
      invariant forall p: nat :: p < i && At(haystack, p, needle) ==> found == Some(p)
      decreases |haystack| - i
    {
      if haystack[i..i + |needle|] == needle {
        assert At(haystack, i, needle);
        if found.Some? {
          assert At(haystack, found.value, needle);
          return None;
        }
        found := Some(i);
      }
      i := i + 1;
    }
  }

  // ---------------------------------------------------------------- the offset table

  /** Where each field starts in the transaction; the token program stands there twice. */
  datatype Offsets = Offsets(
    feeRecipient: nat,
    buybackRecipient: nat,
    mint: nat,
    bondingCurve: nat,
    associatedBondingCurve: nat,
    bondingCurveV2: nat,
    creatorVault: nat,
    tokenAccount: nat,
    tokenProgram: (nat, nat),
    seed: nat,
    amount: nat,
    maxSolCost: nat,
    nonceAccount: nat,
    nonceValue: nat,
    tipAccount: nat,
    tipLamports: nat,
    cuPrice: nat)

  function OffsetOf(o: Offsets, f: Field): nat {
    match f
    case FeeRecipient => o.feeRecipient
    case BuybackRecipient => o.buybackRecipient
    case Mint => o.mint
    case BondingCurve => o.bondingCurve
    case AssociatedBondingCurve => o.associatedBondingCurve
    case BondingCurveV2 => o.bondingCurveV2
    case CreatorVault => o.creatorVault
    case TokenAccount => o.tokenAccount
    case TokenProgram => o.tokenProgram.0
    case Seed => o.seed
    case Amount => o.amount
    case MaxSolCost => o.maxSolCost
    case NonceAccount => o.nonceAccount
    case NonceValue => o.nonceValue
    case TipAccount => o.tipAccount
    case TipLamports => o.tipLamports
    case CuPrice => o.cuPrice
  }

  predicate Placed(o: Offsets, f: Field, p: nat) {
    p == OffsetOf(o, f) || (f == TokenProgram && p == o.tokenProgram.1)
  }

  /** The dummy of `f` stands at offset `p` of the transaction, whose first 65 bytes hold the signature. */
  predicate Stands(msg: seq<Byte>, f: Field, p: nat) {
    p >= MSG_OFFSET && At(msg, p - MSG_OFFSET, Needle(f))
  }

  ghost predicate OnlyAt(msg: seq<Byte>, f: Field, p: nat) {
    forall q: nat :: Stands(msg, f, q) <==> q == p
  }

  ghost predicate OnlyAtBoth(msg: seq<Byte>, f: Field, p: nat, q: nat) {
    p < q && forall r: nat :: Stands(msg, f, r) <==> r == p || r == q
  }

  /** The table lists exactly the places where the dummies stand. */
  ghost predicate Located(msg: seq<Byte>, o: Offsets) {
    && (forall f: Field :: f != TokenProgram ==> OnlyAt(msg, f, OffsetOf(o, f)))
    && OnlyAtBoth(msg, TokenProgram, o.tokenProgram.0, o.tokenProgram.1)
  }

  /** Where one field stands. The source panics when there is no such place, or more than one. */
  method Find(msg: seq<Byte>, f: Field) returns (p: Option<nat>)
    ensures p.Some? ==> OnlyAt(msg, f, p.value)
    ensures p.None? ==> forall q: nat :: !OnlyAt(msg, f, q)
  {
    hide Needle, At;
    var found := FindUnique(msg, Needle(f));
    if found.Some? {
      return Some(MSG_OFFSET + found.value);
    }
    forall q: nat ensures !OnlyAt(msg, f, q) {
      NowhereAlone(msg, f, q);
    }
    return None;
  }

  lemma NowhereAlone(msg: seq<Byte>, f: Field, q: nat)
    requires (forall p: nat :: !At(msg, p, Needle(f))) || Twice(msg, Needle(f))
    ensures !OnlyAt(msg, f, q)
  {
    hide Needle, At;
    if Twice(msg, Needle(f)) {
      var p: nat, r: nat :| p < r && At(msg, p, Needle(f)) && At(msg, r, Needle(f));
      assert Stands(msg, f, p + MSG_OFFSET) && Stands(msg, f, r + MSG_OFFSET);
    } else {
      assert !Stands(msg, f, q);
    }
  }

  method FindPair(msg: seq<Byte>, f: Field) returns (p: Option<(nat, nat)>)
    ensures p.Some? ==> OnlyAtBoth(msg, f, p.value.0, p.value.1)
    ensures p.None? ==> forall q: nat, r: nat :: !OnlyAtBoth(msg, f, q, r)
  {
    hide Needle, At;
    var all := FindAll(msg, Needle(f));
    if |all| == 2 {
      forall r: nat ensures Stands(msg, f, r) <==> r == MSG_OFFSET + all[0] || r == MSG_OFFSET + all[1] {
      }
      return Some((MSG_OFFSET + all[0], MSG_OFFSET + all[1]));
    }
    forall q: nat, r: nat ensures !OnlyAtBoth(msg, f, q, r) {
      if OnlyAtBoth(msg, f, q, r) {
        assert Stands(msg, f, q);
        PairIsTwo(msg, f, q, r, all);
      }
    }
    return None;
  }

  lemma PairIsTwo(msg: seq<Byte>, f: Field, q: nat, r: nat, all: seq<nat>)
    requires OnlyAtBoth(msg, f, q, r) && q >= MSG_OFFSET
    requires forall p: nat :: p in all <==> At(msg, p, Needle(f))
    requires forall i, j :: 0 <= i < j < |all| ==> all[i] < all[j]
    ensures |all| == 2
  {
    hide Needle, At;
    var pair: seq<nat> := [q - MSG_OFFSET, r - MSG_OFFSET];
    forall p: nat ensures p in all <==> p in pair {
      assert Stands(msg, f, p + MSG_OFFSET) <==> At(msg, p, Needle(f));
    }
    StrictUnique(all, pair);
  }

  /** The table lists exactly the places, field by field. */
  ghost predicate EachPlaced(msg: seq<Byte>, o: Offsets) {
    && OnlyAt(msg, FeeRecipient, o.feeRecipient) && OnlyAt(msg, BuybackRecipient, o.buybackRecipient)
    && OnlyAt(msg, Mint, o.mint) && OnlyAt(msg, BondingCurve, o.bondingCurve)
    && OnlyAt(msg, AssociatedBondingCurve, o.associatedBondingCurve)
    && OnlyAt(msg, BondingCurveV2, o.bondingCurveV2) && OnlyAt(msg, CreatorVault, o.creatorVault)
    && OnlyAt(msg, TokenAccount, o.tokenAccount) && OnlyAt(msg, Seed, o.seed)
    && OnlyAt(msg, Amount, o.amount) && OnlyAt(msg, MaxSolCost, o.maxSolCost)
    && OnlyAt(msg, NonceAccount, o.nonceAccount) && OnlyAt(msg, NonceValue, o.nonceValue)
    && OnlyAt(msg, TipAccount, o.tipAccount) && OnlyAt(msg, TipLamports, o.tipLamports)
    && OnlyAt(msg, CuPrice, o.cuPrice)
    && OnlyAtBoth(msg, TokenProgram, o.tokenProgram.0, o.tokenProgram.1)
  }

  lemma LocatedEach(msg: seq<Byte>, o: Offsets)
    ensures Located(msg, o) <==> EachPlaced(msg, o)
  {
    hide OnlyAt, OnlyAtBoth;
    if Located(msg, o) {
      LocatedPlaces(msg, o);
    }
  }

  lemma LocatedPlaces(msg: seq<Byte>, o: Offsets)
    requires Located(msg, o)
    ensures EachPlaced(msg, o)
  {
    hide OnlyAt, OnlyAtBoth;
    assert OnlyAt(msg, FeeRecipient, OffsetOf(o, FeeRecipient)) && OnlyAt(msg, BuybackRecipient, OffsetOf(o, BuybackRecipient));
    assert OnlyAt(msg, Mint, OffsetOf(o, Mint)) && OnlyAt(msg, BondingCurve, OffsetOf(o, BondingCurve));
    assert OnlyAt(msg, AssociatedBondingCurve, OffsetOf(o, AssociatedBondingCurve));
    assert OnlyAt(msg, BondingCurveV2, OffsetOf(o, BondingCurveV2)) && OnlyAt(msg, CreatorVault, OffsetOf(o, CreatorVault));
    assert OnlyAt(msg, TokenAccount, OffsetOf(o, TokenAccount)) && OnlyAt(msg, Seed, OffsetOf(o, Seed));
    assert OnlyAt(msg, Amount, OffsetOf(o, Amount)) && OnlyAt(msg, MaxSolCost, OffsetOf(o, MaxSolCost));
    assert OnlyAt(msg, NonceAccount, OffsetOf(o, NonceAccount)) && OnlyAt(msg, NonceValue, OffsetOf(o, NonceValue));
    assert OnlyAt(msg, TipAccount, OffsetOf(o, TipAccount)) && OnlyAt(msg, TipLamports, OffsetOf(o, TipLamports));
    assert OnlyAt(msg, CuPrice, OffsetOf(o, CuPrice));
  }

  /** The offset table of a compiled message, or `None` where the source panics. */
  method Locate(msg: seq<Byte>) returns (r: Option<Offsets>)
    ensures r.Some? ==> Located(msg, r.value)
    ensures r.None? ==> forall o :: !Located(msg, o)
  {
    hide OnlyAt, OnlyAtBoth, Located;
    var feeRecipient := Find(msg, FeeRecipient);
    var buybackRecipient := Find(msg, BuybackRecipient);
    var mint := Find(msg, Mint);
    var bondingCurve := Find(msg, BondingCurve);
    var associatedBondingCurve := Find(msg, AssociatedBondingCurve);
    var bondingCurveV2 := Find(msg, BondingCurveV2);
    var creatorVault := Find(msg, CreatorVault);
    var tokenAccount := Find(msg, TokenAccount);
    var tokenProgram := FindPair(msg, TokenProgram);
    var seed := Find(msg, Seed);
    var amount := Find(msg, Amount);
    var maxSolCost := Find(msg, MaxSolCost);
    var nonceAccount := Find(msg, NonceAccount);
    var nonceValue := Find(msg, NonceValue);
    var tipAccount := Find(msg, TipAccount);
    var tipLamports := Find(msg, TipLamports);
    var cuPrice := Find(msg, CuPrice);
    if feeRecipient.None? || buybackRecipient.None? || mint.None? || bondingCurve.None?
       || associatedBondingCurve.None? || bondingCurveV2.None? || creatorVault.None? || tokenAccount.None?
       || tokenProgram.None? || seed.None? || amount.None? || maxSolCost.None?
       || nonceAccount.None? || nonceValue.None? || tipAccount.None? || tipLamports.None? || cuPrice.None? {
      forall o ensures !Located(msg, o) {
        LocatedEach(msg, o);
      }
      return None;
    }
    var o := Offsets(
      feeRecipient.value, buybackRecipient.value, mint.value, bondingCurve.value,
      associatedBondingCurve.value, bondingCurveV2.value, creatorVault.value, tokenAccount.value,
      tokenProgram.value, seed.value, amount.value, maxSolCost.value,
      nonceAccount.value, nonceValue.value, tipAccount.value, tipLamports.value, cuPrice.value);
    LocatedEach(msg, o);
    return Some(o);
  }

  // ---------------------------------------------------------------- disjointness

  predicate Apart(p: nat, m: nat, q: nat, n: nat) { p + m <= q || q + n <= p }

  lemma PlacedStands(msg: seq<Byte>, o: Offsets, f: Field, p: nat)
    requires Located(msg, o) && Placed(o, f, p)
    ensures Stands(msg, f, p) && p + Width(f) <= MSG_OFFSET + |msg|
  {
    hide Needle;
    if f != TokenProgram {
      assert OnlyAt(msg, f, OffsetOf(o, f));
    }
  }

  /** Ranges of different fields never overlap, whatever the rest of the message holds. */
  lemma FieldsNeverOverlap(msg: seq<Byte>, o: Offsets, f: Field, p: nat, g: Field, q: nat)
    requires Located(msg, o) && Placed(o, f, p) && Placed(o, g, q) && f != g
    ensures Apart(p, Width(f), q, Width(g))
  {
    hide Needle, Width, Located;
    PlacedStands(msg, o, f, p);
    PlacedStands(msg, o, g, q);
    StandingApart(msg, f, p, g, q);
  }

  lemma StandingApart(msg: seq<Byte>, f: Field, p: nat, g: Field, q: nat)
    requires Stands(msg, f, p) && Stands(msg, g, q) && f != g
    ensures Apart(p, Width(f), q, Width(g))
  {
    hide Needle, Width, Owner;
    if !Apart(p, Width(f), q, Width(g)) {
      var x: nat := Max(p, q);
      ByteOf(msg, f, p, x);
      ByteOf(msg, g, q, x);
    }
  }

  /** A byte inside a standing dummy names the dummy's field. */
  lemma ByteOf(msg: seq<Byte>, f: Field, p: nat, x: nat)
    requires Stands(msg, f, p) && p <= x < p + Width(f)
    ensures x - MSG_OFFSET < |msg| && Owner(msg[x - MSG_OFFSET]) == Some(f)
  {
    hide Needle, Width, Owner;
    var start := p - MSG_OFFSET;
    assert msg[start..start + Width(f)] == Needle(f);
    assert msg[x - MSG_OFFSET] == msg[start..start + Width(f)][x - p];
    BytesNameTheirField(f, x - p);
  }

  /** The two copies of the token program overlap exactly when one starts right after the other does. */
  lemma CopiesOverlapIffAdjacent(msg: seq<Byte>, o: Offsets)
    requires Located(msg, o)
    ensures var (a, b) := o.tokenProgram;
            Apart(a, 32, b, 32) <==> b != a + 1
  {
    var (a, b) := o.tokenProgram;
    if b < a + 32 {
      assert Stands(msg, TokenProgram, a) && Stands(msg, TokenProgram, b);
      var i := a + 1 - MSG_OFFSET;
      var dummy := Needle(TokenProgram);
      forall x | i <= x < i + 32 ensures msg[x] == 0xA7 {
        if x < i + 31 {
          assert msg[x] == msg[i - 1..i + 31][x - i + 1] == dummy[x - i + 1];
        } else {
          var j := b - MSG_OFFSET;
          assert msg[x] == msg[j..j + 32][x - j] == dummy[x - j];
        }
      }
      forall k | 0 <= k < 32 ensures msg[i..i + 32][k] == dummy[k] {
      }
      assert Stands(msg, TokenProgram, a + 1);
    }
  }

  // ---------------------------------------------------------------- compiled messages

  /**
   In a compiled message that names the token program among its account keys and once more inside the data
   of an instruction, the blockhash stands between: the copies are well apart.
   */
  lemma CompiledCopiesAreApart(body: Body, lookups: seq<Record>, o: Offsets, k: nat, i: nat, d: nat)
    requires MessageOk(V0(body, lookups)) && Located(EncodeMessage(V0(body, lookups)), o)
    requires k < |body.keys| && body.keys[k] == Needle(TokenProgram)
    requires i < |body.instructions| && At(body.instructions[i].second, d, Needle(TokenProgram))
    ensures o.tokenProgram.0 + 64 <= o.tokenProgram.1
  {
    hide At, Needle, EncodeBody, EncodeShortRecords, BodyOk;
    var msg := EncodeMessage(V0(body, lookups));
    AtItself(msg);
    AtConcat(msg, 0, [V0_PREFIX], EncodeBody(body) + EncodeShortRecords(lookups));
    AtConcat(msg, 1, EncodeBody(body), EncodeShortRecords(lookups));
    var p := BodyKey(msg, 1, body, k);
    var data := BodyData(msg, 1, body, i);
    AtInside(msg, data, body.instructions[i].second, d, Needle(TokenProgram));
    var q := data + d;
    assert Stands(msg, TokenProgram, p + MSG_OFFSET) && Stands(msg, TokenProgram, q + MSG_OFFSET);
  }

  lemma AtInside(buf: seq<Byte>, p: nat, s: seq<Byte>, d: nat, t: seq<Byte>)
    requires At(buf, p, s) && At(s, d, t)
    ensures At(buf, p + d, t)
  {
    assert s == s[..d] + t + s[d + |t|..];
    hide At;
    AtConcat(buf, p, s[..d], t + s[d + |t|..]);
    AtConcat(buf, p + d, t, s[d + |t|..]);
    assert s[..d] + (t + s[d + |t|..]) == s;
  }

  // ---------------------------------------------------------------- a message with touching copies

  /** Where each placeholder's run of bytes starts in the message below. */
  function RunStart(f: Field): nat {
    match f
    case Mint => 0
    case BondingCurve => 32
    case AssociatedBondingCurve => 64
    case BondingCurveV2 => 96
    case CreatorVault => 128
    case TokenAccount => 160
    case TipAccount => 192
    case NonceValue => 224
    case FeeRecipient => 256
    case BuybackRecipient => 288
    case NonceAccount => 320
    case TokenProgram => 352
    case Amount => 385
    case MaxSolCost => 393
    case TipLamports => 401
    case CuPrice => 409
    case Seed => 417
  }

  function RunLength(f: Field): nat { if f == TokenProgram then 33 else Width(f) }

  function RunAt(x: nat): Field {
    if x < 32 then Mint
    else if x < 64 then BondingCurve
    else if x < 96 then AssociatedBondingCurve
    else if x < 128 then BondingCurveV2
    else if x < 160 then CreatorVault
    else if x < 192 then TokenAccount
    else if x < 224 then TipAccount
    else if x < 256 then NonceValue
    else if x < 288 then FeeRecipient
    else if x < 320 then BuybackRecipient
    else if x < 352 then NonceAccount
    else if x < 385 then TokenProgram
    else if x < 393 then Amount
    else if x < 401 then MaxSolCost
    else if x < 409 then TipLamports
    else if x < 417 then CuPrice
    else Seed
  }

  lemma RunsCover(f: Field, x: nat)
    requires x < 423
    ensures RunAt(x) == f <==> RunStart(f) <= x < RunStart(f) + RunLength(f)
  {
  }

  /** All placeholders side by side, with one byte too many for the token program. */
  function Crowded(): (msg: seq<Byte>)
    ensures |msg| == 423
    ensures forall x :: 0 <= x < 423 ==> msg[x] == CrowdedByte(x)
  {
    seq(423, x requires 0 <= x < 423 => CrowdedByte(x))
  }

  function CrowdedByte(x: nat): Byte
    requires x < 423
  {
    if RunAt(x) == Seed then 0xB1 + (x - 417) else Needle(RunAt(x))[0]
  }

  lemma CrowdedNeedle(f: Field, start: nat)
    requires RunStart(f) <= start && start + Width(f) <= RunStart(f) + RunLength(f)
    ensures start + Width(f) <= 423 && At(Crowded(), start, Needle(f))
  {
    assert RunStart(f) + RunLength(f) <= 423;
    var msg, needle := Crowded(), Needle(f);
    forall x | start <= x < start + |needle| ensures msg[x] == needle[x - start] {
      RunsCover(f, x);
    }
    hide *;
    AtBytewise(msg, start, needle);
  }

  lemma CrowdedOnlyThere(f: Field, start: nat)
    requires At(Crowded(), start, Needle(f))
    ensures RunStart(f) <= start && start + Width(f) <= RunStart(f) + RunLength(f)
  {
    var last := start + Width(f) - 1;
    forall x | x == start || x == last ensures RunAt(x) == f {
      ByteAt(Crowded(), start, Needle(f), x - start);
      BytesNameTheirField(f, x - start);
      CrowdedOwner(x);
    }
    RunsCover(f, start);
    RunsCover(f, last);
  }

  lemma CrowdedOwner(x: nat)
    requires x < 423
    ensures Owner(CrowdedByte(x)) == Some(RunAt(x))
  {
  }

  function CrowdedOffsets(): Offsets {
    Offsets(256 + 65, 288 + 65, 65, 32 + 65, 64 + 65, 96 + 65, 128 + 65, 160 + 65, (352 + 65, 353 + 65), 417 + 65,
            385 + 65, 393 + 65, 320 + 65, 224 + 65, 192 + 65, 401 + 65, 409 + 65)
  }

  /** Touching copies do pass the search: it accepts a message in which they overlap. */
  lemma TouchingCopiesAreAccepted()
    ensures Located(Crowded(), CrowdedOffsets()) && CrowdedOffsets().tokenProgram.1 == CrowdedOffsets().tokenProgram.0 + 1
  {
    hide Crowded, Stands, OffsetOf, RunStart;
    forall f: Field | f != TokenProgram ensures OnlyAt(Crowded(), f, OffsetOf(CrowdedOffsets(), f)) {
      CrowdedStands(f);
      CrowdedOffsetIs(f);
    }
    CrowdedStands(TokenProgram);
    CrowdedOffsetIs(TokenProgram);
  }

  lemma CrowdedOffsetIs(f: Field)
    ensures OffsetOf(CrowdedOffsets(), f) == MSG_OFFSET + RunStart(f)
    ensures CrowdedOffsets().tokenProgram == (MSG_OFFSET + RunStart(TokenProgram), MSG_OFFSET + RunStart(TokenProgram) + 1)
  {
  }

  lemma CrowdedStands(f: Field)
    ensures forall p: nat :: Stands(Crowded(), f, p) <==>
              p == MSG_OFFSET + RunStart(f) || (f == TokenProgram && p == MSG_OFFSET + RunStart(f) + 1)
  {
    hide At, Needle, Crowded;
    CrowdedNeedle(f, RunStart(f));
    if f == TokenProgram {
      CrowdedNeedle(f, RunStart(f) + 1);
    }
    forall p: nat | Stands(Crowded(), f, p)
      ensures p == MSG_OFFSET + RunStart(f) || (f == TokenProgram && p == MSG_OFFSET + RunStart(f) + 1)
    {
      CrowdedOnlyThere(f, p - MSG_OFFSET);
    }
  }
}
