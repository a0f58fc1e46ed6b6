/** Patching the compiled buy in place, per launch and per provider (`template.rs`, `lib.rs`, `sender.rs`). */
module Template {
  import opened Prelude
  import opened Placeholders
  import WireFormat

  const MAX_TX: nat := 1232

  type Key = s: seq<Byte> | |s| == 32 witness seq(32, _ => 0)
  type SeedBytes = s: seq<Byte> | |s| == 6 witness seq(6, _ => 0)
  type Signature = s: seq<Byte> | |s| == 64 witness seq(64, _ => 0)

  // ---------------------------------------------------------------- patches on byte strings

  datatype Patch = Patch(off: nat, bytes: seq<Byte>)

  predicate Fits(p: Patch, n: nat) { p.off + |p.bytes| <= n }

  predicate AllFit(ps: seq<Patch>, n: nat) { forall i :: 0 <= i < |ps| ==> Fits(ps[i], n) }

  function Splice(tx: seq<Byte>, p: Patch): (r: seq<Byte>)
    requires Fits(p, |tx|)
    ensures |r| == |tx|
    ensures r[p.off..p.off + |p.bytes|] == p.bytes
    ensures forall x :: 0 <= x < |tx| && !Covers(p, x) ==> r[x] == tx[x]
  {
    tx[..p.off] + p.bytes + tx[p.off + |p.bytes|..]
  }

  predicate Covers(p: Patch, x: int) { p.off <= x < p.off + |p.bytes| }

  function Apply(tx: seq<Byte>, ps: seq<Patch>): (r: seq<Byte>)
    requires AllFit(ps, |tx|)
    ensures |r| == |tx|
  {
    if ps == [] then tx else Splice(Apply(tx, ps[..|ps| - 1]), ps[|ps| - 1])
  }

  /** What the last patch over position `x` leaves there, `b` if there is none. */
  function Written(ps: seq<Patch>, x: nat, b: Byte): Byte {
    if ps == [] then b
    else
      var last := ps[|ps| - 1];
      if Covers(last, x) then last.bytes[x - last.off] else Written(ps[..|ps| - 1], x, b)
  }

  predicate Covered(ps: seq<Patch>, x: int) {
    exists i :: 0 <= i < |ps| && Covers(ps[i], x)
  }

  lemma SpliceAt(tx: seq<Byte>, p: Patch, x: nat)
    requires Fits(p, |tx|) && x < |tx|
    ensures Splice(tx, p)[x] == if Covers(p, x) then p.bytes[x - p.off] else tx[x]
  {
  }

  lemma {:induction false} ApplyAt(tx: seq<Byte>, ps: seq<Patch>, x: nat)
    requires AllFit(ps, |tx|) && x < |tx|
    ensures Apply(tx, ps)[x] == Written(ps, x, tx[x])
  {
    hide Splice, Fits, Covers;
    if ps != [] {
      ApplyAt(tx, ps[..|ps| - 1], x);
      SpliceAt(Apply(tx, ps[..|ps| - 1]), ps[|ps| - 1], x);
    }
  }

  lemma {:induction false} WrittenForgets(ps: seq<Patch>, x: nat, b: Byte, c: Byte)
    ensures Covered(ps, x) ==> Written(ps, x, b) == Written(ps, x, c)
    ensures !Covered(ps, x) ==> Written(ps, x, b) == b
  {
    hide Covers;
    if ps != [] {
      var front := ps[..|ps| - 1];
      WrittenForgets(front, x, b, c);
      CoveredByLast(ps, x);
    }
  }

  lemma CoveredByLast(ps: seq<Patch>, x: nat)
    requires ps != []
    ensures Covered(ps, x) <==> Covered(ps[..|ps| - 1], x) || Covers(ps[|ps| - 1], x)
  {
    hide Covers;
    var front := ps[..|ps| - 1];
    if Covered(front, x) {
      var i :| 0 <= i < |front| && Covers(front[i], x);
      assert Covers(ps[i], x);
    }
    if Covered(ps, x) {
      var i :| 0 <= i < |ps| && Covers(ps[i], x);
      assert i == |ps| - 1 || front[i] == ps[i];
    }
  }

  /** Two patch lists that write the same ranges, with whatever bytes. */
  predicate SameShape(ps: seq<Patch>, qs: seq<Patch>) {
    |ps| == |qs| && forall i :: 0 <= i < |ps| ==> ps[i].off == qs[i].off && |ps[i].bytes| == |qs[i].bytes|
  }

  /** Patching again over the same ranges leaves no trace of the patch before, even if ranges overlap. */
  lemma RepatchForgets(tx: seq<Byte>, ps: seq<Patch>, qs: seq<Patch>)
    requires SameShape(ps, qs) && AllFit(ps, |tx|)
    ensures AllFit(qs, |tx|) && Apply(Apply(tx, ps), qs) == Apply(tx, qs)
  {
    hide Apply, Written;
    assert forall i :: 0 <= i < |qs| ==> Fits(ps[i], |tx|);
    var once := Apply(tx, ps);
    forall x | 0 <= x < |tx| ensures Apply(once, qs)[x] == Apply(tx, qs)[x] {
      ApplyAt(once, qs, x);
      ApplyAt(tx, qs, x);
      ApplyAt(tx, ps, x);
      WrittenForgets(qs, x, once[x], tx[x]);
      WrittenForgets(ps, x, tx[x], tx[x]);
      SameCover(ps, qs, x);
    }
  }

  lemma SameCover(ps: seq<Patch>, qs: seq<Patch>, x: nat)
    requires SameShape(ps, qs)
    ensures Covered(ps, x) <==> Covered(qs, x)
  {
    if Covered(ps, x) {
      var i :| 0 <= i < |ps| && Covers(ps[i], x);
      assert Covers(qs[i], x);
    }
    if Covered(qs, x) {
      var i :| 0 <= i < |qs| && Covers(qs[i], x);
      assert Covers(ps[i], x);
    }
  }

  predicate ApartPatches(p: Patch, q: Patch) { Apart(p.off, |p.bytes|, q.off, |q.bytes|) }

  /** Patches over different ranges commute. */
  lemma PatchesCommute(tx: seq<Byte>, p: Patch, q: Patch)
    requires Fits(p, |tx|) && Fits(q, |tx|) && ApartPatches(p, q)
    ensures Splice(Splice(tx, p), q) == Splice(Splice(tx, q), p)
  {
    var a, b := Splice(Splice(tx, p), q), Splice(Splice(tx, q), p);
    hide Splice;
    forall x | 0 <= x < |tx| ensures a[x] == b[x] {
      SpliceAt(tx, p, x);
      SpliceAt(tx, q, x);
      SpliceAt(Splice(tx, p), q, x);
      SpliceAt(Splice(tx, q), p, x);
    }
  }

  /** A patch that no later one touches reads back. */
  lemma {:induction false} ReadsBack(tx: seq<Byte>, ps: seq<Patch>, i: nat)
    requires AllFit(ps, |tx|) && i < |ps| && forall j :: i < j < |ps| ==> ApartPatches(ps[i], ps[j])
    ensures Apply(tx, ps)[ps[i].off..ps[i].off + |ps[i].bytes|] == ps[i].bytes
  {
    var p := ps[i];
    var n := |ps| - 1;
    assert Fits(p, |tx|);
    if i < n {
      ReadsBack(tx, ps[..n], i);
      var before := Apply(tx, ps[..n]);
      assert ApartPatches(p, ps[n]);
      SpliceKeeps(before, ps[n], p.off, |p.bytes|);
    }
  }

  lemma SpliceKeeps(tx: seq<Byte>, p: Patch, off: nat, n: nat)
    requires Fits(p, |tx|) && off + n <= |tx| && Apart(off, n, p.off, |p.bytes|)
    ensures Splice(tx, p)[off..off + n] == tx[off..off + n]
  {
    forall x | off <= x < off + n ensures Splice(tx, p)[x] == tx[x] {
      SpliceAt(tx, p, x);
    }
  }

  lemma {:induction false} Untouched(tx: seq<Byte>, ps: seq<Patch>, off: nat, n: nat)
    requires AllFit(ps, |tx|) && off + n <= |tx|
    requires forall j :: 0 <= j < |ps| ==> Apart(off, n, ps[j].off, |ps[j].bytes|)
    ensures Apply(tx, ps)[off..off + n] == tx[off..off + n]
  {
    if ps != [] {
      Untouched(tx, ps[..|ps| - 1], off, n);
      SpliceKeeps(Apply(tx, ps[..|ps| - 1]), ps[|ps| - 1], off, n);
    }
  }

  // ---------------------------------------------------------------- what a launch writes

  datatype Launch = Launch(
    feeRecipient: Key,
    buyback: Key,
    mint: Key,
    bondingCurve: Key,
    associatedBondingCurve: Key,
    bondingCurveV2: Key,
    creatorVault: Key,
    tokenAccount: Key,
    tokenProgram: Key,
    seed: SeedBytes,
    amount: U64,
    maxSolCost: U64,
    nonceAccount: Key,
    nonceValue: Key)

  function U64Bytes(n: U64): (s: seq<Byte>)
    ensures |s| == 8
  {
    WireFormat.EncodeU64(n)
  }

  /** The patches of a fire, in the order they are made. */
  function LaunchPatches(o: Offsets, l: Launch): seq<Patch> {
    [ Patch(o.feeRecipient, l.feeRecipient),
      Patch(o.buybackRecipient, l.buyback),
      Patch(o.mint, l.mint),
      Patch(o.bondingCurve, l.bondingCurve),
      Patch(o.associatedBondingCurve, l.associatedBondingCurve),
      Patch(o.bondingCurveV2, l.bondingCurveV2),
      Patch(o.creatorVault, l.creatorVault),
      Patch(o.tokenAccount, l.tokenAccount),
      Patch(o.tokenProgram.0, l.tokenProgram),
      Patch(o.tokenProgram.1, l.tokenProgram),
      Patch(o.seed, l.seed),
      Patch(o.amount, U64Bytes(l.amount)),
      Patch(o.maxSolCost, U64Bytes(l.maxSolCost)),
      Patch(o.nonceAccount, l.nonceAccount),
      Patch(o.nonceValue, l.nonceValue) ]
  }

  /** The field that the patch at index `i` fills. */
  function PatchedField(i: nat): Field
    requires i < 15
  {
    [ FeeRecipient, BuybackRecipient, Mint, BondingCurve, AssociatedBondingCurve, BondingCurveV2, CreatorVault,
      TokenAccount, TokenProgram, TokenProgram, Seed, Amount, MaxSolCost, NonceAccount, NonceValue ][i]
  }

  /** Where the patch at index `i` starts. */
  function PatchedOffset(o: Offsets, i: nat): nat
    requires i < 15
  {
    if i == 9 then o.tokenProgram.1 else OffsetOf(o, PatchedField(i))
  }

  /** The first index at which a launch field is patched; 15 for the provider's fields. */
  function PatchIndex(f: Field): nat {
    match f
    case FeeRecipient => 0
    case BuybackRecipient => 1
    case Mint => 2
    case BondingCurve => 3
    case AssociatedBondingCurve => 4
    case BondingCurveV2 => 5
    case CreatorVault => 6
    case TokenAccount => 7
    case TokenProgram => 8
    case Seed => 10
    case Amount => 11
    case MaxSolCost => 12
    case NonceAccount => 13
    case NonceValue => 14
    case _ => 15
  }

  lemma PatchesFillFields(o: Offsets, l: Launch, i: nat)
    requires i < 15
    ensures |LaunchPatches(o, l)| == 15
    ensures var p, f := LaunchPatches(o, l)[i], PatchedField(i);
            Placed(o, f, p.off) && p.off == PatchedOffset(o, i) && |p.bytes| == Width(f) && PatchIndex(f) == if i == 9 then 8 else i
  {
    hide U64Bytes;
  }

  lemma LaunchPatchesFit(msg: seq<Byte>, o: Offsets, l: Launch, n: nat)
    requires Located(msg, o) && MSG_OFFSET + |msg| <= n
    ensures AllFit(LaunchPatches(o, l), n)
    ensures forall i :: 0 <= i < |LaunchPatches(o, l)| ==> LaunchPatches(o, l)[i].off >= MSG_OFFSET
  {
    hide LaunchPatches, Located, PatchedField;
    PatchesFillFields(o, l, 0);
    forall i | 0 <= i < 15 ensures Fits(LaunchPatches(o, l)[i], n) && LaunchPatches(o, l)[i].off >= MSG_OFFSET {
      PatchesFillFields(o, l, i);
      PlacedStands(msg, o, PatchedField(i), LaunchPatches(o, l)[i].off);
    }
  }

  lemma LaunchPatchesApart(msg: seq<Byte>, o: Offsets, l: Launch, i: nat, j: nat)
    requires Located(msg, o) && i < j < 15 && !(i == 8 && j == 9)
    ensures |LaunchPatches(o, l)| == 15 && ApartPatches(LaunchPatches(o, l)[i], LaunchPatches(o, l)[j])
  {
    hide LaunchPatches, Located, PatchedField;
    PatchesFillFields(o, l, i);
    PatchesFillFields(o, l, j);
    var ps := LaunchPatches(o, l);
    FieldsNeverOverlap(msg, o, PatchedField(i), ps[i].off, PatchedField(j), ps[j].off);
  }

  /** After a fire every launch field holds the launch's value. */
  lemma LaunchReadsBack(msg: seq<Byte>, o: Offsets, l: Launch, tx: seq<Byte>, i: nat)
    requires Located(msg, o) && MSG_OFFSET + |msg| <= |tx| && i < 15
    requires i != 8 || o.tokenProgram.1 != o.tokenProgram.0 + 1
    ensures var ps := LaunchPatches(o, l);
            |ps| == 15 && AllFit(ps, |tx|) && At(Apply(tx, ps), ps[i].off, ps[i].bytes)
  {
    hide Located, Apply;
    var ps := LaunchPatches(o, l);
    LaunchPatchesFit(msg, o, l, |tx|);
    forall j | i < j < 15 ensures ApartPatches(ps[i], ps[j]) {
      if i == 8 && j == 9 {
        CopiesOverlapIffAdjacent(msg, o);
      } else {
        LaunchPatchesApart(msg, o, l, i, j);
      }
    }
    hide LaunchPatches;
    assert Fits(ps[i], |tx|);
    ReadsBack(tx, ps, i);
  }

  /** Both copies of the token program read back for every launch exactly when they do not overlap. */
  lemma TokenProgramReadsBackIff(msg: seq<Byte>, o: Offsets, tx: seq<Byte>)
    requires Located(msg, o) && MSG_OFFSET + |msg| <= |tx|
    ensures (forall l: Launch :: FirstCopyHolds(o, l, tx)) <==> o.tokenProgram.1 != o.tokenProgram.0 + 1
  {
    hide Located, Apply, LaunchPatches;
    if o.tokenProgram.1 != o.tokenProgram.0 + 1 {
      forall l: Launch ensures FirstCopyHolds(o, l, tx) {
        LaunchReadsBack(msg, o, l, tx, 8);
        PatchList(o, l);
      }
    } else {
      var l := Staggered();
      LaunchPatchesFit(msg, o, l, |tx|);
      LaunchReadsBack(msg, o, l, tx, 9);
      PatchList(o, l);
      var a := o.tokenProgram.0;
      var after := Apply(tx, LaunchPatches(o, l));
      assert after[a + 1..a + 33][0] == l.tokenProgram[0];
      SecondByteOf(after, a, l.tokenProgram);
      assert !FirstCopyHolds(o, l, tx);
    }
  }

  lemma SecondByteOf(tx: seq<Byte>, a: nat, key: Key)
    ensures At(tx, a, key) ==> tx[a + 1] == key[1]
  {
    if At(tx, a, key) {
      assert tx[a..a + 32][1] == key[1];
    }
  }

  predicate FirstCopyHolds(o: Offsets, l: Launch, tx: seq<Byte>) {
    && AllFit(LaunchPatches(o, l), |tx|)
    && At(Apply(tx, LaunchPatches(o, l)), o.tokenProgram.0, l.tokenProgram)
  }

  /** A launch whose token program begins with two different bytes. */
  function Staggered(): (l: Launch)
    ensures l.tokenProgram[0] != l.tokenProgram[1]
  {
    var zero: Key := Repeat(0, 32);
    Launch(zero, zero, zero, zero, zero, zero, zero, zero, [1] + Repeat(0, 31), Repeat(0, 6), 0, 0, zero, zero)
  }

  // ---------------------------------------------------------------- patching in place

  method PatchBytes(tx: array<Byte>, off: nat, bytes: seq<Byte>)
    requires Fits(Patch(off, bytes), tx.Length)
    modifies tx
    ensures tx[..] == Splice(old(tx[..]), Patch(off, bytes))
  {
    forall i | 0 <= i < |bytes| {
      tx[off + i] := bytes[i];
    }
    assert tx[..off] == old(tx[..off]) && tx[off..off + |bytes|] == bytes;
    assert tx[off + |bytes|..] == old(tx[off + |bytes|..]);
    assert tx[..] == tx[..off] + tx[off..off + |bytes|] + tx[off + |bytes|..];
  }

  class BuyTemplate {
    const tx: array<Byte>
    const offsets: Offsets

    constructor (bytes: seq<Byte>, o: Offsets)
      ensures fresh(tx) && tx[..] == bytes && offsets == o
    {
      tx := new Byte[|bytes|](i requires 0 <= i < |bytes| => bytes[i]);
      offsets := o;
    }

    method PatchTokenProgram(key: Key)
      requires Fits(Patch(offsets.tokenProgram.0, key), tx.Length)
      requires Fits(Patch(offsets.tokenProgram.1, key), tx.Length)
      modifies tx
      ensures tx[..] == Splice(Splice(old(tx[..]), Patch(offsets.tokenProgram.0, key)), Patch(offsets.tokenProgram.1, key))
    {
      PatchBytes(tx, offsets.tokenProgram.0, key);
      PatchBytes(tx, offsets.tokenProgram.1, key);
    }

    /** The patches that a fire makes before it hands the body over. */
    method PatchLaunch(l: Launch)
      requires AllFit(LaunchPatches(offsets, l), tx.Length)
      modifies tx
      ensures tx[..] == Apply(old(tx[..]), LaunchPatches(offsets, l))
    {
      hide *;
      ghost var was, ps := tx[..], LaunchPatches(offsets, l);
      var o := offsets;
      NoPatches(was, ps);
      PatchList(o, l);
      OnePatch(was, ps, 0);
      PatchBytes(tx, o.feeRecipient, l.feeRecipient);
      OnePatch(was, ps, 1);
      PatchBytes(tx, o.buybackRecipient, l.buyback);
      OnePatch(was, ps, 2);
      PatchBytes(tx, o.mint, l.mint);
      OnePatch(was, ps, 3);
      PatchBytes(tx, o.bondingCurve, l.bondingCurve);
      OnePatch(was, ps, 4);
      PatchBytes(tx, o.associatedBondingCurve, l.associatedBondingCurve);
      OnePatch(was, ps, 5);
      PatchBytes(tx, o.bondingCurveV2, l.bondingCurveV2);
      OnePatch(was, ps, 6);
      PatchBytes(tx, o.creatorVault, l.creatorVault);
      OnePatch(was, ps, 7);
      PatchBytes(tx, o.tokenAccount, l.tokenAccount);
      OnePatch(was, ps, 8);
      OnePatch(was, ps, 9);
      PatchTokenProgram(l.tokenProgram);
      OnePatch(was, ps, 10);
      PatchBytes(tx, o.seed, l.seed);
      OnePatch(was, ps, 11);
      PatchBytes(tx, o.amount, U64Bytes(l.amount));
      OnePatch(was, ps, 12);
      PatchBytes(tx, o.maxSolCost, U64Bytes(l.maxSolCost));
      OnePatch(was, ps, 13);
      PatchBytes(tx, o.nonceAccount, l.nonceAccount);
      OnePatch(was, ps, 14);
      PatchBytes(tx, o.nonceValue, l.nonceValue);
      assert ps[..15] == ps;
    }
  }

  lemma PatchList(o: Offsets, l: Launch)
    ensures var ps := LaunchPatches(o, l);
            && |ps| == 15
            && ps[0] == Patch(o.feeRecipient, l.feeRecipient)
            && ps[1] == Patch(o.buybackRecipient, l.buyback)
            && ps[2] == Patch(o.mint, l.mint)
            && ps[3] == Patch(o.bondingCurve, l.bondingCurve)
            && ps[4] == Patch(o.associatedBondingCurve, l.associatedBondingCurve)
            && ps[5] == Patch(o.bondingCurveV2, l.bondingCurveV2)
            && ps[6] == Patch(o.creatorVault, l.creatorVault)
            && ps[7] == Patch(o.tokenAccount, l.tokenAccount)
            && ps[8] == Patch(o.tokenProgram.0, l.tokenProgram)
            && ps[9] == Patch(o.tokenProgram.1, l.tokenProgram)
            && ps[10] == Patch(o.seed, l.seed)
            && ps[11] == Patch(o.amount, U64Bytes(l.amount))
            && ps[12] == Patch(o.maxSolCost, U64Bytes(l.maxSolCost))
            && ps[13] == Patch(o.nonceAccount, l.nonceAccount)
            && ps[14] == Patch(o.nonceValue, l.nonceValue)
  {
    hide U64Bytes;
  }

  lemma NoPatches(tx: seq<Byte>, ps: seq<Patch>)
    ensures AllFit(ps[..0], |tx|) && Apply(tx, ps[..0]) == tx
  {
  }

  lemma OnePatch(tx: seq<Byte>, ps: seq<Patch>, k: nat)
    requires AllFit(ps, |tx|) && k < |ps|
    ensures AllFit(ps[..k], |tx|) && AllFit(ps[..k + 1], |tx|) && Fits(ps[k], |tx|)
    ensures Apply(tx, ps[..k + 1]) == Splice(Apply(tx, ps[..k]), ps[k])
  {
    hide Splice, Fits;
    var qs := ps[..k + 1];
    assert qs[..k] == ps[..k] && qs[k] == ps[k] && |qs| - 1 == k;
  }

  /** The bytes of a fire owe nothing to the launches fired before it. */
  lemma FireOwesNothingToThePast(o: Offsets, past: Launch, l: Launch, tx: seq<Byte>)
    requires AllFit(LaunchPatches(o, past), |tx|)
    ensures AllFit(LaunchPatches(o, l), |tx|)
    ensures Apply(Apply(tx, LaunchPatches(o, past)), LaunchPatches(o, l)) == Apply(tx, LaunchPatches(o, l))
  {
    hide Apply, LaunchPatches;
    var ps, qs := LaunchPatches(o, past), LaunchPatches(o, l);
    PatchesFillFields(o, past, 0);
    PatchesFillFields(o, l, 0);
    forall i | 0 <= i < 15 ensures ps[i].off == qs[i].off && |ps[i].bytes| == |qs[i].bytes| {
      PatchesFillFields(o, past, i);
      PatchesFillFields(o, l, i);
    }
    RepatchForgets(tx, ps, qs);
  }

  // ---------------------------------------------------------------- one provider's copy

  /** What differs from provider to provider. */
  datatype Job = Job(tipAccount: Key, tipLamports: U64, cuPrice: U64)

  function ProviderPatches(o: Offsets, job: Job): seq<Patch> {
    [Patch(o.tipAccount, job.tipAccount), Patch(o.tipLamports, U64Bytes(job.tipLamports)), Patch(o.cuPrice, U64Bytes(job.cuPrice))]
  }

  function ProviderField(i: nat): Field
    requires i < 3
  {
    if i == 0 then TipAccount else if i == 1 then TipLamports else CuPrice
  }

  /** The transaction a provider is sent: its own tip and fee, signed over the whole message. */
  function Stamped(base: seq<Byte>, o: Offsets, job: Job, sign: seq<Byte> -> Signature): (tx: seq<Byte>)
    requires MSG_OFFSET < |base| && AllFit(ProviderPatches(o, job), |base|)
    ensures |tx| == |base|
  {
    var body := Apply(base, ProviderPatches(o, job));
    Splice(body, Patch(1, sign(body[MSG_OFFSET..])))
  }

  /**
   Copies the shared body into the sender's reused buffer and stamps it; nothing of an earlier job
   survives in the bytes sent, and a body of impossible length is skipped.
   */
  method Stamp(tx: array<Byte>, base: seq<Byte>, o: Offsets, job: Job, sign: seq<Byte> -> Signature) returns (sent: bool)
    requires tx.Length == MAX_TX
    requires MSG_OFFSET < |base| <= MAX_TX ==> AllFit(ProviderPatches(o, job), |base|)
    modifies tx
    ensures sent <==> MSG_OFFSET < |base| <= MAX_TX
    ensures sent ==> tx[..|base|] == Stamped(base, o, job, sign) && tx[|base|..] == old(tx[|base|..])
    ensures !sent ==> tx[..] == old(tx[..])
  {
    var len := |base|;
    if len <= MSG_OFFSET || len > MAX_TX {
      return false;
    }
    StampedInSteps(base, o, job, sign);
    hide *;
    ghost var rest := tx[len..];
    CopyBody(tx, base);
    ghost var tipped := Splice(base, Patch(o.tipAccount, job.tipAccount));
    PatchBytes(tx, o.tipAccount, job.tipAccount);
    SplicePrefix(base, rest, Patch(o.tipAccount, job.tipAccount));
    ghost var paid := Splice(tipped, Patch(o.tipLamports, U64Bytes(job.tipLamports)));
    PatchBytes(tx, o.tipLamports, U64Bytes(job.tipLamports));
    SplicePrefix(tipped, rest, Patch(o.tipLamports, U64Bytes(job.tipLamports)));
    ghost var body := Splice(paid, Patch(o.cuPrice, U64Bytes(job.cuPrice)));
    PatchBytes(tx, o.cuPrice, U64Bytes(job.cuPrice));
    SplicePrefix(paid, rest, Patch(o.cuPrice, U64Bytes(job.cuPrice)));
    MessagePart(body, rest);
    assert tx[MSG_OFFSET..len] == tx[..][MSG_OFFSET..len];
    var sig := sign(tx[MSG_OFFSET..len]);
    assert Fits(Patch(1, sig), len) by { SignatureFits(sig, len); }
    PatchBytes(tx, 1, sig);
    SplicePrefix(body, rest, Patch(1, sig));
    PrefixAndRest(tx[..], Stamped(base, o, job, sign), rest);
    return true;
  }

  method CopyBody(tx: array<Byte>, base: seq<Byte>)
    requires |base| <= tx.Length
    modifies tx
    ensures tx[..] == base + old(tx[|base|..])
  {
    forall i | 0 <= i < |base| {
      tx[i] := base[i];
    }
  }

  lemma SignatureFits(sig: Signature, n: nat)
    requires n > MSG_OFFSET
    ensures Fits(Patch(1, sig), n) && Fits(Patch(1, sig), MAX_TX)
  {
  }

  lemma MessagePart(body: seq<Byte>, rest: seq<Byte>)
    requires |body| > MSG_OFFSET
    ensures (body + rest)[MSG_OFFSET..|body|] == body[MSG_OFFSET..]
  {
  }

  lemma PrefixAndRest(tx: seq<Byte>, head: seq<Byte>, rest: seq<Byte>)
    requires tx == head + rest
    ensures tx[..|head|] == head && tx[|head|..] == rest
  {
  }

  /** The stamped transaction, one patch after the other. */
  lemma StampedInSteps(base: seq<Byte>, o: Offsets, job: Job, sign: seq<Byte> -> Signature)
    requires MSG_OFFSET < |base| <= MAX_TX && AllFit(ProviderPatches(o, job), |base|)
    ensures var a, b, c := Patch(o.tipAccount, job.tipAccount), Patch(o.tipLamports, U64Bytes(job.tipLamports)), Patch(o.cuPrice, U64Bytes(job.cuPrice));
            && Fits(a, |base|) && Fits(b, |base|) && Fits(c, |base|)
            && Fits(a, MAX_TX) && Fits(b, MAX_TX) && Fits(c, MAX_TX)
            && var body := Splice(Splice(Splice(base, a), b), c);
               Fits(Patch(1, sign(body[MSG_OFFSET..])), |body|)
               && Stamped(base, o, job, sign) == Splice(body, Patch(1, sign(body[MSG_OFFSET..])))
  {
    hide Splice, Apply, U64Bytes;
    var ps := ProviderPatches(o, job);
    OnePatch(base, ps, 0);
    OnePatch(base, ps, 1);
    OnePatch(base, ps, 2);
    NoPatches(base, ps);
    assert ps[..3] == ps;
  }

  lemma SplicePrefix(base: seq<Byte>, rest: seq<Byte>, p: Patch)
    requires Fits(p, |base|)
    ensures Splice(base + rest, p) == Splice(base, p) + rest
  {
  }

  lemma ProviderPatchesFill(msg: seq<Byte>, o: Offsets, job: Job, n: nat)
    requires Located(msg, o) && MSG_OFFSET + |msg| <= n
    ensures |ProviderPatches(o, job)| == 3 && AllFit(ProviderPatches(o, job), n)
    ensures forall i :: 0 <= i < 3 ==>
              var p, f := ProviderPatches(o, job)[i], ProviderField(i);
              p.off == OffsetOf(o, f) >= MSG_OFFSET && |p.bytes| == Width(f)
  {
    hide U64Bytes, Located;
    PlacedStands(msg, o, TipAccount, o.tipAccount);
    PlacedStands(msg, o, TipLamports, o.tipLamports);
    PlacedStands(msg, o, CuPrice, o.cuPrice);
  }

  /** A range of the message that no provider field touches is sent as the detect thread left it. */
  lemma SharedRangeIsSent(msg: seq<Byte>, o: Offsets, base: seq<Byte>, job: Job, sign: seq<Byte> -> Signature, off: nat, n: nat)
    requires Located(msg, o) && |base| == MSG_OFFSET + |msg| && MSG_OFFSET < |base|
    requires MSG_OFFSET <= off && off + n <= |base|
    requires forall i :: 0 <= i < 3 ==> Apart(off, n, OffsetOf(o, ProviderField(i)), Width(ProviderField(i)))
    ensures AllFit(ProviderPatches(o, job), |base|)
    ensures Stamped(base, o, job, sign)[off..off + n] == base[off..off + n]
  {
    hide Splice, Apply, ProviderPatches, Located, ProviderField;
    ProviderPatchesFill(msg, o, job, |base|);
    var ps := ProviderPatches(o, job);
    var body := Apply(base, ps);
    Untouched(base, ps, off, n);
    SpliceKeeps(body, Patch(1, sign(body[MSG_OFFSET..])), off, n);
  }

  /** Any two providers' messages for one launch agree outside tip account, tip and compute-unit price. */
  lemma ProvidersAgree(
    msg: seq<Byte>, o: Offsets, base: seq<Byte>, a: Job, b: Job, sign: seq<Byte> -> Signature, x: nat)
    requires Located(msg, o) && |base| == MSG_OFFSET + |msg| && MSG_OFFSET <= x < |base|
    requires forall i :: 0 <= i < 3 ==> Apart(x, 1, OffsetOf(o, ProviderField(i)), Width(ProviderField(i)))
    ensures AllFit(ProviderPatches(o, a), |base|) && AllFit(ProviderPatches(o, b), |base|)
    ensures Stamped(base, o, a, sign)[x] == Stamped(base, o, b, sign)[x] == base[x]
  {
    hide Stamped, ProviderPatches, Located, ProviderField;
    SharedRangeIsSent(msg, o, base, a, sign, x, 1);
    SharedRangeIsSent(msg, o, base, b, sign, x, 1);
    assert base[x..x + 1] == [base[x]];
    assert Stamped(base, o, a, sign)[x..x + 1][0] == base[x];
    assert Stamped(base, o, b, sign)[x..x + 1][0] == base[x];
  }

  /**
   From template to provider: whatever was fired before, the transaction sent carries every value of its
   own launch, the nonce included, and its own provider's tip account, tip and price.
   */
  lemma SentTransactionIsComplete(
    msg: seq<Byte>, o: Offsets, tx: seq<Byte>, l: Launch, job: Job, sign: seq<Byte> -> Signature, i: nat)
    requires Located(msg, o) && |tx| == MSG_OFFSET + |msg| && MSG_OFFSET < |tx| && i < 15
    requires i != 8 || o.tokenProgram.1 != o.tokenProgram.0 + 1
    ensures var ps := LaunchPatches(o, l);
            && |ps| == 15 && AllFit(ps, |tx|) && AllFit(ProviderPatches(o, job), |tx|)
            && At(Stamped(Apply(tx, ps), o, job, sign), ps[i].off, ps[i].bytes)
  {
    hide *;
    LaunchReadsBack(msg, o, l, tx, i);
    var ps := LaunchPatches(o, l);
    var base := Apply(tx, ps);
    assert LaunchPatch(o, |tx|, ps[i]) by { IsLaunchPatch(msg, o, l, |tx|, i); }
    SharedPatchIsSent(msg, o, base, job, sign, ps[i]);
  }

  /** A patch inside the message and clear of the provider's fields. */
  ghost predicate LaunchPatch(o: Offsets, n: nat, p: Patch) {
    && MSG_OFFSET <= p.off && Fits(p, n)
    && forall k :: 0 <= k < 3 ==> Apart(p.off, |p.bytes|, OffsetOf(o, ProviderField(k)), Width(ProviderField(k)))
  }

  lemma IsLaunchPatch(msg: seq<Byte>, o: Offsets, l: Launch, n: nat, i: nat)
    requires Located(msg, o) && MSG_OFFSET + |msg| <= n && i < 15
    ensures |LaunchPatches(o, l)| == 15 && LaunchPatch(o, n, LaunchPatches(o, l)[i])
  {
    hide LaunchPatches, Located, PatchedField, OffsetOf, Width, Apart, ProviderField;
    PatchesFillFields(o, l, i);
    LaunchPatchesFit(msg, o, l, n);
    forall k | 0 <= k < 3
      ensures var p := LaunchPatches(o, l)[i]; Apart(p.off, |p.bytes|, OffsetOf(o, ProviderField(k)), Width(ProviderField(k)))
    {
      LaunchApartFromProvider(msg, o, l, i, k);
    }
  }

  /** In a compiled message that holds for every field, both copies of the token program included. */
  lemma CompiledTransactionIsComplete(
    body: WireFormat.Body, lookups: seq<WireFormat.Record>, key: nat, ix: nat, at: nat,
    o: Offsets, tx: seq<Byte>, l: Launch, job: Job, sign: seq<Byte> -> Signature, i: nat)
    requires WireFormat.MessageOk(WireFormat.V0(body, lookups)) && i < 15
    requires Located(WireFormat.EncodeMessage(WireFormat.V0(body, lookups)), o)
    requires |tx| == MSG_OFFSET + |WireFormat.EncodeMessage(WireFormat.V0(body, lookups))|
    requires key < |body.keys| && body.keys[key] == Needle(TokenProgram)
    requires ix < |body.instructions| && At(body.instructions[ix].second, at, Needle(TokenProgram))
    ensures var ps := LaunchPatches(o, l);
            && |ps| == 15 && AllFit(ps, |tx|) && AllFit(ProviderPatches(o, job), |tx|) && MSG_OFFSET < |tx|
            && At(Stamped(Apply(tx, ps), o, job, sign), ps[i].off, ps[i].bytes)
  {
    hide *;
    var msg := WireFormat.EncodeMessage(WireFormat.V0(body, lookups));
    assert msg != [] by { SomethingEncoded(body, lookups); }
    CompiledCopiesAreApart(body, lookups, o, key, ix, at);
    SentTransactionIsComplete(msg, o, tx, l, job, sign, i);
  }

  lemma SomethingEncoded(body: WireFormat.Body, lookups: seq<WireFormat.Record>)
    requires WireFormat.MessageOk(WireFormat.V0(body, lookups))
    ensures WireFormat.EncodeMessage(WireFormat.V0(body, lookups)) != []
  {
  }

  lemma SharedPatchIsSent(msg: seq<Byte>, o: Offsets, base: seq<Byte>, job: Job, sign: seq<Byte> -> Signature, p: Patch)
    requires Located(msg, o) && |base| == MSG_OFFSET + |msg| && MSG_OFFSET < |base|
    requires LaunchPatch(o, |base|, p) && At(base, p.off, p.bytes)
    ensures AllFit(ProviderPatches(o, job), |base|)
    ensures At(Stamped(base, o, job, sign), p.off, p.bytes)
  {
    hide Located, ProviderPatches, Stamped, ProviderField, OffsetOf, Width, Apart;
    SharedRangeIsSent(msg, o, base, job, sign, p.off, |p.bytes|);
  }

  lemma LaunchApartFromProvider(msg: seq<Byte>, o: Offsets, l: Launch, i: nat, k: nat)
    requires Located(msg, o) && i < 15 && k < 3
    ensures |LaunchPatches(o, l)| == 15
    ensures var p, f := LaunchPatches(o, l)[i], ProviderField(k);
            Apart(p.off, |p.bytes|, OffsetOf(o, f), Width(f))
  {
    hide LaunchPatches, Located, PatchedField, Width, Apart;
    PatchesFillFields(o, l, i);
    FieldsNeverOverlap(msg, o, PatchedField(i), LaunchPatches(o, l)[i].off, ProviderField(k), OffsetOf(o, ProviderField(k)));
  }

  lemma ProviderFieldsAreSent(msg: seq<Byte>, o: Offsets, base: seq<Byte>, job: Job, sign: seq<Byte> -> Signature, i: nat)
    requires Located(msg, o) && |base| == MSG_OFFSET + |msg| && MSG_OFFSET < |base| && i < 3
    ensures var ps := ProviderPatches(o, job);
            && |ps| == 3 && AllFit(ps, |base|)
            && At(Stamped(base, o, job, sign), ps[i].off, ps[i].bytes)
  {
    hide Apply, Splice, ProviderPatches, Located;
    var ps := ProviderPatches(o, job);
    ProviderPatchesFill(msg, o, job, |base|);
    forall j | i < j < 3 ensures ApartPatches(ps[i], ps[j]) {
      FieldsNeverOverlap(msg, o, ProviderField(i), ps[i].off, ProviderField(j), ps[j].off);
    }
    ReadsBack(base, ps, i);
    var body := Apply(base, ps);
    assert Fits(ps[i], |base|);
    SpliceKeeps(body, Patch(1, sign(body[MSG_OFFSET..])), ps[i].off, |ps[i].bytes|);
  }

  /** The signature sent covers exactly the message sent. */
  lemma SignatureCoversMessage(msg: seq<Byte>, o: Offsets, base: seq<Byte>, job: Job, sign: seq<Byte> -> Signature)
    requires Located(msg, o) && |base| == MSG_OFFSET + |msg| && MSG_OFFSET < |base|
    ensures AllFit(ProviderPatches(o, job), |base|)
    ensures var tx := Stamped(base, o, job, sign); tx[1..MSG_OFFSET] == sign(tx[MSG_OFFSET..])
  {
    hide Apply, Splice, ProviderPatches, Located;
    ProviderPatchesFill(msg, o, job, |base|);
    var body := Apply(base, ProviderPatches(o, job));
    var p := Patch(1, sign(body[MSG_OFFSET..]));
    SpliceKeeps(body, p, MSG_OFFSET, |base| - MSG_OFFSET);
    assert Splice(body, p)[MSG_OFFSET..|base|] == Splice(body, p)[MSG_OFFSET..];
    assert body[MSG_OFFSET..|base|] == body[MSG_OFFSET..];
  }

  // ---------------------------------------------------------------- the bytes sent, field by field

  /** The eight bytes at `p` are that number, low byte first. */
  predicate U64At(tx: seq<Byte>, p: nat, n: nat) {
    p + 8 <= |tx| && WireFormat.DecodeLE(tx[p..p + 8]) == n
  }

  lemma U64Stands(tx: seq<Byte>, p: nat, n: U64)
    requires At(tx, p, U64Bytes(n))
    ensures U64At(tx, p, n)
  {
    WireFormat.U64Encoded(tx, p, n);
  }

  /** Every field of the launch stands at its own offset in what is sent, the numbers decoded. */
  ghost predicate CarriesLaunch(tx: seq<Byte>, o: Offsets, l: Launch) {
    && At(tx, o.feeRecipient, l.feeRecipient)
    && At(tx, o.buybackRecipient, l.buyback)
    && At(tx, o.mint, l.mint)
    && At(tx, o.bondingCurve, l.bondingCurve)
    && At(tx, o.associatedBondingCurve, l.associatedBondingCurve)
    && At(tx, o.bondingCurveV2, l.bondingCurveV2)
    && At(tx, o.creatorVault, l.creatorVault)
    && At(tx, o.tokenAccount, l.tokenAccount)
    && At(tx, o.tokenProgram.0, l.tokenProgram)
    && At(tx, o.tokenProgram.1, l.tokenProgram)
    && At(tx, o.seed, l.seed)
    && U64At(tx, o.amount, l.amount)
    && U64At(tx, o.maxSolCost, l.maxSolCost)
    && At(tx, o.nonceAccount, l.nonceAccount)
    && At(tx, o.nonceValue, l.nonceValue)
  }

  ghost predicate CarriesJob(tx: seq<Byte>, o: Offsets, job: Job) {
    At(tx, o.tipAccount, job.tipAccount) && U64At(tx, o.tipLamports, job.tipLamports) && U64At(tx, o.cuPrice, job.cuPrice)
  }

  /** Whatever was fired before, what is sent carries every field of its launch and of its provider. */
  lemma SentFields(msg: seq<Byte>, o: Offsets, tx: seq<Byte>, l: Launch, job: Job, sign: seq<Byte> -> Signature)
    requires Located(msg, o) && |tx| == MSG_OFFSET + |msg| && MSG_OFFSET < |tx|
    requires o.tokenProgram.1 != o.tokenProgram.0 + 1
    ensures AllFit(LaunchPatches(o, l), |tx|) && AllFit(ProviderPatches(o, job), |tx|)
    ensures CarriesLaunch(Stamped(Apply(tx, LaunchPatches(o, l)), o, job, sign), o, l)
    ensures CarriesJob(Stamped(Apply(tx, LaunchPatches(o, l)), o, job, sign), o, job)
  {
    hide *;
    LaunchPatchesFit(msg, o, l, |tx|);
    PatchList(o, l);
    ProviderPatchesFill(msg, o, job, |tx|);
    var ps := LaunchPatches(o, l);
    forall i | 0 <= i < 15 ensures At(Stamped(Apply(tx, ps), o, job, sign), ps[i].off, ps[i].bytes) {
      SentTransactionIsComplete(msg, o, tx, l, job, sign, i);
    }
    var sent := Stamped(Apply(tx, ps), o, job, sign);
    LaunchIsCarried(sent, o, l);
    JobIsCarried(msg, o, Apply(tx, ps), job, sign);
  }

  lemma LaunchIsCarried(tx: seq<Byte>, o: Offsets, l: Launch)
    requires forall i :: 0 <= i < |LaunchPatches(o, l)| ==> At(tx, LaunchPatches(o, l)[i].off, LaunchPatches(o, l)[i].bytes)
    ensures CarriesLaunch(tx, o, l)
  {
    PatchList(o, l);
    hide At, U64At, U64Bytes, LaunchPatches;
    var ps := LaunchPatches(o, l);
    assert At(tx, ps[11].off, ps[11].bytes) && At(tx, ps[12].off, ps[12].bytes);
    U64Stands(tx, o.amount, l.amount);
    U64Stands(tx, o.maxSolCost, l.maxSolCost);
  }

  lemma JobIsCarried(msg: seq<Byte>, o: Offsets, base: seq<Byte>, job: Job, sign: seq<Byte> -> Signature)
    requires Located(msg, o) && |base| == MSG_OFFSET + |msg| && MSG_OFFSET < |base|
    requires AllFit(ProviderPatches(o, job), |base|)
    ensures CarriesJob(Stamped(base, o, job, sign), o, job)
  {
    hide At, U64At, U64Bytes, Stamped, Located;
    ProviderFieldsAreSent(msg, o, base, job, sign, 0);
    ProviderFieldsAreSent(msg, o, base, job, sign, 1);
    ProviderFieldsAreSent(msg, o, base, job, sign, 2);
    U64Stands(Stamped(base, o, job, sign), o.tipLamports, job.tipLamports);
    U64Stands(Stamped(base, o, job, sign), o.cuPrice, job.cuPrice);
  }
}
