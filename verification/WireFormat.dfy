/**
 The serialized `Vec<Entry>` of a segment: bincode `u64` lengths around transactions whose own
 arrays carry Solana compact-u16 lengths.  Each part has an encoder and a full decoder, and two
 lemmas tie them: what was encoded decodes to itself, and whatever decodes is an encoding.
 */
module WireFormat {
  import opened Prelude

  // ---- values -----------------------------------------------------------------------------

  /** A compiled instruction (one head byte: the program id index; then accounts and data) or an
      address table lookup (32 head bytes: the table key; then writable and readonly indexes). */
  datatype Record = Record(head: seq<Byte>, first: seq<Byte>, second: seq<Byte>)

  datatype Body = Body(header: seq<Byte>, keys: seq<seq<Byte>>, blockhash: seq<Byte>, instructions: seq<Record>)

  datatype Message = Legacy(body: Body) | V0(body: Body, lookups: seq<Record>)

  datatype Transaction = Transaction(signatures: seq<seq<Byte>>, message: Message)

  datatype Entry = Entry(numHashes: nat, hash: seq<Byte>, transactions: seq<Transaction>)

  const SIGNATURE_LEN: nat := 64
  const KEY_LEN: nat := 32
  const HEADER_LEN: nat := 3
  const V0_PREFIX: Byte := 128
  const COMPACT_SPAN: nat := 65536

  // ---- well-formedness: what the Rust types can hold ---------------------------------------

  predicate ShortBytesOk(s: seq<Byte>) { |s| < COMPACT_SPAN }

  predicate BlobsOk(size: nat, blobs: seq<seq<Byte>>) {
    forall i :: 0 <= i < |blobs| ==> |blobs[i]| == size
  }

  predicate RecordOk(headLen: nat, r: Record) {
    |r.head| == headLen && ShortBytesOk(r.first) && ShortBytesOk(r.second)
  }

  predicate RecordsOk(headLen: nat, rs: seq<Record>) {
    forall i :: 0 <= i < |rs| ==> RecordOk(headLen, rs[i])
  }

  predicate ShortRecordsOk(headLen: nat, rs: seq<Record>) {
    |rs| < COMPACT_SPAN && RecordsOk(headLen, rs)
  }

  predicate BodyOk(b: Body) {
    && |b.header| == HEADER_LEN
    && |b.keys| < COMPACT_SPAN && BlobsOk(KEY_LEN, b.keys)
    && |b.blockhash| == KEY_LEN
    && ShortRecordsOk(1, b.instructions)
  }

  /** A legacy message starts with its signature count, which must leave the version bit clear. */
  predicate MessageOk(m: Message) {
    && BodyOk(m.body)
    && match m
       case Legacy(body) => body.header[0] < V0_PREFIX
       case V0(_, lookups) => ShortRecordsOk(KEY_LEN, lookups)
  }

  predicate TransactionOk(t: Transaction) {
    |t.signatures| < COMPACT_SPAN && BlobsOk(SIGNATURE_LEN, t.signatures) && MessageOk(t.message)
  }

  predicate TransactionsOk(ts: seq<Transaction>) {
    forall i :: 0 <= i < |ts| ==> TransactionOk(ts[i])
  }

  predicate EntryOk(e: Entry) {
    e.numHashes < U64_SPAN && |e.hash| == KEY_LEN && |e.transactions| < U64_SPAN && TransactionsOk(e.transactions)
  }

  predicate EntriesOk(es: seq<Entry>) {
    forall i :: 0 <= i < |es| ==> EntryOk(es[i])
  }

  // ---- integers ----------------------------------------------------------------------------

  /** `n` in `k` little-endian bytes. */
  function EncodeLE(n: nat, k: nat): (s: seq<Byte>)
    ensures |s| == k
  {
    if k == 0 then [] else [n % 256] + EncodeLE(n / 256, k - 1)
  }

  function DecodeLE(s: seq<Byte>): nat {
    if s == [] then 0 else s[0] + 256 * DecodeLE(s[1..])
  }

  lemma {:induction false} LEDecodes(n: nat, k: nat)
    requires n < Pow256(k)
    ensures DecodeLE(EncodeLE(n, k)) == n
  {
    if k > 0 {
      LEDecodes(n / 256, k - 1);
      assert EncodeLE(n, k)[1..] == EncodeLE(n / 256, k - 1);
    }
  }

  lemma {:induction false} LEEncodes(s: seq<Byte>)
    ensures DecodeLE(s) < Pow256(|s|) && EncodeLE(DecodeLE(s), |s|) == s
  {
    if s != [] {
      LEEncodes(s[1..]);
      LowByteOf(s[0], DecodeLE(s[1..]));
      assert s == [s[0]] + s[1..];
    }
  }

  lemma LowByteOf(low: Byte, rest: nat)
    ensures (low + 256 * rest) % 256 == low && (low + 256 * rest) / 256 == rest
  {
  }

  lemma Pow256Of8()
    ensures Pow256(8) == U64_SPAN
  {
    assert Pow256(4) == 0x1_0000_0000;
    assert Pow256(6) == 65536 * Pow256(4);
  }

  function EncodeU64(n: nat): (s: seq<Byte>)
    ensures |s| == 8
  {
    EncodeLE(n, 8)
  }

  function DecodeU64(buf: seq<Byte>, p: nat): Parsed<nat> {
    if p + 8 <= |buf| then Got(DecodeLE(buf[p..p + 8]), p + 8) else Bad
  }

  lemma U64Encoded(buf: seq<Byte>, p: nat, n: nat)
    requires n < U64_SPAN && At(buf, p, EncodeU64(n))
    ensures DecodeU64(buf, p) == Got(n, p + 8)
  {
    Pow256Of8();
    LEDecodes(n, 8);
  }

  /** Compact-u16: seven bits a byte, low bits first, the high bit set on all but the last byte. */
  function EncodeCompact(n: nat): (s: seq<Byte>)
    requires n < COMPACT_SPAN
    ensures 1 <= |s| <= 3
  {
    if n < 128 then [n]
    else if n < 16384 then [n % 128 + 128, n / 128]
    else [n % 128 + 128, n / 128 % 128 + 128, n / 16384]
  }

  function CompactValue(low: nat, middle: nat, high: nat): nat { low + 128 * middle + 16384 * high }

  function DecodeCompact(buf: seq<Byte>, p: nat): Parsed<nat> {
    if p >= |buf| then Bad
    else if buf[p] < 128 then Got(buf[p], p + 1)
    else if p + 1 >= |buf| then Bad
    else if buf[p + 1] < 128 then
      if buf[p + 1] == 0 then Bad else Got(CompactValue(buf[p] - 128, buf[p + 1], 0), p + 2)
    else if p + 2 >= |buf| || !(0 < buf[p + 2] < 4) then Bad
    else Got(CompactValue(buf[p] - 128, buf[p + 1] - 128, buf[p + 2]), p + 3)
  }

  lemma CompactEncoded(buf: seq<Byte>, p: nat, n: nat)
    requires n < COMPACT_SPAN && At(buf, p, EncodeCompact(n))
    ensures DecodeCompact(buf, p) == Got(n, p + |EncodeCompact(n)|)
  {
    var s := EncodeCompact(n);
    forall i | 0 <= i < |s| ensures buf[p + i] == s[i] {
      assert buf[p..p + |s|][i] == buf[p + i];
    }
    assert buf[p + 0] == s[0];
    if n >= 128 { assert buf[p + 1] == s[1]; }
    if n >= 16384 { assert buf[p + 2] == s[2]; }
  }

  lemma CompactDecoded(buf: seq<Byte>, p: nat)
    requires DecodeCompact(buf, p).Got?
    ensures var r := DecodeCompact(buf, p);
            r.value < COMPACT_SPAN && r.next == p + |EncodeCompact(r.value)| <= |buf| && At(buf, p, EncodeCompact(r.value))
  {
    var r := DecodeCompact(buf, p);
    var n := r.value;
    if buf[p] >= 128 && buf[p + 1] < 128 {
      assert n % 128 == buf[p] - 128 && n / 128 == buf[p + 1];
    } else if buf[p] >= 128 {
      assert n % 128 == buf[p] - 128 && n / 128 % 128 == buf[p + 1] - 128 && n / 16384 == buf[p + 2];
    }
    hide CompactValue, DecodeCompact;
    assert buf[p..r.next] == EncodeCompact(n);
  }

  /** The formats by example: numbers go low byte first, and a compact length has no spare byte. */
  lemma FormatsByExample()
    ensures EncodeU64(258) == [2, 1, 0, 0, 0, 0, 0, 0]
    ensures EncodeCompact(127) == [0x7F] && EncodeCompact(128) == [0x80, 0x01]
    ensures EncodeCompact(16_384) == [0x80, 0x80, 0x01] && EncodeCompact(65_535) == [0xFF, 0xFF, 0x03]
  {
    assert EncodeLE(0, 6) == [0] + EncodeLE(0, 5) && EncodeLE(0, 5) == [0] + EncodeLE(0, 4) && EncodeLE(0, 4) == [0] + EncodeLE(0, 3);
    assert EncodeLE(0, 3) == [0] + EncodeLE(0, 2) && EncodeLE(0, 2) == [0] + EncodeLE(0, 1) && EncodeLE(0, 1) == [0] + EncodeLE(0, 0);
    assert EncodeLE(0, 6) == [0, 0, 0, 0, 0, 0];
    assert EncodeLE(258, 8) == [2] + ([1] + EncodeLE(0, 6));
  }

  // ---- byte strings and arrays of them -----------------------------------------------------

  function DecodeBlob(buf: seq<Byte>, p: nat, size: nat): Parsed<seq<Byte>> {
    if p + size <= |buf| then Got(buf[p..p + size], p + size) else Bad
  }

  lemma BlobEncoded(buf: seq<Byte>, p: nat, s: seq<Byte>)
    ensures At(buf, p, s) <==> DecodeBlob(buf, p, |s|) == Got(s, p + |s|)
  {
  }

  lemma BlobDecoded(buf: seq<Byte>, p: nat, size: nat)
    ensures var r := DecodeBlob(buf, p, size); r.Got? ==> |r.value| == size && r.next == p + size && At(buf, p, r.value)
  {
  }

  function EncodeShortBytes(s: seq<Byte>): seq<Byte>
    requires ShortBytesOk(s)
  {
    EncodeCompact(|s|) + s
  }

  function DecodeShortBytes(buf: seq<Byte>, p: nat): Parsed<seq<Byte>> {
    match DecodeCompact(buf, p)
    case Bad => Bad
    case Got(n, q) => DecodeBlob(buf, q, n)
  }

  lemma ShortBytesEncoded(buf: seq<Byte>, p: nat, s: seq<Byte>)
    requires ShortBytesOk(s) && At(buf, p, EncodeShortBytes(s))
    ensures DecodeShortBytes(buf, p) == Got(s, p + |EncodeShortBytes(s)|)
  {
    AtConcat(buf, p, EncodeCompact(|s|), s);
    CompactEncoded(buf, p, |s|);
  }

  lemma ShortBytesDecoded(buf: seq<Byte>, p: nat)
    requires DecodeShortBytes(buf, p).Got?
    ensures var r := DecodeShortBytes(buf, p);
            ShortBytesOk(r.value) && r.next == p + |EncodeShortBytes(r.value)| && r.next <= |buf| && At(buf, p, EncodeShortBytes(r.value))
  {
    hide EncodeCompact, DecodeCompact;
    CompactDecoded(buf, p);
    var r := DecodeShortBytes(buf, p);
    AtConcat(buf, p, EncodeCompact(|r.value|), r.value);
  }

  function EncodeBlobs(blobs: seq<seq<Byte>>): seq<Byte> {
    if blobs == [] then [] else blobs[0] + EncodeBlobs(blobs[1..])
  }

  function DecodeBlobs(buf: seq<Byte>, p: nat, size: nat, count: nat): Parsed<seq<seq<Byte>>>
    decreases count
  {
    if count == 0 then Got([], p)
    else match DecodeBlob(buf, p, size)
         case Bad => Bad
         case Got(b, q) =>
           match DecodeBlobs(buf, q, size, count - 1)
           case Bad => Bad
           case Got(bs, r) => Got([b] + bs, r)
  }

  lemma {:induction false} BlobsEncoded(buf: seq<Byte>, p: nat, size: nat, blobs: seq<seq<Byte>>)
    requires BlobsOk(size, blobs) && p <= |buf| && At(buf, p, EncodeBlobs(blobs))
    ensures DecodeBlobs(buf, p, size, |blobs|) == Got(blobs, p + |EncodeBlobs(blobs)|)
    decreases |blobs|
  {
    if blobs != [] {
      AtConcat(buf, p, blobs[0], EncodeBlobs(blobs[1..]));
      BlobsEncoded(buf, p + size, size, blobs[1..]);
      assert blobs == [blobs[0]] + blobs[1..];
    }
  }

  lemma {:induction false} BlobsDecoded(buf: seq<Byte>, p: nat, size: nat, count: nat)
    requires p <= |buf| && DecodeBlobs(buf, p, size, count).Got?
    ensures var r := DecodeBlobs(buf, p, size, count);
            |r.value| == count && BlobsOk(size, r.value) && r.next == p + |EncodeBlobs(r.value)| && At(buf, p, EncodeBlobs(r.value))
    decreases count
  {
    if count > 0 {
      var b := buf[p..p + size];
      BlobsDecoded(buf, p + size, size, count - 1);
      var bs := DecodeBlobs(buf, p + size, size, count - 1).value;
      assert ([b] + bs)[1..] == bs;
      AtConcat(buf, p, b, EncodeBlobs(bs));
    }
  }

  function EncodeShortBlobs(blobs: seq<seq<Byte>>): (s: seq<Byte>)
    requires |blobs| < COMPACT_SPAN
    ensures |s| > 0
  {
    EncodeCompact(|blobs|) + EncodeBlobs(blobs)
  }

  function DecodeShortBlobs(buf: seq<Byte>, p: nat, size: nat): Parsed<seq<seq<Byte>>> {
    match DecodeCompact(buf, p)
    case Bad => Bad
    case Got(n, q) => DecodeBlobs(buf, q, size, n)
  }

  lemma ShortBlobsEncoded(buf: seq<Byte>, p: nat, size: nat, blobs: seq<seq<Byte>>)
    requires |blobs| < COMPACT_SPAN && BlobsOk(size, blobs) && At(buf, p, EncodeShortBlobs(blobs))
    ensures DecodeShortBlobs(buf, p, size) == Got(blobs, p + |EncodeShortBlobs(blobs)|)
  {
    AtConcat(buf, p, EncodeCompact(|blobs|), EncodeBlobs(blobs));
    CompactEncoded(buf, p, |blobs|);
    BlobsEncoded(buf, p + |EncodeCompact(|blobs|)|, size, blobs);
  }

  lemma ShortBlobsDecoded(buf: seq<Byte>, p: nat, size: nat)
    requires DecodeShortBlobs(buf, p, size).Got?
    ensures var r := DecodeShortBlobs(buf, p, size);
            && |r.value| < COMPACT_SPAN && BlobsOk(size, r.value)
            && r.next == p + |EncodeShortBlobs(r.value)| && At(buf, p, EncodeShortBlobs(r.value))
  {
    CompactDecoded(buf, p);
    var n := DecodeCompact(buf, p);
    BlobsDecoded(buf, n.next, size, n.value);
    AtConcat(buf, p, EncodeCompact(n.value), EncodeBlobs(DecodeShortBlobs(buf, p, size).value));
  }

  // ---- instructions and lookups ------------------------------------------------------------

  function EncodeRecord(r: Record): seq<Byte>
    requires ShortBytesOk(r.first) && ShortBytesOk(r.second)
  {
    r.head + (EncodeShortBytes(r.first) + EncodeShortBytes(r.second))
  }

  function DecodeRecord(buf: seq<Byte>, p: nat, headLen: nat): Parsed<Record> {
    match DecodeBlob(buf, p, headLen)
    case Bad => Bad
    case Got(head, q) =>
      match DecodeShortBytes(buf, q)
      case Bad => Bad
      case Got(first, q1) =>
        match DecodeShortBytes(buf, q1)
        case Bad => Bad
        case Got(second, q2) => Got(Record(head, first, second), q2)
  }

  lemma RecordEncoded(buf: seq<Byte>, p: nat, headLen: nat, r: Record)
    requires RecordOk(headLen, r) && At(buf, p, EncodeRecord(r))
    ensures DecodeRecord(buf, p, headLen) == Got(r, p + |EncodeRecord(r)|)
  {
    hide At, EncodeShortBytes, DecodeShortBytes, DecodeBlob;
    BlobEncoded(buf, p, r.head);
    var a, b := EncodeShortBytes(r.first), EncodeShortBytes(r.second);
    AtConcat(buf, p, r.head, a + b);
    AtConcat(buf, p + headLen, a, b);
    ShortBytesEncoded(buf, p + headLen, r.first);
    ShortBytesEncoded(buf, p + headLen + |a|, r.second);
  }

  lemma RecordDecoded(buf: seq<Byte>, p: nat, headLen: nat)
    requires DecodeRecord(buf, p, headLen).Got?
    ensures var r := DecodeRecord(buf, p, headLen);
            && RecordOk(headLen, r.value) && r.next == p + |EncodeRecord(r.value)| && r.next <= |buf|
            && At(buf, p, EncodeRecord(r.value))
  {
    hide At, EncodeShortBytes, DecodeShortBytes, DecodeBlob;
    BlobDecoded(buf, p, headLen);
    var r := DecodeRecord(buf, p, headLen);
    var q := DecodeShortBytes(buf, p + headLen).next;
    ShortBytesDecoded(buf, p + headLen);
    ShortBytesDecoded(buf, q);
    var a, b := EncodeShortBytes(r.value.first), EncodeShortBytes(r.value.second);
    AtConcat(buf, p, r.value.head, a + b);
    AtConcat(buf, p + headLen, a, b);
  }

  function EncodeRecords(rs: seq<Record>): seq<Byte>
    requires forall i :: 0 <= i < |rs| ==> ShortBytesOk(rs[i].first) && ShortBytesOk(rs[i].second)
  {
    if rs == [] then [] else EncodeRecord(rs[0]) + EncodeRecords(rs[1..])
  }

  function DecodeRecords(buf: seq<Byte>, p: nat, headLen: nat, count: nat): Parsed<seq<Record>>
    decreases count
  {
    if count == 0 then Got([], p)
    else match DecodeRecord(buf, p, headLen)
         case Bad => Bad
         case Got(r, q) =>
           match DecodeRecords(buf, q, headLen, count - 1)
           case Bad => Bad
           case Got(rs, q1) => Got([r] + rs, q1)
  }

  lemma {:induction false} RecordsEncoded(buf: seq<Byte>, p: nat, headLen: nat, rs: seq<Record>)
    requires RecordsOk(headLen, rs) && At(buf, p, EncodeRecords(rs))
    ensures DecodeRecords(buf, p, headLen, |rs|) == Got(rs, p + |EncodeRecords(rs)|)
    decreases |rs|
  {
    hide At, EncodeRecord, DecodeRecord;
    if rs != [] {
      AtConcat(buf, p, EncodeRecord(rs[0]), EncodeRecords(rs[1..]));
      RecordEncoded(buf, p, headLen, rs[0]);
      RecordsEncoded(buf, p + |EncodeRecord(rs[0])|, headLen, rs[1..]);
      assert rs == [rs[0]] + rs[1..];
    }
  }

  lemma {:induction false} RecordsDecoded(buf: seq<Byte>, p: nat, headLen: nat, count: nat)
    requires p <= |buf| && DecodeRecords(buf, p, headLen, count).Got?
    ensures var r := DecodeRecords(buf, p, headLen, count);
            |r.value| == count && RecordsOk(headLen, r.value) && r.next == p + |EncodeRecords(r.value)| && At(buf, p, EncodeRecords(r.value))
    decreases count
  {
    hide At, EncodeRecord, DecodeRecord, ShortBytesOk;
    if count > 0 {
      RecordDecoded(buf, p, headLen);
      var r := DecodeRecord(buf, p, headLen);
      RecordsDecoded(buf, r.next, headLen, count - 1);
      var rs := DecodeRecords(buf, r.next, headLen, count - 1).value;
      RecordsCons(headLen, r.value, rs);
      hide EncodeRecords;
      AtConcat(buf, p, EncodeRecord(r.value), EncodeRecords(rs));
    } else {
      NothingAt(buf, p);
    }
  }

  lemma NothingAt(buf: seq<Byte>, p: nat)
    ensures p <= |buf| ==> At(buf, p, [])
  {
  }

  lemma RecordsCons(headLen: nat, r: Record, rs: seq<Record>)
    requires RecordOk(headLen, r) && RecordsOk(headLen, rs)
    ensures RecordsOk(headLen, [r] + rs) && EncodeRecords([r] + rs) == EncodeRecord(r) + EncodeRecords(rs)
  {
    assert ([r] + rs)[1..] == rs;
  }

  function EncodeShortRecords(rs: seq<Record>): seq<Byte>
    requires |rs| < COMPACT_SPAN
    requires forall i :: 0 <= i < |rs| ==> ShortBytesOk(rs[i].first) && ShortBytesOk(rs[i].second)
  {
    EncodeCompact(|rs|) + EncodeRecords(rs)
  }

  function DecodeShortRecords(buf: seq<Byte>, p: nat, headLen: nat): Parsed<seq<Record>> {
    match DecodeCompact(buf, p)
    case Bad => Bad
    case Got(n, q) => DecodeRecords(buf, q, headLen, n)
  }

  lemma ShortRecordsEncoded(buf: seq<Byte>, p: nat, headLen: nat, rs: seq<Record>)
    requires ShortRecordsOk(headLen, rs) && At(buf, p, EncodeShortRecords(rs))
    ensures DecodeShortRecords(buf, p, headLen) == Got(rs, p + |EncodeShortRecords(rs)|)
  {
    hide At, EncodeCompact, EncodeRecords, DecodeCompact, DecodeRecords;
    AtConcat(buf, p, EncodeCompact(|rs|), EncodeRecords(rs));
    CompactEncoded(buf, p, |rs|);
    RecordsEncoded(buf, p + |EncodeCompact(|rs|)|, headLen, rs);
  }

  lemma ShortRecordsDecoded(buf: seq<Byte>, p: nat, headLen: nat)
    requires DecodeShortRecords(buf, p, headLen).Got?
    ensures var r := DecodeShortRecords(buf, p, headLen);
            ShortRecordsOk(headLen, r.value) && r.next == p + |EncodeShortRecords(r.value)| && At(buf, p, EncodeShortRecords(r.value))
  {
    hide At, EncodeCompact, EncodeRecords, DecodeCompact, DecodeRecords;
    CompactDecoded(buf, p);
    var n := DecodeCompact(buf, p);
    RecordsDecoded(buf, n.next, headLen, n.value);
    AtConcat(buf, p, EncodeCompact(n.value), EncodeRecords(DecodeShortRecords(buf, p, headLen).value));
  }

  // ---- messages ----------------------------------------------------------------------------

  function EncodeBody(b: Body): seq<Byte>
    requires BodyOk(b)
  {
    b.header + (EncodeShortBlobs(b.keys) + (b.blockhash + EncodeShortRecords(b.instructions)))
  }

  function DecodeBody(buf: seq<Byte>, p: nat): Parsed<Body> {
    match DecodeBlob(buf, p, HEADER_LEN)
    case Bad => Bad
    case Got(header, q) =>
      match DecodeShortBlobs(buf, q, KEY_LEN)
      case Bad => Bad
      case Got(keys, q1) =>
        match DecodeBlob(buf, q1, KEY_LEN)
        case Bad => Bad
        case Got(blockhash, q2) =>
          match DecodeShortRecords(buf, q2, 1)
          case Bad => Bad
          case Got(instructions, q3) => Got(Body(header, keys, blockhash, instructions), q3)
  }

  lemma BodySplits(buf: seq<Byte>, p: nat, b: Body)
    requires BodyOk(b)
    ensures var k := p + HEADER_LEN + |EncodeShortBlobs(b.keys)|;
            At(buf, p, EncodeBody(b)) <==>
            && At(buf, p, b.header) && At(buf, p + HEADER_LEN, EncodeShortBlobs(b.keys))
            && At(buf, k, b.blockhash) && At(buf, k + KEY_LEN, EncodeShortRecords(b.instructions))
  {
    var keys, ixs := EncodeShortBlobs(b.keys), EncodeShortRecords(b.instructions);
    AtConcat(buf, p, b.header, keys + (b.blockhash + ixs));
    AtConcat(buf, p + HEADER_LEN, keys, b.blockhash + ixs);
    AtConcat(buf, p + HEADER_LEN + |keys|, b.blockhash, ixs);
  }

  lemma BodyEncoded(buf: seq<Byte>, p: nat, b: Body)
    requires BodyOk(b) && At(buf, p, EncodeBody(b))
    ensures DecodeBody(buf, p) == Got(b, p + |EncodeBody(b)|)
  {
    hide EncodeShortBlobs, EncodeShortRecords, DecodeShortBlobs, DecodeShortRecords;
    BodySplits(buf, p, b);
    ShortBlobsEncoded(buf, p + HEADER_LEN, KEY_LEN, b.keys);
    ShortRecordsEncoded(buf, p + HEADER_LEN + |EncodeShortBlobs(b.keys)| + KEY_LEN, 1, b.instructions);
  }

  lemma BodyDecoded(buf: seq<Byte>, p: nat)
    requires DecodeBody(buf, p).Got?
    ensures var r := DecodeBody(buf, p); BodyOk(r.value) && r.next == p + |EncodeBody(r.value)| && At(buf, p, EncodeBody(r.value))
  {
    hide EncodeShortBlobs, EncodeShortRecords, DecodeShortBlobs, DecodeShortRecords, RecordsOk, BlobsOk;
    ShortBlobsDecoded(buf, p + HEADER_LEN, KEY_LEN);
    var k := DecodeShortBlobs(buf, p + HEADER_LEN, KEY_LEN).next;
    ShortRecordsDecoded(buf, k + KEY_LEN, 1);
    BodySplits(buf, p, DecodeBody(buf, p).value);
  }

  function EncodeMessage(m: Message): seq<Byte>
    requires MessageOk(m)
  {
    match m
    case Legacy(body) => EncodeBody(body)
    case V0(body, lookups) => [V0_PREFIX] + (EncodeBody(body) + EncodeShortRecords(lookups))
  }

  function DecodeMessage(buf: seq<Byte>, p: nat): Parsed<Message> {
    if p >= |buf| then Bad
    else if buf[p] < V0_PREFIX then
      match DecodeBody(buf, p)
      case Bad => Bad
      case Got(body, q) => Got(Legacy(body), q)
    else if buf[p] != V0_PREFIX then Bad
    else match DecodeBody(buf, p + 1)
         case Bad => Bad
         case Got(body, q) =>
           match DecodeShortRecords(buf, q, KEY_LEN)
           case Bad => Bad
           case Got(lookups, q1) => Got(V0(body, lookups), q1)
  }

  lemma LegacyEncoded(buf: seq<Byte>, p: nat, body: Body)
    requires MessageOk(Legacy(body)) && At(buf, p, EncodeBody(body))
    ensures DecodeMessage(buf, p) == Got(Legacy(body), p + |EncodeBody(body)|)
  {
    hide At, EncodeBody, DecodeBody, EncodeShortRecords, DecodeShortRecords, BlobsOk, RecordsOk, ShortRecordsOk;
    BodySplits(buf, p, body);
    BodyEncoded(buf, p, body);
    ByteAt(buf, p, body.header, 0);
  }

  lemma V0Encoded(buf: seq<Byte>, p: nat, body: Body, lookups: seq<Record>)
    requires MessageOk(V0(body, lookups)) && At(buf, p, EncodeMessage(V0(body, lookups)))
    ensures DecodeMessage(buf, p) == Got(V0(body, lookups), p + |EncodeMessage(V0(body, lookups))|)
  {
    hide At, EncodeBody, DecodeBody, EncodeShortRecords, DecodeShortRecords, BodyOk;
    AtConcat(buf, p, [V0_PREFIX], EncodeBody(body) + EncodeShortRecords(lookups));
    AtConcat(buf, p + 1, EncodeBody(body), EncodeShortRecords(lookups));
    ByteAt(buf, p, [V0_PREFIX], 0);
    BodyEncoded(buf, p + 1, body);
    ShortRecordsEncoded(buf, p + 1 + |EncodeBody(body)|, KEY_LEN, lookups);
  }

  lemma MessageEncoded(buf: seq<Byte>, p: nat, m: Message)
    requires MessageOk(m) && At(buf, p, EncodeMessage(m))
    ensures DecodeMessage(buf, p) == Got(m, p + |EncodeMessage(m)|)
  {
    hide At, EncodeBody, DecodeMessage, EncodeShortRecords, MessageOk;
    match m {
      case Legacy(body) => LegacyEncoded(buf, p, body);
      case V0(body, lookups) => V0Encoded(buf, p, body, lookups);
    }
  }

  lemma MessageDecoded(buf: seq<Byte>, p: nat)
    requires DecodeMessage(buf, p).Got?
    ensures var r := DecodeMessage(buf, p); MessageOk(r.value) && r.next == p + |EncodeMessage(r.value)| && At(buf, p, EncodeMessage(r.value))
  {
    hide EncodeBody, DecodeShortRecords, EncodeShortRecords, BlobsOk;
    match DecodeMessage(buf, p).value {
      case Legacy(body) =>
        BodyDecoded(buf, p);
        assert body.header == buf[p..p + HEADER_LEN];
      case V0(body, lookups) =>
        BodyDecoded(buf, p + 1);
        ShortRecordsDecoded(buf, DecodeBody(buf, p + 1).next, KEY_LEN);
        AtConcat(buf, p + 1, EncodeBody(body), EncodeShortRecords(lookups));
        AtConcat(buf, p, [V0_PREFIX], EncodeBody(body) + EncodeShortRecords(lookups));
    }
  }

  // ---- transactions ------------------------------------------------------------------------

  function EncodeTransaction(t: Transaction): seq<Byte>
    requires TransactionOk(t)
  {
    EncodeShortBlobs(t.signatures) + EncodeMessage(t.message)
  }

  function DecodeTransaction(buf: seq<Byte>, p: nat): Parsed<Transaction> {
    match DecodeShortBlobs(buf, p, SIGNATURE_LEN)
    case Bad => Bad
    case Got(signatures, q) =>
      match DecodeMessage(buf, q)
      case Bad => Bad
      case Got(message, q1) => Got(Transaction(signatures, message), q1)
  }

  lemma TransactionEncoded(buf: seq<Byte>, p: nat, t: Transaction)
    requires TransactionOk(t) && At(buf, p, EncodeTransaction(t))
    ensures DecodeTransaction(buf, p) == Got(t, p + |EncodeTransaction(t)|)
  {
    hide At, EncodeShortBlobs, EncodeMessage, DecodeShortBlobs, DecodeMessage, MessageOk;
    var sigs := EncodeShortBlobs(t.signatures);
    AtConcat(buf, p, sigs, EncodeMessage(t.message));
    ShortBlobsEncoded(buf, p, SIGNATURE_LEN, t.signatures);
    MessageEncoded(buf, p + |sigs|, t.message);
  }

  /** Whatever bytes decode to a transaction are exactly that transaction's encoding. */
  lemma TransactionDecoded(buf: seq<Byte>, p: nat)
    requires DecodeTransaction(buf, p).Got?
    ensures var r := DecodeTransaction(buf, p);
            TransactionOk(r.value) && p < r.next == p + |EncodeTransaction(r.value)| && At(buf, p, EncodeTransaction(r.value))
  {
    hide At, EncodeShortBlobs, EncodeMessage, DecodeShortBlobs, DecodeMessage, MessageOk;
    ShortBlobsDecoded(buf, p, SIGNATURE_LEN);
    var sigs := DecodeShortBlobs(buf, p, SIGNATURE_LEN);
    MessageDecoded(buf, sigs.next);
    AtConcat(buf, p, EncodeShortBlobs(sigs.value), EncodeMessage(DecodeMessage(buf, sigs.next).value));
  }

  /** Truncating a buffer hides the transactions that no longer fit, and changes no other. */
  lemma TransactionLocal(buf: seq<Byte>, n: nat, p: nat)
    requires n <= |buf|
    ensures DecodeTransaction(buf[..n], p).Got? ==> DecodeTransaction(buf[..n], p) == DecodeTransaction(buf, p)
    ensures DecodeTransaction(buf[..n], p).Got? <==> DecodeTransaction(buf, p).Got? && DecodeTransaction(buf, p).next <= n
  {
    if DecodeTransaction(buf[..n], p).Got? {
      TransactionDecoded(buf[..n], p);
      var t := DecodeTransaction(buf[..n], p).value;
      AtPrefix(buf, n, p, EncodeTransaction(t));
      TransactionEncoded(buf, p, t);
    } else if DecodeTransaction(buf, p).Got? && DecodeTransaction(buf, p).next <= n {
      TransactionDecoded(buf, p);
      var t := DecodeTransaction(buf, p).value;
      AtPrefix(buf, n, p, EncodeTransaction(t));
      TransactionEncoded(buf[..n], p, t);
      assert false;
    }
  }

  function EncodeTransactions(ts: seq<Transaction>): seq<Byte>
    requires TransactionsOk(ts)
  {
    if ts == [] then [] else EncodeTransaction(ts[0]) + EncodeTransactions(ts[1..])
  }

  function DecodeTransactions(buf: seq<Byte>, p: nat, count: nat): Parsed<seq<Transaction>>
    decreases count
  {
    if count == 0 then Got([], p)
    else match DecodeTransaction(buf, p)
         case Bad => Bad
         case Got(t, q) =>
           match DecodeTransactions(buf, q, count - 1)
           case Bad => Bad
           case Got(ts, q1) => Got([t] + ts, q1)
  }

  lemma {:induction false} TransactionsEncoded(buf: seq<Byte>, p: nat, ts: seq<Transaction>)
    requires TransactionsOk(ts) && At(buf, p, EncodeTransactions(ts))
    ensures DecodeTransactions(buf, p, |ts|) == Got(ts, p + |EncodeTransactions(ts)|)
    decreases |ts|
  {
    hide At, EncodeTransaction, DecodeTransaction, TransactionOk;
    if ts != [] {
      AtConcat(buf, p, EncodeTransaction(ts[0]), EncodeTransactions(ts[1..]));
      TransactionEncoded(buf, p, ts[0]);
      TransactionsEncoded(buf, p + |EncodeTransaction(ts[0])|, ts[1..]);
      assert ts == [ts[0]] + ts[1..];
    }
  }

  // ---- entries -----------------------------------------------------------------------------

  function EncodeEntry(e: Entry): seq<Byte>
    requires EntryOk(e)
  {
    EncodeU64(e.numHashes) + (e.hash + (EncodeU64(|e.transactions|) + EncodeTransactions(e.transactions)))
  }

  /** The three fields ahead of an entry's transactions; the last is their count. */
  function DecodeEntryHeader(buf: seq<Byte>, p: nat): Parsed<(nat, seq<Byte>, nat)> {
    match DecodeU64(buf, p)
    case Bad => Bad
    case Got(numHashes, q) =>
      match DecodeBlob(buf, q, KEY_LEN)
      case Bad => Bad
      case Got(hash, q1) =>
        match DecodeU64(buf, q1)
        case Bad => Bad
        case Got(count, q2) => Got((numHashes, hash, count), q2)
  }

  lemma EntryHeaderLocal(buf: seq<Byte>, n: nat, p: nat)
    requires n <= |buf|
    ensures DecodeEntryHeader(buf[..n], p).Got? ==> DecodeEntryHeader(buf[..n], p) == DecodeEntryHeader(buf, p)
    ensures DecodeEntryHeader(buf, p).Got? && DecodeEntryHeader(buf, p).next <= n ==> DecodeEntryHeader(buf[..n], p).Got?
  {
    if p + 48 <= n {
      assert buf[..n][p..p + 8] == buf[p..p + 8];
      assert buf[..n][p + 8..p + 40] == buf[p + 8..p + 40];
      assert buf[..n][p + 40..p + 48] == buf[p + 40..p + 48];
    }
  }

  function DecodeEntry(buf: seq<Byte>, p: nat): Parsed<Entry> {
    match DecodeEntryHeader(buf, p)
    case Bad => Bad
    case Got((numHashes, hash, count), q) =>
      match DecodeTransactions(buf, q, count)
      case Bad => Bad
      case Got(ts, q1) => Got(Entry(numHashes, hash, ts), q1)
  }

  lemma EntryEncoded(buf: seq<Byte>, p: nat, e: Entry)
    requires EntryOk(e) && At(buf, p, EncodeEntry(e))
    ensures DecodeEntry(buf, p) == Got(e, p + |EncodeEntry(e)|)
  {
    hide At, DecodeBlob, DecodeU64, EncodeU64, EncodeTransactions, DecodeTransactions;
    BlobEncoded(buf, p + 8, e.hash);
    var n, ts := EncodeU64(|e.transactions|), EncodeTransactions(e.transactions);
    AtConcat(buf, p, EncodeU64(e.numHashes), e.hash + (n + ts));
    AtConcat(buf, p + 8, e.hash, n + ts);
    AtConcat(buf, p + 40, n, ts);
    U64Encoded(buf, p, e.numHashes);
    U64Encoded(buf, p + 40, |e.transactions|);
    TransactionsEncoded(buf, p + 48, e.transactions);
  }

  function EncodeEntries(es: seq<Entry>): seq<Byte>
    requires EntriesOk(es)
  {
    if es == [] then [] else EncodeEntry(es[0]) + EncodeEntries(es[1..])
  }

  function DecodeEntries(buf: seq<Byte>, p: nat, count: nat): Parsed<seq<Entry>>
    decreases count
  {
    if count == 0 then Got([], p)
    else match DecodeEntry(buf, p)
         case Bad => Bad
         case Got(e, q) =>
           match DecodeEntries(buf, q, count - 1)
           case Bad => Bad
           case Got(es, q1) => Got([e] + es, q1)
  }

  lemma {:induction false} EntriesEncoded(buf: seq<Byte>, p: nat, es: seq<Entry>)
    requires EntriesOk(es) && At(buf, p, EncodeEntries(es))
    ensures DecodeEntries(buf, p, |es|) == Got(es, p + |EncodeEntries(es)|)
    decreases |es|
  {
    hide At, EncodeEntry, DecodeEntry;
    if es != [] {
      AtConcat(buf, p, EncodeEntry(es[0]), EncodeEntries(es[1..]));
      EntryEncoded(buf, p, es[0]);
      EntriesEncoded(buf, p + |EncodeEntry(es[0])|, es[1..]);
      assert es == [es[0]] + es[1..];
    }
  }

  // ---- segments ----------------------------------------------------------------------------

  predicate SegmentOk(es: seq<Entry>) { |es| < U64_SPAN && EntriesOk(es) }

  function EncodeSegment(es: seq<Entry>): seq<Byte>
    requires SegmentOk(es)
  {
    EncodeU64(|es|) + EncodeEntries(es)
  }

  /** The ordinary full deserialize.  Like bincode's default, it ignores bytes after the vector. */
  function DecodeSegment(payload: seq<Byte>): Option<seq<Entry>> {
    match DecodeU64(payload, 0)
    case Bad => None
    case Got(n, q) =>
      match DecodeEntries(payload, q, n)
      case Bad => None
      case Got(es, _) => Some(es)
  }

  /** Round trip: a serialized entry vector decodes to itself, whatever bytes follow it. */
  lemma SegmentRoundTrip(es: seq<Entry>, rest: seq<Byte>)
    requires SegmentOk(es)
    ensures DecodeSegment(EncodeSegment(es) + rest) == Some(es)
  {
    var buf := EncodeSegment(es) + rest;
    assert buf[0..|EncodeSegment(es)|] == EncodeSegment(es);
    AtConcat(buf, 0, EncodeU64(|es|), EncodeEntries(es));
    U64Encoded(buf, 0, |es|);
    EntriesEncoded(buf, 8, es);
  }

  /** Every transaction of a segment, in the order it was written. */
  function AllTransactions(es: seq<Entry>): seq<Transaction> {
    if es == [] then [] else es[0].transactions + AllTransactions(es[1..])
  }

  /** The transactions of an entry vector are those of its entries, one entry after the other. */
  lemma {:induction false} AllTransactionsConcat(a: seq<Entry>, b: seq<Entry>)
    ensures AllTransactions(a + b) == AllTransactions(a) + AllTransactions(b)
    ensures |a| == 1 ==> AllTransactions(a) == a[0].transactions
  {
    if a == [] {
      assert a + b == b;
    } else {
      AllTransactionsConcat(a[1..], b);
      assert (a + b)[1..] == a[1..] + b;
    }
  }
}
