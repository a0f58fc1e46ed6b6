/**
 Walking a serialized segment by its lengths (`wire.rs`).  The walk never materialises a
 transaction it does not want; everything here is proved against the full decoder of `WireFormat`.
 */
module Wire {
  import opened Prelude
  import opened WireFormat

  // ---- cursor reads ------------------------------------------------------------------------

  /** All but the bit that announces another byte. */
  function LowBits(b: Byte): (low: nat)
    ensures low == if b < 128 then b else b - 128
  {
    b % 128
  }

  /** Seven bits shifted to the place of round `i`. */
  function Shifted(bits: nat, i: nat): nat { if i == 0 then bits else if i == 1 then 128 * bits else 16384 * bits }

  /** The first `i` bytes from `p` on all announce another one. */
  predicate Continues(buf: seq<Byte>, p: nat, i: nat) {
    (i > 0 ==> p + i <= |buf|) && forall k :: p <= k < p + i ==> buf[k] >= 128
  }

  /** What the first `i` rounds have read. */
  function Rounds(buf: seq<Byte>, p: nat, i: nat): nat
    requires i > 0 ==> p + i <= |buf|
  {
    if i == 0 then 0 else Rounds(buf, p, i - 1) + Shifted(LowBits(buf[p + i - 1]), i - 1)
  }

  lemma RoundsAre(buf: seq<Byte>, p: nat)
    ensures p + 1 <= |buf| ==> Rounds(buf, p, 1) == LowBits(buf[p])
    ensures p + 2 <= |buf| ==> Rounds(buf, p, 2) == CompactValue(LowBits(buf[p]), LowBits(buf[p + 1]), 0)
    ensures p + 3 <= |buf| ==> Rounds(buf, p, 3) == CompactValue(LowBits(buf[p]), LowBits(buf[p + 1]), LowBits(buf[p + 2]))
  {
    if p + 1 <= |buf| {
      assert Rounds(buf, p, 0) == 0;
    }
  }

  /** Round `i` decides as the decoder does, or reads on. */
  lemma RoundDecides(buf: seq<Byte>, p: nat, i: nat)
    requires i < 3 && Continues(buf, p, i)
    ensures if p + i >= |buf| then DecodeCompact(buf, p) == Bad
            else if buf[p + i] >= 128 then i == 2 ==> DecodeCompact(buf, p) == Bad
            else DecodeCompact(buf, p) == if (i > 0 && buf[p + i] == 0) || Rounds(buf, p, i + 1) >= COMPACT_SPAN then Bad
                                          else Got(Rounds(buf, p, i + 1), p + i + 1)
  {
    hide Rounds, LowBits;
    RoundsAre(buf, p);
    if i == 1 {
      assert buf[p] >= 128;
    } else if i == 2 {
      assert buf[p] >= 128 && buf[p + 1] >= 128;
    }
  }

  method ReadCompactU16(buf: seq<Byte>, p: nat) returns (r: Parsed<nat>)
    ensures r == DecodeCompact(buf, p)
  {
    hide DecodeCompact, Shifted, LowBits;
    var value, pos := 0, p;
    for i := 0 to 3
      invariant pos == p + i && Continues(buf, p, i) && value == Rounds(buf, p, i)
      invariant i == 3 ==> DecodeCompact(buf, p) == Bad
    {
      RoundDecides(buf, p, i);
      if pos >= |buf| {
        return Bad;
      }
      var byte := buf[pos];
      pos := pos + 1;
      value := value + Shifted(LowBits(byte), i);
      if byte < 128 {
        if i > 0 && byte == 0 {
          return Bad;
        }
        if value >= COMPACT_SPAN {
          return Bad;
        }
        return Got(value, pos);
      }
    }
    return Bad;
  }

  /** `read_compact_u16` accepts exactly the canonical encodings. */
  lemma CompactIsCanonical(buf: seq<Byte>, p: nat, n: nat)
    requires n < COMPACT_SPAN
    ensures DecodeCompact(buf, p) == Got(n, p + |EncodeCompact(n)|) <==> At(buf, p, EncodeCompact(n))
    ensures DecodeCompact(buf, p).Got? ==> DecodeCompact(buf, p).value < COMPACT_SPAN
  {
    if DecodeCompact(buf, p).Got? {
      CompactDecoded(buf, p);
    }
    if At(buf, p, EncodeCompact(n)) {
      CompactEncoded(buf, p, n);
    }
  }

  function Skip(buf: seq<Byte>, p: nat, n: nat): Option<nat> {
    if p + n <= |buf| then Some(p + n) else None
  }

  lemma {:induction false} BlobsAreSkipped(buf: seq<Byte>, p: nat, size: nat, count: nat)
    requires p <= |buf|
    ensures NextOf(DecodeBlobs(buf, p, size, count)) == Skip(buf, p, size * count)
    decreases count
  {
    if count > 0 {
      assert size * count == size + size * (count - 1) && size * (count - 1) >= 0;
      if p + size <= |buf| {
        BlobsAreSkipped(buf, p + size, size, count - 1);
      }
    }
  }

  lemma ShortBytesAreSkipped(buf: seq<Byte>, p: nat)
    ensures NextOf(DecodeShortBytes(buf, p)) == match DecodeCompact(buf, p) case Bad => None case Got(n, q) => Skip(buf, q, n)
  {
    hide DecodeCompact;
  }

  lemma RecordIsSkipped(buf: seq<Byte>, p: nat, headLen: nat)
    ensures NextOf(DecodeRecord(buf, p, headLen)) ==
            match Skip(buf, p, headLen)
            case None => None
            case Some(q) =>
              match NextOf(DecodeShortBytes(buf, q))
              case None => None
              case Some(q1) => NextOf(DecodeShortBytes(buf, q1))
  {
    hide DecodeShortBytes;
  }

  lemma RecordsAreSkipped(buf: seq<Byte>, p: nat, headLen: nat, count: nat)
    ensures NextOf(DecodeRecords(buf, p, headLen, count)) ==
            if count == 0 then Some(p)
            else match NextOf(DecodeRecord(buf, p, headLen))
                 case None => None
                 case Some(q) => NextOf(DecodeRecords(buf, q, headLen, count - 1))
  {
    hide DecodeRecord;
  }

  /** The loops over instructions and over address table lookups, which differ only in `headLen`. */
  method SkipRecords(buf: seq<Byte>, p: nat, headLen: nat, count: nat) returns (r: Option<nat>)
    requires p <= |buf|
    ensures r == NextOf(DecodeRecords(buf, p, headLen, count))
  {
    hide DecodeCompact, DecodeShortBytes, DecodeRecord, DecodeRecords;
    var pos: nat := p;
    for i := 0 to count
      invariant pos <= |buf|
      invariant NextOf(DecodeRecords(buf, p, headLen, count)) == NextOf(DecodeRecords(buf, pos, headLen, count - i))
    {
      RecordsAreSkipped(buf, pos, headLen, count - i);
      RecordIsSkipped(buf, pos, headLen);
      var head := Skip(buf, pos, headLen);
      if head.None? {
        return None;
      }
      ShortBytesAreSkipped(buf, head.value);
      var first := ReadCompactU16(buf, head.value);
      if first.Bad? {
        return None;
      }
      var afterFirst := Skip(buf, first.next, first.value);
      if afterFirst.None? {
        return None;
      }
      ShortBytesAreSkipped(buf, afterFirst.value);
      var second := ReadCompactU16(buf, afterFirst.value);
      if second.Bad? {
        return None;
      }
      var afterSecond := Skip(buf, second.next, second.value);
      if afterSecond.None? {
        return None;
      }
      pos := afterSecond.value;
    }
    RecordsAreSkipped(buf, pos, headLen, 0);
    return Some(pos);
  }

  /** The walked end of a transaction is the end the full decoder finds, on every buffer. */
  method TransactionEnd(buf: seq<Byte>, start: nat) returns (r: Option<nat>)
    ensures r == NextOf(DecodeTransaction(buf, start))
  {
    hide DecodeCompact, DecodeBlobs, DecodeRecords;
    var signatures := ReadCompactU16(buf, start);
    if signatures.Bad? {
      return None;
    }
    CompactDecoded(buf, start);
    var p := Skip(buf, signatures.next, SIGNATURE_LEN * signatures.value);
    BlobsAreSkipped(buf, signatures.next, SIGNATURE_LEN, signatures.value);
    if p.None? || p.value >= |buf| {
      return None;
    }
    var first := buf[p.value];
    var versioned := first >= V0_PREFIX;
    if versioned && first != V0_PREFIX {
      return None;
    }
    var body := SkipBody(buf, if versioned then p.value + 1 else p.value);
    if body.None? || !versioned {
      return body;
    }
    var lookups := ReadCompactU16(buf, body.value);
    if lookups.Bad? {
      return None;
    }
    CompactDecoded(buf, body.value);
    r := SkipRecords(buf, lookups.next, KEY_LEN, lookups.value);
  }

  /** Header, account keys, blockhash and instructions: the part both message versions share. */
  method SkipBody(buf: seq<Byte>, start: nat) returns (r: Option<nat>)
    ensures r == NextOf(DecodeBody(buf, start))
  {
    hide DecodeCompact, DecodeBlobs, DecodeRecords;
    var header := Skip(buf, start, HEADER_LEN);
    if header.None? {
      return None;
    }
    var keys := ReadCompactU16(buf, header.value);
    if keys.Bad? {
      return None;
    }
    CompactDecoded(buf, header.value);
    var afterKeys := Skip(buf, keys.next, KEY_LEN * keys.value);
    BlobsAreSkipped(buf, keys.next, KEY_LEN, keys.value);
    if afterKeys.None? {
      return None;
    }
    var blockhash := Skip(buf, afterKeys.value, KEY_LEN);
    if blockhash.None? {
      return None;
    }
    var instructions := ReadCompactU16(buf, blockhash.value);
    if instructions.Bad? {
      return None;
    }
    CompactDecoded(buf, blockhash.value);
    r := SkipRecords(buf, instructions.next, 1, instructions.value);
  }

  // ---- the spans a walk visits -------------------------------------------------------------

  /** A transaction and the byte range it was read from. */
  datatype Span = Span(tx: Transaction, start: nat, end: nat)

  /** Everything a walk can reach; `complete` when it got through the last entry. */
  datatype Walk = Walk(spans: seq<Span>, complete: bool)

  /** The walk from offset `p`, with `txs` transactions left in this entry and `entries` entries after it. */
  function WalkFrom(buf: seq<Byte>, p: nat, txs: nat, entries: nat): Walk
    decreases entries, txs
  {
    if txs > 0 then
      match DecodeTransaction(buf, p)
      case Bad => Walk([], false)
      case Got(tx, q) =>
        var rest := WalkFrom(buf, q, txs - 1, entries);
        Walk([Span(tx, p, q)] + rest.spans, rest.complete)
    else if entries > 0 then
      match DecodeEntryHeader(buf, p)
      case Bad => Walk([], false)
      case Got(header, q) => WalkFrom(buf, q, header.2, entries - 1)
    else Walk([], true)
  }

  function WalkSegment(payload: seq<Byte>): Walk {
    match DecodeU64(payload, 0)
    case Bad => Walk([], false)
    case Got(entries, q) => WalkFrom(payload, q, 0, entries)
  }

  predicate Hit(span: Span, hits: seq<nat>) {
    exists i :: 0 <= i < |hits| && span.start <= hits[i] < span.end
  }

  /** The transactions whose span contains a hit, in order. */
  function Select(spans: seq<Span>, hits: seq<nat>): seq<Transaction> {
    if spans == [] then []
    else (if Hit(spans[0], hits) then [spans[0].tx] else []) + Select(spans[1..], hits)
  }

  /** The walk gets past offset `last`, or through the last entry, without running off the buffer. */
  predicate Reaches(buf: seq<Byte>, p: nat, txs: nat, entries: nat, last: nat)
    decreases entries, txs
  {
    if txs > 0 then
      match DecodeTransaction(buf, p)
      case Bad => false
      case Got(_, q) => q > last || Reaches(buf, q, txs - 1, entries, last)
    else if entries > 0 && p <= last then
      match DecodeEntryHeader(buf, p)
      case Bad => false
      case Got(header, q) => Reaches(buf, q, header.2, entries - 1, last)
    else true
  }

  /** What `transactions_at` answers: nothing without a hit or when the walk runs off the end. */
  function TransactionsHit(payload: seq<Byte>, hits: seq<nat>): Option<seq<Transaction>> {
    if hits == [] then None
    else match DecodeU64(payload, 0)
         case Bad => None
         case Got(entries, q) =>
           if Reaches(payload, q, 0, entries, hits[|hits| - 1])
           then Some(Select(WalkSegment(payload).spans, hits))
           else None
  }

  lemma {:induction false} SpansStartAfter(buf: seq<Byte>, p: nat, txs: nat, entries: nat)
    ensures forall i :: 0 <= i < |WalkFrom(buf, p, txs, entries).spans| ==> WalkFrom(buf, p, txs, entries).spans[i].start >= p
    decreases entries, txs
  {
    if txs > 0 {
      if DecodeTransaction(buf, p).Got? {
        TransactionDecoded(buf, p);
        SpansStartAfter(buf, DecodeTransaction(buf, p).next, txs - 1, entries);
      }
    } else if entries > 0 && DecodeEntryHeader(buf, p).Got? {
      SpansStartAfter(buf, DecodeEntryHeader(buf, p).next, DecodeEntryHeader(buf, p).value.2, entries - 1);
    }
  }

  lemma {:induction false} NothingSelected(spans: seq<Span>, hits: seq<nat>, p: nat)
    requires forall i :: 0 <= i < |spans| ==> spans[i].start >= p
    requires forall i :: 0 <= i < |hits| ==> hits[i] < p
    ensures Select(spans, hits) == []
  {
    if spans != [] {
      NothingSelected(spans[1..], hits, p);
    }
  }

  lemma {:induction false} SelectConcat(a: seq<Span>, b: seq<Span>, hits: seq<nat>)
    ensures Select(a + b, hits) == Select(a, hits) + Select(b, hits)
  {
    hide Hit;
    if a == [] {
      assert a + b == b;
      assert Select([], hits) + Select(b, hits) == Select(b, hits);
    } else {
      SelectConcat(a[1..], b, hits);
      assert (a + b)[1..] == a[1..] + b;
      var first := if Hit(a[0], hits) then [a[0].tx] else [];
      assert Select(a + b, hits) == first + Select(a[1..] + b, hits);
      assert first + (Select(a[1..], hits) + Select(b, hits)) == (first + Select(a[1..], hits)) + Select(b, hits);
    }
  }

  /** A transaction's own bytes decode to it: what the walk hands to the deserializer. */
  lemma SliceDecodes(buf: seq<Byte>, p: nat)
    requires DecodeTransaction(buf, p).Got?
    ensures var r := DecodeTransaction(buf, p); p < r.next <= |buf| && DecodeTransaction(buf[p..r.next], 0) == Got(r.value, r.next - p)
  {
    hide DecodeTransaction, EncodeTransaction, TransactionOk;
    TransactionDecoded(buf, p);
    var r := DecodeTransaction(buf, p);
    var slice := buf[p..r.next];
    assert slice[0..|slice|] == slice;
    TransactionEncoded(slice, 0, r.value);
  }

  /** After visiting `visited` the walk stands at `p` with `txs` and `entries` to go. */
  ghost predicate Walked(payload: seq<Byte>, last: nat, visited: seq<Span>, p: nat, txs: nat, entries: nat) {
    && DecodeU64(payload, 0).Got?
    && WalkSegment(payload).spans == visited + WalkFrom(payload, p, txs, entries).spans
    && Reaches(payload, 8, 0, DecodeU64(payload, 0).value, last) == Reaches(payload, p, txs, entries, last)
  }

  lemma WalkedTransaction(payload: seq<Byte>, last: nat, visited: seq<Span>, p: nat, txs: nat, entries: nat)
    requires Walked(payload, last, visited, p, txs, entries) && txs > 0
    ensures match DecodeTransaction(payload, p)
            case Bad => !Reaches(payload, 8, 0, DecodeU64(payload, 0).value, last)
            case Got(tx, q) =>
              if q > last then Reaches(payload, 8, 0, DecodeU64(payload, 0).value, last)
                               && WalkSegment(payload).spans == visited + [Span(tx, p, q)] + WalkFrom(payload, q, txs - 1, entries).spans
              else Walked(payload, last, visited + [Span(tx, p, q)], q, txs - 1, entries)
  {
    hide DecodeTransaction;
    match DecodeTransaction(payload, p) {
      case Bad =>
      case Got(tx, q) =>
        var rest := WalkFrom(payload, q, txs - 1, entries).spans;
        assert visited + ([Span(tx, p, q)] + rest) == visited + [Span(tx, p, q)] + rest;
    }
  }

  lemma WalkedHeader(payload: seq<Byte>, last: nat, visited: seq<Span>, p: nat, entries: nat)
    requires Walked(payload, last, visited, p, 0, entries) && entries > 0 && p <= last
    ensures match DecodeEntryHeader(payload, p)
            case Bad => !Reaches(payload, 8, 0, DecodeU64(payload, 0).value, last)
            case Got(header, q) => Walked(payload, last, visited, q, header.2, entries - 1)
  {
    hide DecodeEntryHeader;
  }

  lemma WalkedOut(payload: seq<Byte>, hits: seq<nat>, visited: seq<Span>, p: nat, entries: nat)
    requires Ascends(hits) && hits != []
    requires Walked(payload, hits[|hits| - 1], visited, p, 0, entries) && (entries == 0 || p > hits[|hits| - 1])
    ensures Reaches(payload, 8, 0, DecodeU64(payload, 0).value, hits[|hits| - 1])
    ensures Select(WalkSegment(payload).spans, hits) == Select(visited, hits)
  {
    if entries == 0 {
      assert visited + [] == visited;
    } else {
      StopsPastLastHit(payload, p, 0, entries, visited, hits);
    }
  }

  method TransactionsAt(payload: seq<Byte>, hits: seq<nat>) returns (r: Option<seq<Transaction>>)
    requires Ascends(hits)
    ensures r == TransactionsHit(payload, hits)
  {
    hide DecodeTransaction, DecodeEntryHeader, WalkFrom, Reaches, Walked, WalkSegment;
    if hits == [] {
      return None;
    }
    var lastHit := hits[|hits| - 1];
    var entries := DecodeU64(payload, 0);
    if entries.Bad? {
      return None;
    }
    var p: nat, found := entries.next, [];
    ghost var visited: seq<Span> := [];
    WalkStarts(payload, lastHit);
    var i := 0;
    while i < entries.value && p <= lastHit
      invariant 0 <= i <= entries.value
      invariant Walked(payload, lastHit, visited, p, 0, entries.value - i)
      invariant found == Select(visited, hits)
    {
      var header := DecodeEntryHeader(payload, p);
      WalkedHeader(payload, lastHit, visited, p, entries.value - i);
      if header.Bad? {
        return None;
      }
      p := header.next;
      var t := 0;
      while t < header.value.2
        invariant 0 <= t <= header.value.2
        invariant Walked(payload, lastHit, visited, p, header.value.2 - t, entries.value - i - 1)
        invariant found == Select(visited, hits)
      {
        var start := p;
        WalkedTransaction(payload, lastHit, visited, p, header.value.2 - t, entries.value - i - 1);
        var end := TransactionEnd(payload, start);
        if end.None? {
          return None;
        }
        SliceDecodes(payload, start);
        var tx := DecodeTransaction(payload[start..end.value], 0).value;
        ghost var span := Span(tx, start, end.value);
        SelectConcat(visited, [span], hits);
        if exists h :: 0 <= h < |hits| && start <= hits[h] < end.value {
          assert Hit(span, hits);
          found := found + [tx];
        }
        visited := visited + [span];
        p := end.value;
        t := t + 1;
        if p > lastHit {
          ghost var rest := WalkFrom(payload, p, header.value.2 - t, entries.value - i - 1).spans;
          assert WalkSegment(payload).spans == visited + rest;
          StopsPastLastHit(payload, p, header.value.2 - t, entries.value - i - 1, visited, hits);
          assert Select(WalkSegment(payload).spans, hits) == found;
          assert Reaches(payload, 8, 0, entries.value, lastHit);
          return Some(found);
        }
      }
      i := i + 1;
    }
    WalkedOut(payload, hits, visited, p, entries.value - i);
    return Some(found);
  }

  lemma WalkStarts(payload: seq<Byte>, last: nat)
    requires DecodeU64(payload, 0).Got?
    ensures Walked(payload, last, [], 8, 0, DecodeU64(payload, 0).value)
  {
    hide WalkFrom, Reaches;
    assert [] + WalkSegment(payload).spans == WalkSegment(payload).spans;
  }

  lemma StopsPastLastHit(buf: seq<Byte>, p: nat, txs: nat, entries: nat, visited: seq<Span>, hits: seq<nat>)
    requires Ascends(hits) && hits != [] && p > hits[|hits| - 1]
    ensures Select(visited + WalkFrom(buf, p, txs, entries).spans, hits) == Select(visited, hits)
  {
    hide WalkFrom;
    var rest := WalkFrom(buf, p, txs, entries).spans;
    SpansStartAfter(buf, p, txs, entries);
    assert forall i :: 0 <= i < |hits| ==> hits[i] <= hits[|hits| - 1];
    NothingSelected(rest, hits, p);
    SelectConcat(visited, rest, hits);
  }

  // ---- the walk against the full decode ----------------------------------------------------

  function TransactionsOf(spans: seq<Span>): seq<Transaction> {
    seq(|spans|, i requires 0 <= i < |spans| => spans[i].tx)
  }

  lemma TransactionsOfCons(span: Span, rest: seq<Span>)
    ensures TransactionsOf([span] + rest) == [span.tx] + TransactionsOf(rest)
    ensures TransactionsOf([]) == []
  {
  }

  lemma {:induction false} WalkOfEntry(buf: seq<Byte>, p: nat, txs: nat, entries: nat)
    ensures var w := WalkFrom(buf, p, txs, entries);
            match DecodeTransactions(buf, p, txs)
            case Bad => !w.complete
            case Got(ts, q) =>
              var rest := WalkFrom(buf, q, 0, entries);
              w.complete == rest.complete && TransactionsOf(w.spans) == ts + TransactionsOf(rest.spans)
    decreases txs
  {
    hide DecodeTransaction, TransactionsOf;
    var rest := DecodeTransactions(buf, p, txs);
    if txs > 0 && DecodeTransaction(buf, p).Got? {
      var tx := DecodeTransaction(buf, p);
      WalkOfEntry(buf, tx.next, txs - 1, entries);
      var w := WalkFrom(buf, tx.next, txs - 1, entries).spans;
      TransactionsOfCons(Span(tx.value, p, tx.next), w);
      if rest.Got? {
        var ts := DecodeTransactions(buf, tx.next, txs - 1);
        var after := TransactionsOf(WalkFrom(buf, rest.next, 0, entries).spans);
        assert [tx.value] + (ts.value + after) == ([tx.value] + ts.value) + after;
      }
    } else if txs == 0 {
      assert rest.value + TransactionsOf(WalkFrom(buf, p, 0, entries).spans) == TransactionsOf(WalkFrom(buf, p, 0, entries).spans);
    }
  }

  lemma {:induction false} WalkOfEntries(buf: seq<Byte>, p: nat, entries: nat)
    ensures var w := WalkFrom(buf, p, 0, entries);
            match DecodeEntries(buf, p, entries)
            case Bad => !w.complete
            case Got(es, _) => w.complete && TransactionsOf(w.spans) == AllTransactions(es)
    decreases entries
  {
    hide TransactionsOf, DecodeTransactions, DecodeEntryHeader;
    if entries == 0 {
      TransactionsOfCons(Span(Transaction([], Legacy(Body([], [], [], []))), 0, 0), []);
    }
    if entries > 0 && DecodeEntryHeader(buf, p).Got? {
      var header := DecodeEntryHeader(buf, p);
      WalkOfEntry(buf, header.next, header.value.2, entries - 1);
      var ts := DecodeTransactions(buf, header.next, header.value.2);
      if ts.Got? {
        WalkOfEntries(buf, ts.next, entries - 1);
        var es := DecodeEntries(buf, ts.next, entries - 1);
        if es.Got? {
          var e := Entry(header.value.0, header.value.1, ts.value);
          assert ([e] + es.value)[1..] == es.value;
        }
      }
    }
  }

  /** The walk completes exactly when the full deserialize succeeds, and visits its transactions in order. */
  lemma WalkIsFullDecode(payload: seq<Byte>)
    ensures WalkSegment(payload).complete <==> DecodeSegment(payload).Some?
    ensures DecodeSegment(payload).Some? ==> TransactionsOf(WalkSegment(payload).spans) == AllTransactions(DecodeSegment(payload).value)
  {
    match DecodeU64(payload, 0) {
      case Bad =>
      case Got(entries, q) => WalkOfEntries(payload, q, entries);
    }
  }

  lemma {:induction false} CompleteReaches(buf: seq<Byte>, p: nat, txs: nat, entries: nat, last: nat)
    requires WalkFrom(buf, p, txs, entries).complete
    ensures Reaches(buf, p, txs, entries, last)
    decreases entries, txs
  {
    if txs > 0 {
      CompleteReaches(buf, DecodeTransaction(buf, p).next, txs - 1, entries, last);
    } else if entries > 0 {
      CompleteReaches(buf, DecodeEntryHeader(buf, p).next, DecodeEntryHeader(buf, p).value.2, entries - 1, last);
    }
  }

  /** On a segment that deserializes, a walk asked about at least one hit always answers. */
  lemma WholeSegmentAnswers(payload: seq<Byte>, hits: seq<nat>)
    requires DecodeSegment(payload).Some? && hits != []
    ensures TransactionsHit(payload, hits) == Some(Select(WalkSegment(payload).spans, hits))
  {
    WalkIsFullDecode(payload);
    CompleteReaches(payload, 8, 0, DecodeU64(payload, 0).value, hits[|hits| - 1]);
  }

  // ---- the walk on a prefix ----------------------------------------------------------------

  lemma {:induction false} PrefixSelects(buf: seq<Byte>, n: nat, p: nat, txs: nat, entries: nat, hits: seq<nat>)
    requires n <= |buf| && Ascends(hits) && hits != []
    requires Reaches(buf[..n], p, txs, entries, hits[|hits| - 1])
    ensures Reaches(buf, p, txs, entries, hits[|hits| - 1])
    ensures Select(WalkFrom(buf[..n], p, txs, entries).spans, hits) == Select(WalkFrom(buf, p, txs, entries).spans, hits)
    decreases entries, txs
  {
    hide DecodeTransaction, DecodeEntryHeader;
    var last := hits[|hits| - 1];
    if txs > 0 {
      TransactionLocal(buf, n, p);
      var tx := DecodeTransaction(buf, p);
      if tx.next > last {
        var visited := [Span(tx.value, p, tx.next)];
        StopsPastLastHit(buf[..n], tx.next, txs - 1, entries, visited, hits);
        StopsPastLastHit(buf, tx.next, txs - 1, entries, visited, hits);
      } else {
        PrefixSelects(buf, n, tx.next, txs - 1, entries, hits);
      }
    } else if entries > 0 && p <= last {
      EntryHeaderLocal(buf, n, p);
      var header := DecodeEntryHeader(buf, p);
      PrefixSelects(buf, n, header.next, header.value.2, entries - 1, hits);
    } else {
      if entries > 0 {
        StopsPastLastHit(buf[..n], p, txs, entries, [], hits);
        StopsPastLastHit(buf, p, txs, entries, [], hits);
        assert [] + WalkFrom(buf, p, txs, entries).spans == WalkFrom(buf, p, txs, entries).spans;
        assert [] + WalkFrom(buf[..n], p, txs, entries).spans == WalkFrom(buf[..n], p, txs, entries).spans;
      }
    }
  }

  /** On a truncated payload the walk refuses, or finds exactly what it would find in the whole. */
  lemma PrefixAnswersExactly(payload: seq<Byte>, n: nat, hits: seq<nat>)
    requires n <= |payload| && Ascends(hits)
    ensures TransactionsHit(payload[..n], hits).Some? ==>
              TransactionsHit(payload[..n], hits) == Some(Select(WalkSegment(payload).spans, hits))
    ensures TransactionsHit(payload[..n], hits).Some? ==> TransactionsHit(payload, hits).Some?
  {
    if TransactionsHit(payload[..n], hits).Some? {
      assert payload[..n][0..8] == payload[0..8];
      PrefixSelects(payload, n, 8, 0, DecodeU64(payload, 0).value, hits);
    }
  }

  lemma {:induction false} ReachesAtEnd(buf: seq<Byte>, n: nat, p: nat, txs: nat, entries: nat, last: nat, k: nat)
    requires n <= |buf|
    requires k < |WalkFrom(buf, p, txs, entries).spans|
    requires var s := WalkFrom(buf, p, txs, entries).spans[k]; s.start <= last < s.end
    ensures Reaches(buf[..n], p, txs, entries, last) <==> WalkFrom(buf, p, txs, entries).spans[k].end <= n
    decreases entries, txs
  {
    hide DecodeTransaction, DecodeEntryHeader;
    SpansStartAfter(buf, p, txs, entries);
    if txs > 0 {
      TransactionLocal(buf, n, p);
      if k > 0 {
        var q := DecodeTransaction(buf, p).next;
        SpansStartAfter(buf, q, txs - 1, entries);
        assert WalkFrom(buf, p, txs, entries).spans[k] == WalkFrom(buf, q, txs - 1, entries).spans[k - 1];
        ReachesAtEnd(buf, n, q, txs - 1, entries, last, k - 1);
      }
    } else {
      EntryHeaderLocal(buf, n, p);
      var header := DecodeEntryHeader(buf, p);
      SpansStartAfter(buf, header.next, header.value.2, entries - 1);
      ReachesAtEnd(buf, n, header.next, header.value.2, entries - 1, last, k);
    }
  }

  /** When the last hit lies in a transaction, the walk answers from the byte that completes that transaction on. */
  lemma AnswersOnceComplete(payload: seq<Byte>, n: nat, hits: seq<nat>, k: nat)
    requires n <= |payload| && hits != [] && k < |WalkSegment(payload).spans|
    requires var s := WalkSegment(payload).spans[k]; s.start <= hits[|hits| - 1] < s.end
    ensures TransactionsHit(payload[..n], hits).Some? <==> WalkSegment(payload).spans[k].end <= n
  {
    var entries := DecodeU64(payload, 0).value;
    SpansStartAfter(payload, 8, 0, entries);
    ReachesAtEnd(payload, n, 8, 0, entries, hits[|hits| - 1], k);
    if n >= 8 {
      assert payload[..n][0..8] == payload[0..8];
    }
  }
}
