/**
 What a payload, whole or partial, yields (`creates_in_payload`): the walk filtered down to wanted
 transactions, against the wanted transactions of a full decode.
 */
module Detection {
  import opened Prelude
  import opened WireFormat
  import opened Wire
  import opened Scan
  import opened PumpFilter

  /** `creates_in_payload`; nothing when the payload does not walk cleanly. */
  ghost function CreatesIn(payload: seq<Byte>, hits: seq<nat>, confirm: bool): Option<seq<Transaction>> {
    if hits == [] then Some([])
    else match TransactionsHit(payload, hits)
         case None => None
         case Some(txs) => Some(Keep(txs, confirm))
  }

  method CreatesInPayload(payload: seq<Byte>, hits: seq<nat>, confirm: bool) returns (r: Option<seq<Transaction>>)
    requires Ascends(hits)
    ensures r == CreatesIn(payload, hits, confirm)
  {
    hide TransactionsHit, ParsesAsCreate, ParsesAsBuy;
    if hits == [] {
      return Some([]);
    }
    var candidates := TransactionsAt(payload, hits);
    if candidates.None? {
      return None;
    }
    var txs, kept := candidates.value, [];
    assert txs[0..] == txs && [] + Keep(txs, confirm) == Keep(txs, confirm);
    for i := 0 to |txs|
      invariant Keep(txs, confirm) == kept + Keep(txs[i..], confirm)
    {
      assert txs[i..][1..] == txs[i + 1..];
      assert kept + ([txs[i]] + Keep(txs[i + 1..], confirm)) == kept + [txs[i]] + Keep(txs[i + 1..], confirm);
      assert [] + Keep(txs[i + 1..], confirm) == Keep(txs[i + 1..], confirm);
      var create := ParseCreate(txs[i]);
      var buy: Option<BuyInfo> := None;
      if create.None? && confirm {
        buy := ParseBuy(txs[i]);
      }
      if create.Some? || buy.Some? {
        kept := kept + [txs[i]];
      }
    }
    assert txs[|txs|..] == [] && kept + [] == kept;
    return Some(kept);
  }

  // ---- spans are the encodings of their transactions, in order -------------------------------

  ghost predicate SpansOf(buf: seq<Byte>, spans: seq<Span>) {
    forall i :: 0 <= i < |spans| ==>
      && TransactionOk(spans[i].tx) && spans[i].start < spans[i].end
      && spans[i].end == spans[i].start + |EncodeTransaction(spans[i].tx)|
      && At(buf, spans[i].start, EncodeTransaction(spans[i].tx))
  }

  predicate InOrder(spans: seq<Span>) {
    forall i, j :: 0 <= i < j < |spans| ==> spans[i].end <= spans[j].start
  }

  lemma {:induction false} WalkYieldsSpans(buf: seq<Byte>, p: nat, txs: nat, entries: nat)
    ensures SpansOf(buf, WalkFrom(buf, p, txs, entries).spans) && InOrder(WalkFrom(buf, p, txs, entries).spans)
    decreases entries, txs
  {
    hide DecodeTransaction, DecodeEntryHeader, EncodeTransaction, At, TransactionOk;
    if txs > 0 {
      if DecodeTransaction(buf, p).Got? {
        TransactionDecoded(buf, p);
        WalkYieldsSpans(buf, DecodeTransaction(buf, p).next, txs - 1, entries);
        SpansStartAfter(buf, DecodeTransaction(buf, p).next, txs - 1, entries);
      }
    } else if entries > 0 && DecodeEntryHeader(buf, p).Got? {
      WalkYieldsSpans(buf, DecodeEntryHeader(buf, p).next, DecodeEntryHeader(buf, p).value.2, entries - 1);
    }
  }

  lemma SegmentSpans(payload: seq<Byte>)
    ensures SpansOf(payload, WalkSegment(payload).spans) && InOrder(WalkSegment(payload).spans)
  {
    if DecodeU64(payload, 0).Got? {
      WalkYieldsSpans(payload, 8, 0, DecodeU64(payload, 0).value);
    }
  }

  // ---- a whole segment ------------------------------------------------------------------------

  lemma {:induction false} KeepingHitsKeepsAll(buf: seq<Byte>, spans: seq<Span>, confirm: bool)
    requires SpansOf(buf, spans)
    ensures Keep(Select(spans, Hits(buf, confirm)), confirm) == Keep(TransactionsOf(spans), confirm)
  {
    hide Wanted, At, EncodeTransaction, TransactionOk, Marked;
    if spans != [] {
      KeepingHitsKeepsAll(buf, spans[1..], confirm);
      assert TransactionsOf(spans)[1..] == TransactionsOf(spans[1..]);
      var s, hits := spans[0], Hits(buf, confirm);
      if Wanted(s.tx, confirm) {
        var o := WantedIsMarked(buf, s.start, s.tx, confirm);
        var i :| 0 <= i < |hits| && hits[i] == o;
        assert Hit(s, hits);
      }
      if Hit(s, hits) {
        assert ([s.tx] + Select(spans[1..], hits))[1..] == Select(spans[1..], hits);
      } else {
        assert [] + Select(spans[1..], hits) == Select(spans[1..], hits);
      }
    }
  }

  /** On a segment that deserializes, the fast path yields exactly the wanted transactions of the full decode. */
  lemma FastPathIsFullDecode(payload: seq<Byte>, confirm: bool)
    requires DecodeSegment(payload).Some?
    ensures CreatesIn(payload, Hits(payload, confirm), confirm) == Some(Keep(AllTransactions(DecodeSegment(payload).value), confirm))
  {
    var hits, spans := Hits(payload, confirm), WalkSegment(payload).spans;
    WalkIsFullDecode(payload);
    SegmentSpans(payload);
    KeepingHitsKeepsAll(payload, spans, confirm);
    if hits == [] {
      SelectsNothing(spans);
    } else {
      WholeSegmentAnswers(payload, hits);
    }
  }

  lemma {:induction false} SelectsNothing(spans: seq<Span>)
    ensures Select(spans, []) == []
  {
    if spans != [] {
      SelectsNothing(spans[1..]);
    }
  }

  /** A serialized entry vector, whatever follows it, yields exactly its wanted transactions. */
  lemma FastPathOnEncoded(es: seq<Entry>, rest: seq<Byte>, confirm: bool)
    requires SegmentOk(es)
    ensures var payload := EncodeSegment(es) + rest;
            CreatesIn(payload, Hits(payload, confirm), confirm) == Some(Keep(AllTransactions(es), confirm))
  {
    SegmentRoundTrip(es, rest);
    FastPathIsFullDecode(EncodeSegment(es) + rest, confirm);
  }

  // ---- a growing segment ----------------------------------------------------------------------

  lemma HitsOfPrefix(payload: seq<Byte>, n: nat, confirm: bool)
    requires n <= |payload|
    ensures forall o: nat :: o in Hits(payload[..n], confirm) <==> o in Hits(payload, confirm) && o + DISC_LEN <= n
  {
    hide Searched;
    DiscriminatorsAreUnbordered(confirm);
    forall o: nat, d | 0 <= d < |Searched(confirm)|
      ensures At(payload[..n], o, Searched(confirm)[d]) <==> At(payload, o, Searched(confirm)[d]) && o + DISC_LEN <= n
    {
      AtPrefix(payload, n, o, Searched(confirm)[d]);
    }
  }

  /** Dropping the hits from a threshold on only drops transactions from the end of the selection. */
  lemma {:induction false} FewerHitsSelectAPrefix(spans: seq<Span>, few: seq<nat>, many: seq<nat>, limit: int)
    requires InOrder(spans) && forall i :: 0 <= i < |spans| ==> spans[i].start < spans[i].end
    requires forall o: nat :: o in few <==> o in many && o <= limit
    ensures Select(spans, few) <= Select(spans, many)
  {
    if spans != [] {
      var s := spans[0];
      FewerHitsSelectAPrefix(spans[1..], few, many, limit);
      if Hit(s, few) {
        var i :| 0 <= i < |few| && s.start <= few[i] < s.end;
        assert few[i] in many;
      } else if Hit(s, many) {
        var i :| 0 <= i < |many| && s.start <= many[i] < s.end;
        assert many[i] !in few;
        forall k | 0 <= k < |few| ensures few[k] < s.end {
          assert few[k] in few;
        }
        NothingSelected(spans[1..], few, s.end);
      }
    }
  }

  /** Two hand-overs for one growing segment: the later list extends the earlier one. */
  lemma HandOversExtend(payload: seq<Byte>, n: nat, confirm: bool)
    requires n <= |payload|
    requires CreatesIn(payload[..n], Hits(payload[..n], confirm), confirm).Some?
    requires CreatesIn(payload, Hits(payload, confirm), confirm).Some?
    ensures CreatesIn(payload[..n], Hits(payload[..n], confirm), confirm).value <= CreatesIn(payload, Hits(payload, confirm), confirm).value
  {
    hide Marked, HitsBelow, Wanted, TransactionsHit, WalkSegment, At, TransactionOk, EncodeTransaction;
    var few, many := Hits(payload[..n], confirm), Hits(payload, confirm);
    var spans := WalkSegment(payload).spans;
    if few != [] {
      SegmentSpans(payload);
      HitsOfPrefix(payload, n, confirm);
      assert few[0] in many;
      PrefixAnswersExactly(payload, n, few);
      assert payload[..|payload|] == payload;
      PrefixAnswersExactly(payload, |payload|, many);
      FewerHitsSelectAPrefix(spans, few, many, n - DISC_LEN);
      KeepPrefix(Select(spans, few), Select(spans, many), confirm);
    }
  }

  /** What is handed over early for a segment is a prefix of what its full decode wants. */
  lemma EarlyIsInFullDecode(payload: seq<Byte>, n: nat, confirm: bool)
    requires n <= |payload| && DecodeSegment(payload).Some?
    requires CreatesIn(payload[..n], Hits(payload[..n], confirm), confirm).Some?
    ensures CreatesIn(payload[..n], Hits(payload[..n], confirm), confirm).value <= Keep(AllTransactions(DecodeSegment(payload).value), confirm)
  {
    FastPathIsFullDecode(payload, confirm);
    HandOversExtend(payload, n, confirm);
  }
}
