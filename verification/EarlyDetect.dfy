/**
 The early path over one segment (`EarlySegment` and the body of `detect_in_partial_segments`):
 it appends the contiguous shreds that arrived, searches only their bytes, and hands over what the
 walk can already decode.
 */
module EarlyDetect {
  import opened Prelude
  import opened WireFormat
  import opened Wire
  import opened Scan
  import opened Detection
  import opened Tracker

  predicate Readable(t: Tracker, i: nat)
    requires Shaped(t)
  {
    i < MAX_DATA_SHREDS_PER_SLOT && t.shreds[i].Some? && t.shreds[i].value.kind.Data? && t.shreds[i].value.kind.data.Some?
  }

  /** The shreds of `[start, next)` are held and readable, and none but the last ends a segment. */
  ghost predicate Contiguous(t: Tracker, start: nat, next: nat)
    requires Shaped(t)
  {
    && start <= next <= MAX_DATA_SHREDS_PER_SLOT
    && (forall i :: start <= i < next ==> Readable(t, i))
    && (forall i :: start <= i < next - 1 ==> t.status[i] == NotDataComplete)
  }

  /** `Shredder::deshred`, taken as concatenation of the shreds of `[start, next)`. */
  function Deshred(t: Tracker, start: nat, next: nat): Option<seq<Byte>>
    requires Shaped(t) && start <= next
    decreases next
  {
    if start == next then Some([])
    else if !Readable(t, next - 1) then None
    else match Deshred(t, start, next - 1)
         case None => None
         case Some(bytes) => Some(bytes + t.shreds[next - 1].value.kind.data.value)
  }

  /** How far the early path gets from shred `i`: the next index, the bytes, and whether the segment ends there. */
  function Grow(t: Tracker, i: nat): (nat, seq<Byte>, bool)
    requires Shaped(t)
    decreases MAX_DATA_SHREDS_PER_SLOT - i
  {
    if i >= MAX_DATA_SHREDS_PER_SLOT then (i, [], false)
    else if t.deshredded[i] then (i, [], true)
    else if !Readable(t, i) then (i, [], false)
    else
      var data := t.shreds[i].value.kind.data.value;
      if t.status[i] == DataComplete then (i + 1, data, true)
      else var (next, bytes, ends) := Grow(t, i + 1); (next, data + bytes, ends)
  }

  lemma {:induction false} GrowExtends(t: Tracker, start: nat, i: nat, buf: seq<Byte>)
    requires Sound(t) && Contiguous(t, start, i) && Deshred(t, start, i) == Some(buf)
    requires start < i ==> t.status[i - 1] == NotDataComplete
    ensures var (next, bytes, ends) := Grow(t, i);
            && i <= next && Contiguous(t, start, next) && Deshred(t, start, next) == Some(buf + bytes)
            && (!ends && start < next ==> t.status[next - 1] == NotDataComplete)
    decreases MAX_DATA_SHREDS_PER_SLOT - i
  {
    if i >= MAX_DATA_SHREDS_PER_SLOT || t.deshredded[i] || !Readable(t, i) {
      assert buf + [] == buf;
    } else {
      assert Holds(t, i);
      var data := t.shreds[i].value.kind.data.value;
      assert Deshred(t, start, i + 1) == Some(buf + data);
      if t.status[i] != DataComplete {
        GrowExtends(t, start, i + 1, buf + data);
        var (next, bytes, ends) := Grow(t, i + 1);
        assert buf + data + bytes == buf + (data + bytes);
      }
    }
  }

  /** Growth goes on exactly as long as unpublished readable shreds follow and none of them ends the segment. */
  lemma {:induction false} GrowIsMaximal(t: Tracker, i: nat)
    requires Shaped(t) && i <= MAX_DATA_SHREDS_PER_SLOT
    ensures var (next, bytes, ends) := Grow(t, i);
            && i <= next <= MAX_DATA_SHREDS_PER_SLOT
            && (forall k :: i <= k < next ==> Readable(t, k) && !t.deshredded[k])
            && (forall k :: i <= k < next - 1 ==> t.status[k] != DataComplete)
            && var full := i < next && t.status[next - 1] == DataComplete;
               && (full || next == MAX_DATA_SHREDS_PER_SLOT || t.deshredded[next] || !Readable(t, next))
               && (ends <==> full || (next < MAX_DATA_SHREDS_PER_SLOT && t.deshredded[next]))
    decreases MAX_DATA_SHREDS_PER_SLOT - i
  {
    if i < MAX_DATA_SHREDS_PER_SLOT && !t.deshredded[i] && Readable(t, i) && t.status[i] != DataComplete {
      GrowIsMaximal(t, i + 1);
    }
  }

  /** An early segment; everything in `buf` has been searched. */
  datatype Early = Early(next: nat, buf: seq<Byte>, hits: seq<nat>, complete: bool)

  /** One pass over an unfinished segment: what it becomes, and what is handed over. */
  ghost function Advanced(t: Tracker, seg: Early, confirm: bool): (Early, Option<seq<Transaction>>)
    requires Shaped(t)
  {
    var (next, bytes, ends) := Grow(t, seg.next);
    var buf := seg.buf + bytes;
    var hits := if bytes == [] then seg.hits else Hits(buf, confirm);
    (if ends then Early(next, [], [], true) else Early(next, buf, hits, false),
     if bytes == [] then None else CreatesIn(buf, hits, confirm))
  }

  class EarlySegment {
    var next: nat
    var buf: seq<Byte>
    var scanned: nat
    var hits: seq<nat>
    var complete: bool

    constructor (start: nat, ghost confirm: bool)
      ensures Valid(confirm) && next == start && buf == [] && !complete
    {
      next, buf, scanned, hits, complete := start, [], 0, [], false;
    }

    function Value(): Early
      reads this
    {
      Early(next, buf, hits, complete)
    }

    /** Everything in the buffer has been searched, and every hit is recorded. */
    ghost predicate Valid(confirm: bool)
      reads this
    {
      scanned == |buf| && hits == Hits(buf, confirm)
    }

    /** Appends every contiguous data shred that has turned up. */
    method Append(tracker: ShredsStateTracker) returns (ends: bool)
      requires tracker.Valid()
      modifies this`next, this`buf
      ensures var (n, bytes, e) := Grow(tracker.View(), old(next)); next == n && buf == old(buf) + bytes && ends == e
    {
      ghost var t := tracker.View();
      ghost var (n, bytes, e) := Grow(t, next);
      assert old(buf) + bytes == buf + bytes;
      while next < tracker.status.Length
        invariant tracker.View() == t
        invariant var (n', bytes', e') := Grow(t, next); n' == n && e' == e && old(buf) + bytes == buf + bytes'
      {
        var i := next;
        if tracker.deshredded[i] {
          assert buf + [] == buf;
          return true;
        }
        if tracker.shreds[i].None? || !tracker.shreds[i].value.kind.Data? || tracker.shreds[i].value.kind.data.None? {
          assert buf + [] == buf;
          return false;
        }
        var data := tracker.shreds[i].value.kind.data.value;
        ghost var rest := Grow(t, i + 1).1;
        assert buf + (data + rest) == buf + data + rest;
        buf := buf + data;
        next := next + 1;
        if tracker.status[i] == DataComplete {
          return true;
        }
      }
      assert buf + [] == buf;
      return false;
    }

    /** Searches only the bytes that are new, with an overlap, yet ends up with every hit. */
    method Rescan(confirm: bool)
      requires scanned <= |buf| && hits == Hits(buf[..scanned], confirm)
      modifies this`scanned, this`hits
      ensures Valid(confirm)
    {
      hide Hits, FoundByFirst, Searched, Sort, Dedup;
      assert buf[..|buf|] == buf;
      if |buf| > scanned {
        var from := SaturatingSub(scanned, DISC_LEN - 1);
        var newHits := CreateOffsetsInto(buf, from, [], confirm);
        RescanFinds(buf, scanned, hits, newHits, confirm);
        scanned := |buf|;
        if newHits != [] {
          hits := Dedup(Sort(hits + newHits));
        }
      }
    }

    /** One pass over the segment.  `found` is none when nothing new arrived or the walk refused. */
    method Advance(tracker: ShredsStateTracker, confirm: bool) returns (found: Option<seq<Transaction>>)
      requires tracker.Valid() && Valid(confirm) && !complete
      modifies this
      ensures (Value(), found) == Advanced(tracker.View(), old(Value()), confirm) && (!complete ==> Valid(confirm))
    {
      ghost var old_buf := buf;
      var ends := Append(tracker);
      assert buf[..scanned] == old_buf;
      found := None;
      var grew := |buf| > scanned;
      ghost var bytes := Grow(tracker.View(), old(next)).1;
      assert bytes == [] ==> buf == old_buf;
      assert grew <==> bytes != [];
      hide Hits, Grow, CreatesIn;
      Rescan(confirm);
      if grew {
        StrictAscends(hits);
        found := CreatesInPayload(buf, hits, confirm);
      }
      if ends {
        complete := true;
        buf := [];
        hits := [];
      }
    }
  }

  lemma StrictAscends(hits: seq<nat>)
    requires Strict(hits)
    ensures Ascends(hits)
  {
  }
}
