/**
 Runs of `reconstruct_shreds`: batches of shreds over many slots, with recovery, early detection,
 publication, eviction and tracker recycling.  The last three fields of a state are a record of
 everything the run has published, handed over early and evicted.
 */
module Reassembly {
  import opened Prelude
  import opened WireFormat
  import opened Scan
  import opened PumpFilter
  import opened Detection
  import opened Tracker
  import opened EarlyDetect

  const SLOT_LOOKBACK: nat := 50
  const MAX_PROCESSING_AGE: nat := 150

  datatype Published = Published(slot: nat, seg: Segment, payload: seq<Byte>)

  /** A hand-over of `txs` when the segment from `start` had grown to `next`. */
  datatype HandOver = HandOver(slot: nat, start: nat, next: nat, txs: seq<Transaction>)

  datatype State = State(
    slots: map<nat, Tracker>, pool: seq<Tracker>, highest: nat, early: map<(nat, nat), Early>,
    touched: set<(nat, nat)>,
    published: seq<Published>, handed: seq<HandOver>, archive: map<nat, Tracker>)

  const Init: State := State(map[], [], 0, map[], {}, [], [], map[])

  // ---- steps ---------------------------------------------------------------------------------

  /** The slot's tracker, taken from the pool when the slot is new. */
  function WithSlot(st: State, slot: nat): (r: State)
    ensures slot in r.slots
  {
    if slot in st.slots then st
    else var (t, pool) := Take(st.pool); st.(slots := st.slots[slot := t], pool := pool)
  }

  predicate TooOld(st: State, slot: nat) { SaturatingSub(st.highest, SLOT_LOOKBACK) > slot }

  /** One parsed shred of the batch. */
  function Ingest(st: State, shred: Shred): State
    requires AllShaped(st) && InRange(shred)
  {
    if TooOld(st, shred.slot) then st
    else
      var st1 := WithSlot(st, shred.slot);
      var t := st1.slots[shred.slot];
      if t.recovered[shred.fecSet] || t.deshredded[shred.index] || !Accepts(t, shred) then st1
      else st1.(slots := st1.slots[shred.slot := Update(t, shred)],
                touched := st1.touched + {(shred.slot, shred.fecSet)},
                highest := Max(st1.highest, shred.slot))
  }

  /** The rejection off the wire bytes, before a shred is parsed. */
  predicate Prefiltered(st: State, shred: Shred)
    requires AllShaped(st) && InRange(shred)
  {
    || TooOld(st, shred.slot)
    || (shred.slot in st.slots &&
        var t := st.slots[shred.slot];
        t.recovered[shred.fecSet] || t.deshredded[shred.index] || (t.shreds[shred.index].Some? && shred.kind.Data?))
  }

  /** Early rejection changes nothing: what it drops, ingesting would have dropped. */
  lemma PrefilterIsRedundant(st: State, shred: Shred)
    requires AllShaped(st) && InRange(shred) && Prefiltered(st, shred)
    ensures Ingest(st, shred) == st
  {
  }

  /** Recovery of one FEC set: arbitrary extra shreds, and the set is done when any was new. */
  function RecoverInto(t: Tracker, shreds: seq<Shred>): (r: (Tracker, nat))
    requires Shaped(t) && forall i :: 0 <= i < |shreds| ==> InRange(shreds[i])
    ensures Shaped(r.0)
  {
    if shreds == [] then (t, 0)
    else
      var (r, n) := RecoverInto(t, shreds[..|shreds| - 1]);
      var shred := shreds[|shreds| - 1];
      (Update(r, shred), if Accepts(r, shred) then n + 1 else n)
  }

  function Recover(st: State, slot: nat, fecSet: nat, shreds: seq<Shred>): State
    requires slot in st.slots && Shaped(st.slots[slot]) && fecSet < MAX_DATA_SHREDS_PER_SLOT
    requires forall i :: 0 <= i < |shreds| ==> InRange(shreds[i])
  {
    var (t, n) := RecoverInto(st.slots[slot], shreds);
    st.(slots := st.slots[slot := if n > 0 then MarkRecovered(t, fecSet) else t])
  }

  function EarlyAt(st: State, slot: nat, start: nat): Early {
    if (slot, start) in st.early then st.early[(slot, start)] else Early(start, [], [], false)
  }

  /** The early pass over one shred that arrived. */
  ghost function DetectOne(st: State, slot: nat, index: nat, confirm: bool): State
    requires AllShaped(st)
  {
    if slot !in st.slots then st
    else
      var t := st.slots[slot];
      match SegmentStart(t, index)
      case None => st
      case Some(start) =>
        var seg := EarlyAt(st, slot, start);
        if seg.complete then st
        else
          var (grown, found) := Advanced(t, seg, confirm);
          st.(early := st.early[(slot, start) := grown],
              handed := if found.Some? && found.value != [] then st.handed + [HandOver(slot, start, grown.next, found.value)] else st.handed)
  }

  /** Whether the ordinary path publishes a bounded segment's payload: unread, walked, or in full. */
  ghost predicate Publishes(payload: seq<Byte>, unknownStart: bool, pumpOnly: bool, confirm: bool) {
    var hits := if pumpOnly then Hits(payload, confirm) else [];
    if pumpOnly && !unknownStart && hits == [] then true
    else if pumpOnly && CreatesIn(payload, hits, confirm).Some? then true
    else DecodeSegment(payload).Some?
  }

  ghost function Publish(st: State, slot: nat, fecSet: nat, pumpOnly: bool, confirm: bool): State
    requires slot in st.slots && Sound(st.slots[slot])
  {
    var t := st.slots[slot];
    match GetIndexes(t, fecSet)
    case None => st
    case Some(seg) =>
      SegmentIsHeld(t, fecSet);
      match Deshred(t, seg.start, seg.end + 1)
      case None => st
      case Some(payload) =>
        if !Publishes(payload, seg.unknownStart, pumpOnly, confirm) then st
        else st.(slots := st.slots[slot := MarkRange(t, seg.start, seg.end + 1)],
                 published := st.published + [Published(slot, seg, payload)])
  }

  function Threshold(st: State): nat { SaturatingSub(st.highest, SLOT_LOOKBACK) }

  function LiveSlots(st: State): map<nat, Tracker> {
    map slot | slot in st.slots && slot >= Threshold(st) :: st.slots[slot]
  }

  function StaleSlots(st: State): map<nat, Tracker> {
    map slot | slot in st.slots && slot < Threshold(st) :: st.slots[slot]
  }

  function LiveEarly(st: State): map<(nat, nat), Early> {
    map key | key in st.early && key.0 >= Threshold(st) :: st.early[key]
  }

  /** Returning trackers to the pool, in the given order. */
  function GiveAll(pool: seq<Tracker>, slots: map<nat, Tracker>, order: seq<nat>): seq<Tracker>
    requires forall i :: 0 <= i < |order| ==> order[i] in slots && Shaped(slots[order[i]])
    decreases |order|
  {
    if order == [] then pool else GiveAll(Give(pool, slots[order[0]]), slots, order[1..])
  }

  /** `order` lists stale slots. */
  ghost predicate ListsStale(st: State, order: seq<nat>) {
    forall i :: 0 <= i < |order| ==> order[i] in st.slots && order[i] < Threshold(st)
  }

  ghost function EvictStale(st: State, order: seq<nat>): State
    requires AllShaped(st) && ListsStale(st, order)
  {
    State(LiveSlots(st), GiveAll(st.pool, st.slots, order), st.highest, LiveEarly(st), {},
          st.published, st.handed, st.archive + StaleSlots(st))
  }

  /** The end of a batch: past a size, stale slots are evicted and their trackers recycled. */
  ghost function EndBatch(st: State, order: seq<nat>): State
    requires AllShaped(st) && ListsStale(st, order)
  {
    if |st.slots| > MAX_PROCESSING_AGE then EvictStale(st, order) else st.(touched := {})
  }

  // ---- what every step keeps -----------------------------------------------------------------

  ghost predicate AllShaped(st: State) {
    && (forall slot :: slot in st.slots ==> Shaped(st.slots[slot]))
    && (forall i :: 0 <= i < |st.pool| ==> Shaped(st.pool[i]))
  }

  /** A later state of the same tracker. */
  ghost predicate Grows(t: Tracker, u: Tracker) {
    && Shaped(t) && Shaped(u)
    && forall i :: 0 <= i < MAX_DATA_SHREDS_PER_SLOT ==>
         && (t.shreds[i].Some? ==> u.shreds[i] == t.shreds[i])
         && (t.status[i] != Unknown ==> u.status[i] == t.status[i])
         && (t.deshredded[i] ==> u.deshredded[i])
  }

  /** Every tracker of the run, live or evicted. */
  function Trackers(st: State): map<nat, Tracker> { st.slots + st.archive }

  ghost predicate TrackersOk(st: State) {
    && (forall slot :: slot in st.slots ==> Sound(st.slots[slot]))
    && (forall slot :: slot in st.archive ==> Sound(st.archive[slot]) && slot < Threshold(st))
    && (forall slot :: slot in st.archive ==> slot !in st.slots)
    && (forall i :: 0 <= i < |st.pool| ==> st.pool[i] == Fresh())
    && (forall key :: key in st.touched ==> key.0 in st.slots && key.1 < MAX_DATA_SHREDS_PER_SLOT)
  }

  ghost predicate EarlyOk(t: Tracker, start: nat, seg: Early, confirm: bool)
    requires Shaped(t)
  {
    && Contiguous(t, start, seg.next)
    && (!seg.complete ==> Deshred(t, start, seg.next) == Some(seg.buf) && seg.hits == Hits(seg.buf, confirm)
                          && (start < seg.next ==> t.status[seg.next - 1] == NotDataComplete))
  }

  ghost predicate EarliesOk(st: State, confirm: bool)
    requires TrackersOk(st)
  {
    forall key :: key in st.early ==> key.0 in st.slots && EarlyOk(st.slots[key.0], key.1, st.early[key], confirm)
  }

  ghost predicate PublishedOk(t: Tracker, p: Published)
    requires Shaped(t)
  {
    && p.seg.start <= p.seg.end < MAX_DATA_SHREDS_PER_SLOT
    && Contiguous(t, p.seg.start, p.seg.end + 1) && t.status[p.seg.end] == DataComplete
    && (forall i :: p.seg.start <= i <= p.seg.end ==> t.deshredded[i])
    && Deshred(t, p.seg.start, p.seg.end + 1) == Some(p.payload)
    && (!p.seg.unknownStart ==> Boundary(t, p.seg.start, false))
  }

  ghost predicate Apart(p: Published, q: Published) {
    p.slot == q.slot ==> p.seg.end < q.seg.start || q.seg.end < p.seg.start
  }

  ghost predicate PublishedsOk(st: State)
    requires TrackersOk(st)
  {
    && (forall i :: 0 <= i < |st.published| ==>
          st.published[i].slot in Trackers(st) && PublishedOk(Trackers(st)[st.published[i].slot], st.published[i]))
    && (forall i, j :: 0 <= i < j < |st.published| ==> Apart(st.published[i], st.published[j]))
  }

  ghost predicate HandedOk(t: Tracker, h: HandOver, confirm: bool)
    requires Shaped(t)
  {
    && h.start < MAX_DATA_SHREDS_PER_SLOT
    && Contiguous(t, h.start, h.next) && Boundary(t, h.start, false)
    && Deshred(t, h.start, h.next).Some?
    && var buf := Deshred(t, h.start, h.next).value; CreatesIn(buf, Hits(buf, confirm), confirm) == Some(h.txs)
  }

  /** Hand-overs of one segment come in the order it grew. */
  ghost predicate Later(h: HandOver, k: HandOver) {
    h.slot == k.slot && h.start == k.start ==> h.next <= k.next
  }

  ghost predicate HandedsOk(st: State, confirm: bool)
    requires TrackersOk(st)
  {
    && (forall i :: 0 <= i < |st.handed| ==>
          st.handed[i].slot in Trackers(st) && HandedOk(Trackers(st)[st.handed[i].slot], st.handed[i], confirm))
    && (forall i, j :: 0 <= i < j < |st.handed| ==> Later(st.handed[i], st.handed[j]))
    && (forall i :: 0 <= i < |st.handed| && st.handed[i].slot in st.slots ==>
          var h := st.handed[i]; (h.slot, h.start) in st.early && h.next <= st.early[(h.slot, h.start)].next)
  }

  ghost predicate Inv(st: State, confirm: bool) {
    TrackersOk(st) && EarliesOk(st, confirm) && PublishedsOk(st) && HandedsOk(st, confirm)
  }

  // ---- growth of one tracker -----------------------------------------------------------------

  lemma {:induction false} DeshredGrows(t: Tracker, u: Tracker, start: nat, next: nat)
    requires Grows(t, u) && start <= next && Deshred(t, start, next).Some?
    ensures Deshred(u, start, next) == Deshred(t, start, next)
    decreases next
  {
    if start != next {
      DeshredGrows(t, u, start, next - 1);
    }
  }

  lemma ContiguousGrows(t: Tracker, u: Tracker, start: nat, next: nat)
    requires Grows(t, u) && Contiguous(t, start, next)
    ensures Contiguous(u, start, next)
  {
    forall i | start <= i < next ensures Readable(u, i) {
      assert Readable(t, i);
    }
  }

  lemma EarlyGrows(t: Tracker, u: Tracker, start: nat, seg: Early, confirm: bool)
    requires Grows(t, u) && Sound(t) && EarlyOk(t, start, seg, confirm)
    ensures EarlyOk(u, start, seg, confirm)
  {
    hide Hits;
    ContiguousGrows(t, u, start, seg.next);
    if !seg.complete {
      DeshredGrows(t, u, start, seg.next);
    }
  }

  lemma PublishedGrows(t: Tracker, u: Tracker, p: Published)
    requires Grows(t, u) && PublishedOk(t, p)
    ensures PublishedOk(u, p)
  {
    ContiguousGrows(t, u, p.seg.start, p.seg.end + 1);
    DeshredGrows(t, u, p.seg.start, p.seg.end + 1);
  }

  lemma HandedGrows(t: Tracker, u: Tracker, h: HandOver, confirm: bool)
    requires Grows(t, u) && HandedOk(t, h, confirm)
    ensures HandedOk(u, h, confirm)
  {
    hide Hits, CreatesIn;
    ContiguousGrows(t, u, h.start, h.next);
    DeshredGrows(t, u, h.start, h.next);
  }

  /** Replacing one live tracker by a later state of it keeps everything. */
  lemma SlotGrows(st: State, slot: nat, u: Tracker, confirm: bool)
    requires Inv(st, confirm) && slot in st.slots && Grows(st.slots[slot], u) && Sound(u)
    ensures Inv(st.(slots := st.slots[slot := u]), confirm)
  {
    hide Sound, Grows, EarlyOk, PublishedOk, HandedOk, Fresh, Apart, Later;
    var t, r := st.slots[slot], st.(slots := st.slots[slot := u]);
    assert TrackersOk(r);
    forall key | key in r.early ensures key.0 in r.slots && Shaped(r.slots[key.0]) && EarlyOk(r.slots[key.0], key.1, r.early[key], confirm) {
      SoundIsShaped(r.slots[key.0]);
      if key.0 == slot {
        EarlyGrows(t, u, key.1, st.early[key], confirm);
      }
    }
    forall i | 0 <= i < |r.published|
      ensures r.published[i].slot in Trackers(r) && Shaped(Trackers(r)[r.published[i].slot]) && PublishedOk(Trackers(r)[r.published[i].slot], r.published[i])
    {
      SoundIsShaped(Trackers(r)[r.published[i].slot]);
      if r.published[i].slot == slot {
        PublishedGrows(t, u, r.published[i]);
      }
    }
    forall i | 0 <= i < |r.handed|
      ensures r.handed[i].slot in Trackers(r) && Shaped(Trackers(r)[r.handed[i].slot]) && HandedOk(Trackers(r)[r.handed[i].slot], r.handed[i], confirm)
    {
      SoundIsShaped(Trackers(r)[r.handed[i].slot]);
      if r.handed[i].slot == slot {
        HandedGrows(t, u, r.handed[i], confirm);
      }
    }
  }

  lemma SoundIsShaped(t: Tracker)
    requires Sound(t)
    ensures Shaped(t)
  {
  }

  // ---- each step keeps the invariant ----------------------------------------------------------

  /** What was published stays true while its tracker stays the same. */
  lemma PublishedsKept(st: State, r: State)
    requires TrackersOk(st) && TrackersOk(r) && PublishedsOk(st) && r.published == st.published
    requires forall slot :: slot in Trackers(st) ==> slot in Trackers(r) && Trackers(r)[slot] == Trackers(st)[slot]
    ensures PublishedsOk(r)
  {
    hide TrackersOk, PublishedOk, Apart;
  }

  lemma WithSlotOk(st: State, slot: nat, confirm: bool)
    requires Inv(st, confirm) && !TooOld(st, slot)
    ensures Inv(WithSlot(st, slot), confirm)
  {
    if slot !in st.slots {
      FreshIsSound();
      var r := WithSlot(st, slot);
      assert slot !in st.archive;
      assert r.slots[slot] == Fresh();
      hide Sound, EarlyOk, PublishedOk, HandedOk, Fresh, Apart, Later;
      assert TrackersOk(r);
      forall key | key in r.early ensures key.0 in r.slots && r.slots[key.0] == st.slots[key.0] {
      }
      forall other | other in Trackers(st) ensures other in Trackers(r) && Trackers(r)[other] == Trackers(st)[other] {
      }
      PublishedsKept(st, r);
      hide PublishedsOk;
      forall i | 0 <= i < |r.handed| ensures r.handed[i].slot != slot && Trackers(r)[r.handed[i].slot] == Trackers(st)[r.handed[i].slot] {
        assert r.handed[i].slot in Trackers(st);
      }
      assert EarliesOk(r, confirm);
      assert HandedsOk(r, confirm);
    }
  }

  lemma UpdateGrows(t: Tracker, shred: Shred)
    requires Sound(t) && InRange(shred)
    ensures Sound(Update(t, shred)) && Grows(t, Update(t, shred))
  {
    UpdateIsSound(t, shred);
  }

  lemma IngestOk(st: State, shred: Shred, confirm: bool)
    requires Inv(st, confirm) && InRange(shred)
    ensures AllShaped(st) && Inv(Ingest(st, shred), confirm)
  {
    if !TooOld(st, shred.slot) {
      WithSlotOk(st, shred.slot, confirm);
      var st1 := WithSlot(st, shred.slot);
      var t := st1.slots[shred.slot];
      UpdateGrows(t, shred);
      SlotGrows(st1, shred.slot, Update(t, shred), confirm);
      RaiseHighest(st1.(slots := st1.slots[shred.slot := Update(t, shred)]), shred.slot, shred.fecSet, confirm);
    }
  }

  lemma RaiseHighest(st: State, slot: nat, fecSet: nat, confirm: bool)
    requires Inv(st, confirm) && slot in st.slots && fecSet < MAX_DATA_SHREDS_PER_SLOT
    ensures Inv(st.(touched := st.touched + {(slot, fecSet)}, highest := Max(st.highest, slot)), confirm)
  {
    hide Sound, EarlyOk, PublishedOk, HandedOk, Fresh, Apart, Later;
  }

  lemma {:induction false} RecoverIntoGrows(t: Tracker, shreds: seq<Shred>)
    requires Sound(t) && forall i :: 0 <= i < |shreds| ==> InRange(shreds[i])
    ensures Sound(RecoverInto(t, shreds).0) && Grows(t, RecoverInto(t, shreds).0)
  {
    if shreds != [] {
      RecoverIntoGrows(t, shreds[..|shreds| - 1]);
      UpdateGrows(RecoverInto(t, shreds[..|shreds| - 1]).0, shreds[|shreds| - 1]);
    }
  }

  lemma RecoverOk(st: State, slot: nat, fecSet: nat, shreds: seq<Shred>, confirm: bool)
    requires Inv(st, confirm) && slot in st.slots && fecSet < MAX_DATA_SHREDS_PER_SLOT
    requires forall i :: 0 <= i < |shreds| ==> InRange(shreds[i])
    ensures Inv(Recover(st, slot, fecSet, shreds), confirm)
  {
    hide EarlyOk, PublishedOk, HandedOk;
    RecoverIntoGrows(st.slots[slot], shreds);
    var (t, n) := RecoverInto(st.slots[slot], shreds);
    MarkRecoveredIsSound(t, fecSet);
    SlotGrows(st, slot, if n > 0 then MarkRecovered(t, fecSet) else t, confirm);
  }

  /** One early pass over a segment: its new record and its hand-over are as the invariant wants them. */
  lemma DetectSegment(t: Tracker, index: nat, start: nat, seg: Early, confirm: bool)
    requires Sound(t) && SegmentStart(t, index) == Some(start) && EarlyOk(t, start, seg, confirm) && !seg.complete
    ensures start < MAX_DATA_SHREDS_PER_SLOT && Boundary(t, start, false)
    ensures var (next, bytes, ends) := Grow(t, seg.next);
            var buf := seg.buf + bytes;
            && seg.next <= next && Contiguous(t, start, next) && Deshred(t, start, next) == Some(buf)
            && EarlyOk(t, start, if ends then Early(next, [], [], true)
                                 else Early(next, buf, if bytes == [] then seg.hits else Hits(buf, confirm), false), confirm)
  {
    hide Hits, Sound, Grow, StartWalk;
    SoundIsShaped(t);
    SegmentStartIsBoundary(t, index);
    GrowExtends(t, start, seg.next, seg.buf);
    var (next, bytes, ends) := Grow(t, seg.next);
    assert bytes == [] ==> seg.buf + bytes == seg.buf;
  }

  lemma NewEarlyOk(t: Tracker, start: nat, confirm: bool)
    requires Shaped(t) && start < MAX_DATA_SHREDS_PER_SLOT
    ensures EarlyOk(t, start, Early(start, [], [], false), confirm)
  {
  }

  lemma EarlyReplaced(st: State, slot: nat, start: nat, seg: Early, confirm: bool)
    requires Inv(st, confirm) && slot in st.slots && Shaped(st.slots[slot]) && EarlyOk(st.slots[slot], start, seg, confirm)
    requires EarlyAt(st, slot, start).next <= seg.next
    ensures Inv(st.(early := st.early[(slot, start) := seg]), confirm)
  {
    hide Sound, EarlyOk, PublishedOk, HandedOk, Fresh, Apart, Later;
    var r := st.(early := st.early[(slot, start) := seg]);
    assert EarliesOk(r, confirm);
    assert Trackers(r) == Trackers(st);
    assert PublishedsOk(r);
    assert HandedsOk(r, confirm);
  }

  lemma HandOverAppends(st: State, h: HandOver, confirm: bool)
    requires Inv(st, confirm) && h.slot in st.slots && Shaped(st.slots[h.slot]) && HandedOk(st.slots[h.slot], h, confirm)
    requires (h.slot, h.start) in st.early && h.next == st.early[(h.slot, h.start)].next
    ensures Inv(st.(handed := st.handed + [h]), confirm)
  {
    hide Sound, EarlyOk, PublishedOk, HandedOk, Fresh, Apart;
    var r := st.(handed := st.handed + [h]);
    assert Trackers(r) == Trackers(st) && Trackers(st)[h.slot] == st.slots[h.slot];
    assert PublishedsOk(r);
    forall i | 0 <= i < |st.handed| ensures Later(st.handed[i], h) {
    }
    hide Later;
    assert HandedsOk(r, confirm);
  }

  lemma EarlyAtOk(st: State, slot: nat, confirm: bool)
    requires Inv(st, confirm)
    ensures AllShaped(st)
    ensures slot in st.slots ==> Sound(st.slots[slot]) && Shaped(st.slots[slot])
    ensures slot in st.slots ==>
              forall start: nat :: start < MAX_DATA_SHREDS_PER_SLOT ==> EarlyOk(st.slots[slot], start, EarlyAt(st, slot, start), confirm)
  {
    hide PublishedOk, HandedOk, Later, Apart;
    assert forall other :: other in st.slots ==> Sound(st.slots[other]);
    if slot in st.slots {
      forall start: nat | start < MAX_DATA_SHREDS_PER_SLOT ensures EarlyOk(st.slots[slot], start, EarlyAt(st, slot, start), confirm) {
        hide EarlyOk, Sound;
        SoundIsShaped(st.slots[slot]);
        NewEarlyOk(st.slots[slot], start, confirm);
      }
    }
  }

  lemma DetectOneOk(st: State, slot: nat, index: nat, confirm: bool)
    requires Inv(st, confirm)
    ensures AllShaped(st) && Inv(DetectOne(st, slot, index, confirm), confirm)
  {
    hide Inv, AllShaped, Sound, EarlyOk, Contiguous, Deshred, Hits, CreatesIn, Grow, StartWalk, Boundary;
    EarlyAtOk(st, slot, confirm);
    if slot in st.slots && SegmentStart(st.slots[slot], index).Some? {
      var t := st.slots[slot];
      var start := SegmentStart(t, index).value;
      var seg := EarlyAt(st, slot, start);
      SegmentStartIsBoundary(t, index);
      if !seg.complete {
        DetectSegment(t, index, start, seg, confirm);
        var r := DetectOne(st, slot, index, confirm);
        DetectedOk(st, r, slot, start, Grow(t, seg.next).0, confirm);
      }
    }
  }

  /** A grown early segment and its hand-over, if any, are recorded in place. */
  lemma DetectedOk(st: State, r: State, slot: nat, start: nat, next: nat, confirm: bool)
    requires Inv(st, confirm) && slot in st.slots && Shaped(st.slots[slot]) && (slot, start) in r.early
    requires r == st.(early := st.early[(slot, start) := r.early[(slot, start)]], handed := r.handed)
    requires r.early[(slot, start)].next == next && EarlyOk(st.slots[slot], start, r.early[(slot, start)], confirm)
    requires EarlyAt(st, slot, start).next <= next
    requires r.handed == st.handed
          || exists h: HandOver :: r.handed == st.handed + [h] && h.slot == slot && h.start == start && h.next == next
                                   && HandedOk(st.slots[slot], h, confirm)
    ensures Inv(r, confirm)
  {
    hide Inv, EarlyOk, HandedOk;
    EarlyReplaced(st, slot, start, r.early[(slot, start)], confirm);
    var grown := st.(early := r.early);
    if r.handed != st.handed {
      HandOverAppends(grown, r.handed[|st.handed|], confirm);
    }
  }

  lemma {:induction false} DeshredIsContiguous(t: Tracker, start: nat, next: nat)
    requires Shaped(t) && start <= next && Deshred(t, start, next).Some?
    ensures forall i :: start <= i < next ==> Readable(t, i)
    decreases next
  {
    if start != next {
      DeshredIsContiguous(t, start, next - 1);
    }
  }

  /** Publishing marks exactly the segment, and what it publishes is recorded truthfully. */
  lemma PublishSegment(t: Tracker, slot: nat, fecSet: nat, payload: seq<Byte>)
    requires Sound(t) && GetIndexes(t, fecSet).Some?
    requires var seg := GetIndexes(t, fecSet).value; seg.start <= seg.end + 1 && Deshred(t, seg.start, seg.end + 1) == Some(payload)
    ensures var seg := GetIndexes(t, fecSet).value;
            && seg.start <= seg.end < MAX_DATA_SHREDS_PER_SLOT && AllHeld(t, seg.start, seg.end + 1)
            && (forall i :: seg.start <= i <= seg.end ==> !t.deshredded[i])
            && var u := MarkRange(t, seg.start, seg.end + 1);
               Sound(u) && Grows(t, u) && PublishedOk(u, Published(slot, seg, payload))
  {
    hide GetIndexes, MarkRange, Readable;
    var seg := GetIndexes(t, fecSet).value;
    GetIndexesIsExact(t, fecSet, seg);
    PublishIsSound(t, fecSet);
    MarkRangeMarks(t, seg.start, seg.end + 1);
    var u := MarkRange(t, seg.start, seg.end + 1);
    DeshredIsContiguous(t, seg.start, seg.end + 1);
    assert Contiguous(t, seg.start, seg.end + 1);
    assert Grows(t, u);
    hide Sound;
    ContiguousGrows(t, u, seg.start, seg.end + 1);
    DeshredGrows(t, u, seg.start, seg.end + 1);
  }

  lemma PublishOk(st: State, slot: nat, fecSet: nat, pumpOnly: bool, confirm: bool)
    requires Inv(st, confirm) && slot in st.slots
    ensures Inv(Publish(st, slot, fecSet, pumpOnly, confirm), confirm)
  {
    var t := st.slots[slot];
    var r := Publish(st, slot, fecSet, pumpOnly, confirm);
    if r != st {
      var seg := GetIndexes(t, fecSet).value;
      SegmentIsHeld(t, fecSet);
      var payload := Deshred(t, seg.start, seg.end + 1).value;
      PublishSegment(t, slot, fecSet, payload);
      var u := MarkRange(t, seg.start, seg.end + 1);
      SlotGrows(st, slot, u, confirm);
      PublishAppends(st, st.(slots := st.slots[slot := u]), Published(slot, seg, payload), confirm);
    }
  }

  lemma PublishedApart(t: Tracker, p: Published, q: Published)
    requires Shaped(t) && PublishedOk(t, q) && p.seg.end < MAX_DATA_SHREDS_PER_SLOT
    requires forall i :: p.seg.start <= i <= p.seg.end ==> !t.deshredded[i]
    ensures p.seg.start <= p.seg.end ==> p.seg.end < q.seg.start || q.seg.end < p.seg.start
  {
    var i := Max(p.seg.start, q.seg.start);
    assert q.seg.start <= i <= q.seg.end ==> t.deshredded[i];
  }

  lemma PublishAppends(st: State, st1: State, p: Published, confirm: bool)
    requires Inv(st, confirm) && Inv(st1, confirm) && p.slot in st.slots && p.slot in st1.slots && st1.published == st.published
    requires p.seg.start <= p.seg.end < MAX_DATA_SHREDS_PER_SLOT
    requires forall i :: p.seg.start <= i <= p.seg.end ==> !st.slots[p.slot].deshredded[i]
    requires PublishedOk(st1.slots[p.slot], p)
    ensures Inv(st1.(published := st1.published + [p]), confirm)
  {
    hide Sound, EarlyOk, PublishedOk, HandedOk, Fresh, Later;
    var r := st1.(published := st1.published + [p]);
    forall i | 0 <= i < |st.published| ensures Apart(st.published[i], p) {
      var q := st.published[i];
      if q.slot == p.slot {
        assert Trackers(st)[q.slot] == st.slots[q.slot];
        SoundIsShaped(st.slots[q.slot]);
        PublishedApart(st.slots[q.slot], p, q);
      }
    }
    hide Apart;
    assert Trackers(r) == Trackers(st1) && Trackers(st1)[p.slot] == st1.slots[p.slot];
    assert PublishedsOk(r);
  }

  lemma {:induction false} GivesFresh(pool: seq<Tracker>, slots: map<nat, Tracker>, order: seq<nat>)
    requires forall i :: 0 <= i < |pool| ==> pool[i] == Fresh()
    requires forall i :: 0 <= i < |order| ==> order[i] in slots && Shaped(slots[order[i]]) && CleanAbove(slots[order[i]])
    ensures forall i :: 0 <= i < |GiveAll(pool, slots, order)| ==> GiveAll(pool, slots, order)[i] == Fresh()
    decreases |order|
  {
    hide CleanAbove, Fresh;
    if order != [] {
      ResetIsFresh(slots[order[0]]);
      GivesFresh(Give(pool, slots[order[0]]), slots, order[1..]);
    }
  }

  lemma EvictKeepsUnion(st: State)
    requires forall slot :: slot in st.archive ==> slot !in st.slots
    ensures LiveSlots(st) + (st.archive + StaleSlots(st)) == Trackers(st)
    ensures forall slot :: slot in st.archive + StaleSlots(st) ==> slot !in LiveSlots(st)
  {
  }

  lemma EvictKeepsTrackers(st: State, order: seq<nat>)
    requires TrackersOk(st) && AllShaped(st) && ListsStale(st, order)
    ensures TrackersOk(EvictStale(st, order)) && Trackers(EvictStale(st, order)) == Trackers(st)
  {
    assert forall i :: 0 <= i < |order| ==> Sound(st.slots[order[i]]);
    GivesFresh(st.pool, st.slots, order);
    EvictKeepsUnion(st);
    hide Sound, Fresh, GiveAll;
    var r := EvictStale(st, order);
    forall slot | slot in r.archive ensures Sound(r.archive[slot]) && slot < Threshold(r) {
      assert slot in st.archive || slot in StaleSlots(st);
    }
  }

  lemma EvictEarlies(st: State, order: seq<nat>, confirm: bool)
    requires AllShaped(st) && ListsStale(st, order) && TrackersOk(st) && EarliesOk(st, confirm)
    requires TrackersOk(EvictStale(st, order))
    ensures EarliesOk(EvictStale(st, order), confirm)
  {
    hide Sound, Fresh, GiveAll, EarlyOk, TrackersOk, StaleSlots;
  }

  lemma EvictHandeds(st: State, order: seq<nat>, confirm: bool)
    requires AllShaped(st) && ListsStale(st, order) && TrackersOk(st) && HandedsOk(st, confirm)
    requires TrackersOk(EvictStale(st, order)) && Trackers(EvictStale(st, order)) == Trackers(st)
    ensures HandedsOk(EvictStale(st, order), confirm)
  {
    hide Sound, Fresh, GiveAll, HandedOk, Later, Trackers, TrackersOk, StaleSlots;
  }

  lemma EvictOk(st: State, order: seq<nat>, confirm: bool)
    requires Inv(st, confirm) && AllShaped(st) && ListsStale(st, order)
    ensures Inv(EvictStale(st, order), confirm)
  {
    EvictKeepsTrackers(st, order);
    hide TrackersOk, EarliesOk, PublishedsOk, HandedsOk, Trackers, ListsStale, AllShaped, GiveAll, StaleSlots;
    EvictEarlies(st, order, confirm);
    EvictHandeds(st, order, confirm);
    PublishedsKept(st, EvictStale(st, order));
  }

  lemma ClearTouched(st: State, confirm: bool)
    requires Inv(st, confirm)
    ensures AllShaped(st) && Inv(st.(touched := {}), confirm)
  {
    assert forall slot :: slot in st.slots ==> Sound(st.slots[slot]);
    hide Sound, Fresh, EarlyOk, PublishedOk, HandedOk, Apart, Later;
    assert Trackers(st.(touched := {})) == Trackers(st);
    assert TrackersOk(st.(touched := {}));
  }

  lemma EndBatchOk(st: State, order: seq<nat>, confirm: bool)
    requires Inv(st, confirm) && ListsStale(st, order)
    ensures AllShaped(st) && Inv(EndBatch(st, order), confirm)
  {
    hide Inv;
    ClearTouched(st, confirm);
    if |st.slots| > MAX_PROCESSING_AGE {
      EvictOk(st, order, confirm);
    }
  }

  // ---- runs ----------------------------------------------------------------------------------

  /**
   What `reconstruct_shreds` does, event by event.  A batch is arrivals, an early pass, recoveries,
   a second early pass, publications and its end, in that order; nothing below needs the order.
   */
  datatype Event =
    | Arrive(shred: Shred)
    | EarlyPass(slot: nat, index: nat)
    | Recovered(slot: nat, fecSet: nat, shreds: seq<Shred>)
    | TryPublish(slot: nat, fecSet: nat, pumpOnly: bool)
    | BatchEnd(order: seq<nat>)

  /** Recovery and publication look only at the FEC sets that gained a shred in this batch. */
  ghost predicate Enabled(st: State, e: Event) {
    match e
    case Arrive(shred) => InRange(shred)
    case EarlyPass(_, _) => true
    case Recovered(slot, fecSet, shreds) => (slot, fecSet) in st.touched && forall i :: 0 <= i < |shreds| ==> InRange(shreds[i])
    case TryPublish(slot, fecSet, _) => (slot, fecSet) in st.touched
    case BatchEnd(order) => ListsStale(st, order)
  }

  ghost function Step(st: State, e: Event, confirm: bool): (r: State)
    requires Inv(st, confirm) && Enabled(st, e)
    ensures Inv(r, confirm)
  {
    match e
    case Arrive(shred) => IngestOk(st, shred, confirm); Ingest(st, shred)
    case EarlyPass(slot, index) => DetectOneOk(st, slot, index, confirm); DetectOne(st, slot, index, confirm)
    case Recovered(slot, fecSet, shreds) => RecoverOk(st, slot, fecSet, shreds, confirm); Recover(st, slot, fecSet, shreds)
    case TryPublish(slot, fecSet, pumpOnly) => PublishOk(st, slot, fecSet, pumpOnly, confirm); Publish(st, slot, fecSet, pumpOnly, confirm)
    case BatchEnd(order) => EndBatchOk(st, order, confirm); EndBatch(st, order)
  }

  /** The state a run ends in; an event that is not possible changes nothing. */
  ghost function Run(events: seq<Event>, confirm: bool): (r: State)
    ensures Inv(r, confirm)
  {
    if events == [] then Init
    else
      var st, e := Run(events[..|events| - 1], confirm), events[|events| - 1];
      if Enabled(st, e) then Step(st, e, confirm) else st
  }

  /** Every tracker of every run is sound, and every pooled tracker is as good as new. */
  lemma TrackersOfRunsAreSound(events: seq<Event>, confirm: bool)
    ensures var st := Run(events, confirm);
            && (forall slot :: slot in st.slots ==> Sound(st.slots[slot]))
            && Take(st.pool).0 == Fresh()
  {
    hide Run, Sound;
  }

  /** No data shred is covered by two published segments. */
  lemma NoShredPublishedTwice(events: seq<Event>, confirm: bool, slot: nat, index: nat, i: nat, j: nat)
    requires var ps := Run(events, confirm).published;
             && i < |ps| && j < |ps|
             && ps[i].slot == slot && ps[i].seg.start <= index <= ps[i].seg.end
             && ps[j].slot == slot && ps[j].seg.start <= index <= ps[j].seg.end
    ensures i == j
  {
    hide Run, TrackersOk, EarliesOk, HandedsOk, PublishedOk;
    var ps := Run(events, confirm).published;
    assert i < j ==> Apart(ps[i], ps[j]);
    assert j < i ==> Apart(ps[j], ps[i]);
  }

  lemma StepKeepsArchive(st: State, e: Event, confirm: bool, slot: nat)
    requires Inv(st, confirm) && Enabled(st, e) && slot in st.archive
    ensures slot in Step(st, e, confirm).archive
  {
    hide Inv, Update, GetIndexes, MarkRange, Deshred, Publishes, CreatesIn, Hits, SegmentStart, Grow, RecoverInto, Accepts, GiveAll;
  }

  /** Once evicted, a slot is never tracked again. */
  lemma {:induction false} EvictedStaysOut(events: seq<Event>, more: seq<Event>, confirm: bool, slot: nat)
    requires slot in Run(events, confirm).archive
    ensures slot in Run(events + more, confirm).archive && slot !in Run(events + more, confirm).slots
    decreases |more|
  {
    hide Step, Enabled, EarliesOk, PublishedsOk, HandedsOk, Sound;
    if more == [] {
      assert events + more == events;
    } else {
      var before := events + more[..|more| - 1];
      assert (events + more)[..|events + more| - 1] == before;
      assert (events + more)[|events + more| - 1] == more[|more| - 1];
      EvictedStaysOut(events, more[..|more| - 1], confirm, slot);
      if Enabled(Run(before, confirm), more[|more| - 1]) {
        StepKeepsArchive(Run(before, confirm), more[|more| - 1], confirm, slot);
      }
    }
  }

  lemma {:induction false} DeshredPrefix(t: Tracker, start: nat, n: nat, m: nat)
    requires Shaped(t) && start <= n <= m && Deshred(t, start, m).Some?
    ensures Deshred(t, start, n).Some? && Deshred(t, start, n).value <= Deshred(t, start, m).value
    decreases m
  {
    if n < m {
      DeshredPrefix(t, start, n, m - 1);
    }
  }

  /** Successive hand-overs for one segment: each list extends the ones before it. */
  lemma HandOversOnlyExtend(events: seq<Event>, confirm: bool, i: nat, j: nat)
    requires var hs := Run(events, confirm).handed;
             i < j < |hs| && hs[i].slot == hs[j].slot && hs[i].start == hs[j].start
    ensures Run(events, confirm).handed[i].txs <= Run(events, confirm).handed[j].txs
  {
    hide Run, Sound, EarlyOk, PublishedOk, Readable, Deshred, Hits, CreatesIn, Apart;
    var st := Run(events, confirm);
    var h, k := st.handed[i], st.handed[j];
    assert Later(h, k);
    var t := Trackers(st)[h.slot];
    SoundIsShaped(t);
    DeshredPrefix(t, h.start, h.next, k.next);
    var buf := Deshred(t, k.start, k.next).value;
    var n := |Deshred(t, h.start, h.next).value|;
    assert buf[..n] == Deshred(t, h.start, h.next).value;
    HandOversExtend(buf, n, confirm);
  }

  // ---- hand-overs and published segments -------------------------------------------------------

  /** What an early segment from `start` has grown to does not reach into a published segment from outside. */
  predicate KeepsOut(slot: nat, start: nat, next: nat, p: Published) {
    slot == p.slot && start < p.seg.start ==> next <= p.seg.start
  }

  ghost predicate KeptOut(st: State) {
    && (forall key, j :: key in st.early && 0 <= j < |st.published| ==>
          KeepsOut(key.0, key.1, st.early[key].next, st.published[j]))
    && (forall i, j :: 0 <= i < |st.handed| && 0 <= j < |st.published| ==>
          KeepsOut(st.handed[i].slot, st.handed[i].start, st.handed[i].next, st.published[j]))
  }

  lemma {:induction false} GrowStopsAtPublished(t: Tracker, i: nat, m: nat)
    requires Shaped(t) && i <= m < MAX_DATA_SHREDS_PER_SLOT && t.deshredded[m]
    ensures Grow(t, i).0 <= m
    decreases m - i
  {
    if i < m {
      GrowStopsAtPublished(t, i + 1, m);
    }
  }

  lemma GrownKeepsOut(t: Tracker, slot: nat, start: nat, i: nat, p: Published)
    requires Shaped(t) && KeepsOut(slot, start, i, p) && p.slot == slot && PublishedOk(t, p)
    ensures KeepsOut(slot, start, Grow(t, i).0, p)
  {
    hide Grow;
    if start < p.seg.start {
      GrowStopsAtPublished(t, i, p.seg.start);
    }
  }

  lemma DetectKeepsOut(st: State, slot: nat, index: nat, confirm: bool)
    requires Inv(st, confirm) && AllShaped(st) && KeptOut(st)
    ensures KeptOut(DetectOne(st, slot, index, confirm))
  {
    if slot in st.slots && SegmentStart(st.slots[slot], index).Some? {
      var t := st.slots[slot];
      var start := SegmentStart(t, index).value;
      var seg := EarlyAt(st, slot, start);
      GrownKeepsOutOfAll(st, slot, start, confirm);
      hide Inv, Grow, SegmentStart, Hits, CreatesIn, KeptOut, KeepsOut;
      if !seg.complete {
        RecordsKeepOut(st, DetectOne(st, slot, index, confirm), slot, start, Grow(t, seg.next).0);
      }
    }
  }

  lemma RecordsKeepOut(st: State, r: State, slot: nat, start: nat, next: nat)
    requires KeptOut(st) && r.published == st.published && (slot, start) in r.early && r.early[(slot, start)].next == next
    requires r.early == st.early[(slot, start) := r.early[(slot, start)]]
    requires forall j :: 0 <= j < |st.published| ==> KeepsOut(slot, start, next, st.published[j])
    requires |r.handed| <= |st.handed| + 1 && forall i :: 0 <= i < |r.handed| ==>
               if i < |st.handed| then r.handed[i] == st.handed[i]
               else r.handed[i].slot == slot && r.handed[i].start == start && r.handed[i].next == next
    ensures KeptOut(r)
  {
    hide KeepsOut;
  }

  lemma GrownKeepsOutOfAll(st: State, slot: nat, start: nat, confirm: bool)
    requires Inv(st, confirm) && AllShaped(st) && KeptOut(st) && slot in st.slots
    ensures forall j :: 0 <= j < |st.published| ==>
              KeepsOut(slot, start, Grow(st.slots[slot], EarlyAt(st, slot, start).next).0, st.published[j])
  {
    hide Grow, EarlyOk, HandedOk, Sound, PublishedOk, Apart, Later;
    var t, next := st.slots[slot], EarlyAt(st, slot, start).next;
    forall j | 0 <= j < |st.published| ensures KeepsOut(slot, start, Grow(t, next).0, st.published[j]) {
      if st.published[j].slot == slot {
        GrownKeepsOut(t, slot, start, next, st.published[j]);
      }
    }
  }

  lemma HeldIsKnown(t: Tracker, start: nat, next: nat, i: nat)
    requires Sound(t) && Contiguous(t, start, next) && start <= i < next
    ensures t.status[i] != Unknown && (i < next - 1 ==> t.status[i] == NotDataComplete)
  {
    assert Readable(t, i);
    assert Holds(t, i);
  }

  /** A segment that is bounded now has no early segment reaching over its left end. */
  lemma BoundedKeepsOut(t: Tracker, fecSet: nat, slot: nat, start: nat, next: nat, payload: seq<Byte>)
    requires Sound(t) && GetIndexes(t, fecSet).Some? && Contiguous(t, start, next)
    ensures KeepsOut(slot, start, next, Published(slot, GetIndexes(t, fecSet).value, payload))
  {
    var seg := GetIndexes(t, fecSet).value;
    GetIndexesIsExact(t, fecSet, seg);
    SoundIsShaped(t);
    hide Contiguous, Readable, Spans, Sound, GetIndexes;
    if start < seg.start < next {
      HeldIsKnown(t, start, next, seg.start - 1);
    }
  }

  lemma PublishKeepsOut(st: State, slot: nat, fecSet: nat, pumpOnly: bool, confirm: bool)
    requires Inv(st, confirm) && KeptOut(st) && slot in st.slots
    ensures KeptOut(Publish(st, slot, fecSet, pumpOnly, confirm))
  {
    var t, r := st.slots[slot], Publish(st, slot, fecSet, pumpOnly, confirm);
    if r != st {
      var p := r.published[|st.published|];
      forall key | key in st.early ensures KeepsOut(key.0, key.1, st.early[key].next, p) {
        if key.0 == slot {
          assert EarlyOk(t, key.1, st.early[key], confirm);
          BoundedKeepsOut(t, fecSet, slot, key.1, st.early[key].next, p.payload);
        }
      }
      forall i | 0 <= i < |st.handed| ensures KeepsOut(st.handed[i].slot, st.handed[i].start, st.handed[i].next, p) {
        var h := st.handed[i];
        if h.slot == slot {
          assert HandedOk(t, h, confirm);
          BoundedKeepsOut(t, fecSet, slot, h.start, h.next, p.payload);
        }
      }
      hide Inv, GetIndexes, Deshred, Publishes, MarkRange, KeepsOut;
    }
  }

  lemma UntouchedKeepsOut(st: State, r: State)
    requires KeptOut(st) && r.published == st.published && r.handed == st.handed
    requires forall key :: key in r.early ==> key in st.early && r.early[key] == st.early[key]
    ensures KeptOut(r)
  {
    hide KeepsOut;
  }

  lemma StepKeepsOut(st: State, e: Event, confirm: bool)
    requires Inv(st, confirm) && Enabled(st, e) && KeptOut(st)
    ensures KeptOut(Step(st, e, confirm))
  {
    var r := Step(st, e, confirm);
    match e {
      case EarlyPass(slot, index) => DetectOneOk(st, slot, index, confirm); DetectKeepsOut(st, slot, index, confirm);
      case TryPublish(slot, fecSet, pumpOnly) => PublishKeepsOut(st, slot, fecSet, pumpOnly, confirm);
      case _ =>
        OthersLeaveRecords(st, e, confirm);
        hide Inv, KeptOut, Step;
        UntouchedKeepsOut(st, r);
    }
  }

  /** Arrivals, recoveries and batch ends grow no early segment, hand nothing over and publish nothing. */
  lemma OthersLeaveRecords(st: State, e: Event, confirm: bool)
    requires Inv(st, confirm) && Enabled(st, e) && !e.EarlyPass? && !e.TryPublish?
    ensures var r := Step(st, e, confirm);
            && r.published == st.published && r.handed == st.handed
            && forall key :: key in r.early ==> key in st.early && r.early[key] == st.early[key]
  {
    hide Inv, Update, RecoverInto, Accepts, GiveAll, Take, StaleSlots, LiveSlots, MarkRecovered, TooOld, AllShaped, Threshold;
  }

  lemma {:induction false} RunsKeepOut(events: seq<Event>, confirm: bool)
    ensures KeptOut(Run(events, confirm))
  {
    hide KeepsOut, Step, Enabled, Inv;
    if events != [] {
      var st, e := Run(events[..|events| - 1], confirm), events[|events| - 1];
      RunsKeepOut(events[..|events| - 1], confirm);
      if Enabled(st, e) {
        StepKeepsOut(st, e, confirm);
      }
    }
  }

  /** A hand-over and a published segment that share a shred are one segment. */
  lemma SameSegment(t: Tracker, h: HandOver, p: Published, confirm: bool)
    requires Shaped(t) && HandedOk(t, h, confirm) && PublishedOk(t, p) && h.slot == p.slot && KeepsOut(h.slot, h.start, h.next, p)
    requires Max(h.start, p.seg.start) < Min(h.next, p.seg.end + 1)
    ensures h.start == p.seg.start && h.next <= p.seg.end + 1
  {
    hide Deshred, CreatesIn, Hits, Readable;
  }

  /** What was handed over early is a prefix of what the fast path finds in the published segment, and so of what its full decode wants. */
  lemma EarlyIsInPublished(events: seq<Event>, confirm: bool, i: nat, j: nat)
    requires var st := Run(events, confirm);
             && i < |st.handed| && j < |st.published|
             && st.handed[i].slot == st.published[j].slot
             && Max(st.handed[i].start, st.published[j].seg.start) < Min(st.handed[i].next, st.published[j].seg.end + 1)
    ensures var st := Run(events, confirm);
            var payload := st.published[j].payload;
            && (CreatesIn(payload, Hits(payload, confirm), confirm).Some? ==>
                  st.handed[i].txs <= CreatesIn(payload, Hits(payload, confirm), confirm).value)
            && (DecodeSegment(payload).Some? ==> st.handed[i].txs <= Keep(AllTransactions(DecodeSegment(payload).value), confirm))
  {
    hide Run, Sound, EarlyOk, Contiguous, Deshred, Hits, CreatesIn, Apart, Later, DecodeSegment;
    var st := Run(events, confirm);
    var h, p := st.handed[i], st.published[j];
    var t := Trackers(st)[h.slot];
    SoundIsShaped(t);
    RunsKeepOut(events, confirm);
    SameSegment(t, h, p, confirm);
    DeshredPrefix(t, h.start, h.next, p.seg.end + 1);
    var n := |Deshred(t, h.start, h.next).value|;
    assert p.payload[..n] == Deshred(t, h.start, h.next).value;
    if CreatesIn(p.payload, Hits(p.payload, confirm), confirm).Some? {
      HandOversExtend(p.payload, n, confirm);
    }
    if DecodeSegment(p.payload).Some? {
      EarlyIsInFullDecode(p.payload, n, confirm);
    }
  }

  /** The guard against guessed starts has no effect: whether a payload is published does not depend on how its start was found. */
  lemma GuessedStartsArePublishedAlike(payload: seq<Byte>, pumpOnly: bool, confirm: bool)
    ensures Publishes(payload, true, pumpOnly, confirm) <==> Publishes(payload, false, pumpOnly, confirm)
    ensures Publishes(payload, true, true, confirm) <==> CreatesIn(payload, Hits(payload, confirm), confirm).Some?
  {
    if DecodeSegment(payload).Some? {
      FastPathIsFullDecode(payload, confirm);
    }
  }

  /** A run that publishes, from a guessed start, a segment that does not deserialize. */
  lemma UnmarkedIsPublishedUnread(slot: nat, confirm: bool)
    ensures Run([Arrive(Shred(slot, 1, 1, Data(true, Some([0])))), TryPublish(slot, 1, true)], confirm).published
         == [Published(slot, Segment(1, 1, true), [0])]
    ensures DecodeSegment([0]) == None
  {
    hide Inv, Publishes, MarkRange;
    var shred := Shred(slot, 1, 1, Data(true, Some([0])));
    var arrive, publish := Arrive(shred), TryPublish(slot, 1, true);
    var t := Update(Fresh(), shred);
    var st := State(map[slot := t], [], slot, map[], {(slot, 1)}, [], [], map[]);
    assert [arrive, publish][..1] == [arrive];
    assert Run([arrive], confirm) == st by { FirstShred(shred, confirm); }
    assert GetIndexes(t, 1) == Some(Segment(1, 1, true));
    assert Deshred(t, 1, 1) == Some([]);
    var data: seq<Byte> := [0];
    assert [] + data == data;
    assert Deshred(t, 1, 2) == Some(data);
    assert Publishes([0], true, true, confirm) by { NoRoomForAMark([0], confirm); GuessedStartsArePublishedAlike([0], true, confirm); }
    assert Run([arrive, publish], confirm) == Publish(st, slot, 1, true, confirm);
  }

  /** A payload shorter than a discriminator holds none. */
  lemma NoRoomForAMark(payload: seq<Byte>, confirm: bool)
    requires |payload| < DISC_LEN
    ensures Hits(payload, confirm) == [] && CreatesIn(payload, Hits(payload, confirm), confirm).Some?
  {
    DiscriminatorsAreUnbordered(confirm);
    SomeElement(Hits(payload, confirm));
  }

  /** Publication does happen: a segment of one shred is published, as it is, by the next attempt. */
  lemma OneShredSegmentIsPublished(shred: Shred, pumpOnly: bool, confirm: bool)
    requires shred.index == 0 && shred.fecSet == 0 && shred.kind.Data? && shred.kind.complete && shred.kind.data.Some?
    requires Publishes(shred.kind.data.value, false, pumpOnly, confirm)
    ensures Run([Arrive(shred), TryPublish(shred.slot, 0, pumpOnly)], confirm).published
         == [Published(shred.slot, Segment(0, 0, false), shred.kind.data.value)]
  {
    hide Inv, Publishes, MarkRange;
    var arrive, publish := Arrive(shred), TryPublish(shred.slot, 0, pumpOnly);
    var t := Update(Fresh(), shred);
    var st := State(map[shred.slot := t], [], shred.slot, map[], {(shred.slot, 0)}, [], [], map[]);
    assert [arrive, publish][..1] == [arrive] && [arrive][..0] == [];
    assert Run([], confirm) == Init;
    assert Run([arrive], confirm) == st by { FirstShred(shred, confirm); }
    assert GetIndexes(t, 0) == Some(Segment(0, 0, false));
    assert Deshred(t, 0, 0) == Some([]);
    assert [] + shred.kind.data.value == shred.kind.data.value;
    assert Deshred(t, 0, 1) == Some(shred.kind.data.value);
    assert Run([arrive, publish], confirm) == Publish(st, shred.slot, 0, pumpOnly, confirm);
  }

  lemma FirstShred(shred: Shred, confirm: bool)
    requires InRange(shred) && shred.kind.Data?
    ensures Run([Arrive(shred)], confirm)
         == State(map[shred.slot := Update(Fresh(), shred)], [], shred.slot, map[], {(shred.slot, shred.fecSet)}, [], [], map[])
  {
    hide Inv, Update;
    assert [Arrive(shred)][..0] == [];
    assert Run([], confirm) == Init;
    FreshAccepts(shred);
  }

  lemma FreshAccepts(shred: Shred)
    requires InRange(shred) && shred.kind.Data?
    ensures Accepts(Fresh(), shred)
  {
  }

  // ---- what each event does achieve ------------------------------------------------------------

  /** A data shred of a slot not too old is held from its arrival on, unless its set is closed or its place taken. */
  lemma ArrivalIsStored(st: State, shred: Shred, confirm: bool)
    requires Inv(st, confirm) && InRange(shred) && shred.kind.Data? && shred.slot + 50 >= st.highest
    requires shred.slot in st.slots ==>
               Sound(st.slots[shred.slot]) && Shaped(st.slots[shred.slot])
               && !st.slots[shred.slot].recovered[shred.fecSet] && st.slots[shred.slot].status[shred.index] == Unknown
    ensures AllShaped(st)
    ensures var r := Ingest(st, shred);
            && shred.slot in r.slots && Shaped(r.slots[shred.slot])
            && r.slots[shred.slot].shreds[shred.index] == Some(shred)
            && (shred.slot, shred.fecSet) in r.touched && r.highest == Max(st.highest, shred.slot)
  {
    EarlyAtOk(st, shred.slot, confirm);
    hide EarliesOk, PublishedsOk, HandedsOk, AllShaped;
    assert st.pool != [] ==> st.pool[|st.pool| - 1] == Fresh();
    hide Inv;
    var t := WithSlot(st, shred.slot).slots[shred.slot];
    FreshIsSound();
    hide Fresh;
    assert Sound(t) && Shaped(t) && !t.recovered[shred.fecSet] && t.status[shred.index] == Unknown by { FreshIsOpen(shred); }
    OpenIsUnpublished(t, shred);
    OpenPlacesTake(t, shred);
  }

  lemma FreshIsOpen(shred: Shred)
    requires InRange(shred)
    ensures Shaped(Fresh()) && !Fresh().recovered[shred.fecSet] && Fresh().status[shred.index] == Unknown
  {
  }

  lemma OpenIsUnpublished(t: Tracker, shred: Shred)
    requires Sound(t) && Shaped(t) && InRange(shred) && t.status[shred.index] == Unknown
    ensures !t.deshredded[shred.index]
  {
    assert Covered(t, shred.index);
  }

  /** An early pass over an unfinished segment hands over what the fast path finds in all its shreds so far. */
  lemma EarlyPassHandsOver(st: State, slot: nat, index: nat, start: nat, confirm: bool)
    requires Inv(st, confirm) && slot in st.slots && Shaped(st.slots[slot]) && SegmentStart(st.slots[slot], index) == Some(start)
    requires !EarlyAt(st, slot, start).complete && Grow(st.slots[slot], EarlyAt(st, slot, start).next).1 != []
    ensures AllShaped(st)
    ensures var next := Grow(st.slots[slot], EarlyAt(st, slot, start).next).0;
            && start <= next && Deshred(st.slots[slot], start, next).Some?
            && var buf := Deshred(st.slots[slot], start, next).value;
               var found := CreatesIn(buf, Hits(buf, confirm), confirm);
               DetectOne(st, slot, index, confirm).handed
               == if found.Some? && found.value != [] then st.handed + [HandOver(slot, start, next, found.value)] else st.handed
  {
    hide Inv, AllShaped, Sound, EarlyOk, Contiguous, Deshred, Hits, CreatesIn, Grow, StartWalk, Boundary;
    EarlyAtOk(st, slot, confirm);
    SegmentStartIsBoundary(st.slots[slot], index);
    DetectSegment(st.slots[slot], index, start, EarlyAt(st, slot, start), confirm);
    ContiguousIsOrdered(st.slots[slot], start, Grow(st.slots[slot], EarlyAt(st, slot, start).next).0);
  }

  lemma ContiguousIsOrdered(t: Tracker, start: nat, next: nat)
    requires Shaped(t) && Contiguous(t, start, next)
    ensures start <= next
  {
  }

  /** A run hands over the wanted transactions of a segment whose end has not arrived: no right bound is waited for. */
  lemma UnfinishedSegmentIsHandedOver(slot: nat, fecSet: nat, es: seq<Entry>, rest: seq<Byte>, confirm: bool)
    requires SegmentOk(es) && Keep(AllTransactions(es), confirm) != [] && fecSet < MAX_DATA_SHREDS_PER_SLOT
    ensures var shred := Shred(slot, 0, fecSet, Data(false, Some(EncodeSegment(es) + rest)));
            var arrived, passed := Run([Arrive(shred)], confirm), Run([Arrive(shred), EarlyPass(slot, 0)], confirm);
            && slot in arrived.slots && Shaped(arrived.slots[slot]) && GetIndexes(arrived.slots[slot], 0) == None
            && passed.handed == [HandOver(slot, 0, 1, Keep(AllTransactions(es), confirm))]
  {
    hide Inv, EncodeSegment, Hits, CreatesIn, Keep, AllTransactions, Step, DetectOne;
    var payload := EncodeSegment(es) + rest;
    var shred := Shred(slot, 0, fecSet, Data(false, Some(payload)));
    var arrive, pass := Arrive(shred), EarlyPass(slot, 0);
    FastPathOnEncoded(es, rest, confirm);
    assert payload != [] by { NothingWanted(confirm); }
    FirstShred(shred, confirm);
    var st := Run([arrive], confirm);
    var t := st.slots[slot];
    assert [arrive, pass][..1] == [arrive];
    assert t == Update(Fresh(), shred);
    FreshAccepts(shred);
    assert GetIndexes(t, 0) == None;
    OneShredGrows(t, payload);
    EarlyPassHandsOver(st, slot, 0, 0, confirm);
    EarlyPassIsDetect(st, slot, 0, confirm);
    assert Run([arrive, pass], confirm) == DetectOne(st, slot, 0, confirm);
    assert st.handed + [HandOver(slot, 0, 1, Keep(AllTransactions(es), confirm))] == [HandOver(slot, 0, 1, Keep(AllTransactions(es), confirm))];
  }

  lemma EarlyPassIsDetect(st: State, slot: nat, index: nat, confirm: bool)
    requires Inv(st, confirm)
    ensures AllShaped(st) && Step(st, EarlyPass(slot, index), confirm) == DetectOne(st, slot, index, confirm)
  {
    hide Inv, DetectOne;
    DetectOneOk(st, slot, index, confirm);
  }

  /** An empty payload holds no wanted transaction. */
  lemma NothingWanted(confirm: bool)
    ensures CreatesIn([], Hits([], confirm), confirm) == Some([])
  {
    NoRoomForAMark([], confirm);
  }

  lemma OneShredGrows(t: Tracker, payload: seq<Byte>)
    requires Shaped(t) && Readable(t, 0) && t.shreds[0].value.kind.data.value == payload && t.status[0] == NotDataComplete
    requires !t.deshredded[0] && !t.deshredded[1] && t.shreds[1] == None
    ensures Grow(t, 0) == (1, payload, false) && Deshred(t, 0, 1) == Some(payload)
  {
    assert Grow(t, 1) == (1, [], false);
    assert payload + [] == payload && [] + payload == payload;
    assert Deshred(t, 0, 0) == Some([]);
  }

  /** A recovered data shred that was missing is held afterwards, and counts as new. */
  lemma {:induction false} RecoveryStores(t: Tracker, shreds: seq<Shred>, i: nat)
    requires Sound(t) && Shaped(t) && i < |shreds| && forall k :: 0 <= k < |shreds| ==> InRange(shreds[k])
    requires InRange(shreds[i]) && shreds[i].kind.Data? && !t.recovered[shreds[i].fecSet] && t.status[shreds[i].index] == Unknown
    ensures var (r, n) := RecoverInto(t, shreds);
            n > 0 && r.recovered == t.recovered && r.status[shreds[i].index] != Unknown
            && r.shreds[shreds[i].index].Some? && r.shreds[shreds[i].index].value in shreds
    decreases |shreds|
  {
    var front, last := shreds[..|shreds| - 1], shreds[|shreds| - 1];
    RecoverIntoKeeps(t, front);
    var r := RecoverInto(t, front).0;
    RecoverIntoGrows(t, front);
    if i < |front| {
      RecoveryStores(t, front, i);
      UpdateGrows(r, last);
    } else if r.status[last.index] == Unknown {
      OpenPlacesTake(r, last);
    } else {
      RecoveredCameFromList(t, front, last.index);
    }
  }

  lemma {:induction false} RecoverIntoKeeps(t: Tracker, shreds: seq<Shred>)
    requires Shaped(t) && forall k :: 0 <= k < |shreds| ==> InRange(shreds[k])
    ensures RecoverInto(t, shreds).0.recovered == t.recovered
  {
    if shreds != [] {
      RecoverIntoKeeps(t, shreds[..|shreds| - 1]);
    }
  }

  lemma {:induction false} RecoveredCameFromList(t: Tracker, shreds: seq<Shred>, index: nat)
    requires Sound(t) && Shaped(t) && index < MAX_DATA_SHREDS_PER_SLOT && t.status[index] == Unknown
    requires forall k :: 0 <= k < |shreds| ==> InRange(shreds[k])
    ensures var (r, n) := RecoverInto(t, shreds);
            r.status[index] != Unknown ==> n > 0 && r.shreds[index].Some? && r.shreds[index].value in shreds
  {
    if shreds != [] {
      RecoveredCameFromList(t, shreds[..|shreds| - 1], index);
    }
  }

  /** Recovery of a set closes it as soon as one shred was new; from then on it is refused whole. */
  lemma RecoveryClosesTheSet(st: State, slot: nat, fecSet: nat, shreds: seq<Shred>)
    requires slot in st.slots && Shaped(st.slots[slot]) && fecSet < MAX_DATA_SHREDS_PER_SLOT
    requires forall i :: 0 <= i < |shreds| ==> InRange(shreds[i])
    ensures var r := Recover(st, slot, fecSet, shreds);
            && Shaped(r.slots[slot])
            && (r.slots[slot].recovered[fecSet] <==> st.slots[slot].recovered[fecSet] || RecoverInto(st.slots[slot], shreds).1 > 0)
  {
    RecoverIntoKeeps(st.slots[slot], shreds);
    hide RecoverInto;
  }

  /** Past 150 slots, the end of a batch evicts exactly those more than 50 behind the highest; below, none. */
  lemma BatchEndEvictsExactly(st: State, order: seq<nat>, slot: nat)
    requires AllShaped(st) && ListsStale(st, order)
    ensures var r := EndBatch(st, order);
            && r.touched == {} && r.highest == st.highest
            && (slot in r.slots <==> slot in st.slots && (|st.slots| <= 150 || slot + 50 >= st.highest))
            && (slot in r.slots ==> r.slots[slot] == st.slots[slot])
            && (slot in st.slots && slot !in r.slots ==> slot in r.archive && r.archive[slot] == st.slots[slot])
  {
    hide GiveAll, ListsStale, AllShaped;
  }

  /** A recovery that yields nothing new changes nothing and closes nothing. */
  lemma {:induction false} NothingNewIsNoRecovery(t: Tracker, shreds: seq<Shred>)
    requires Shaped(t) && forall i :: 0 <= i < |shreds| ==> InRange(shreds[i]) && !Accepts(t, shreds[i])
    ensures RecoverInto(t, shreds) == (t, 0)
  {
    if shreds != [] {
      NothingNewIsNoRecovery(t, shreds[..|shreds| - 1]);
    }
  }

  /**
   A segment whose shreds are all there, unpublished and readable, from a boundary to a DATA_COMPLETE, is
   published at the next attempt on any of its indexes, if it deserializes or holds nothing searched for.
   */
  lemma BoundedSegmentIsPublished(st: State, slot: nat, fecSet: nat, seg: Segment, payload: seq<Byte>, pumpOnly: bool, confirm: bool)
    requires slot in st.slots && Sound(st.slots[slot]) && Shaped(st.slots[slot])
    requires Spans(st.slots[slot], fecSet, seg.start, seg.end) && Boundary(st.slots[slot], seg.start, seg.unknownStart)
    requires Deshred(st.slots[slot], seg.start, seg.end + 1) == Some(payload)
    requires DecodeSegment(payload).Some? || (pumpOnly && Hits(payload, confirm) == [])
    ensures var r := Publish(st, slot, fecSet, pumpOnly, confirm);
            && r.published == st.published + [Published(slot, seg, payload)]
            && Shaped(r.slots[slot])
            && (forall i :: 0 <= i < MAX_DATA_SHREDS_PER_SLOT ==>
                  (r.slots[slot].deshredded[i] <==> st.slots[slot].deshredded[i] || seg.start <= i <= seg.end))
  {
    hide GetIndexes, MarkRange, Sound, Deshred, Spans, Boundary, Publishes;
    var t := st.slots[slot];
    GetIndexesIsExact(t, fecSet, seg);
    SegmentIsHeld(t, fecSet);
    MarkRangeMarks(t, seg.start, seg.end + 1);
    ReadOrUnmarked(payload, seg.unknownStart, pumpOnly, confirm);
  }

  lemma ReadOrUnmarked(payload: seq<Byte>, unknownStart: bool, pumpOnly: bool, confirm: bool)
    requires DecodeSegment(payload).Some? || (pumpOnly && Hits(payload, confirm) == [])
    ensures Publishes(payload, unknownStart, pumpOnly, confirm)
  {
    hide Hits, DecodeSegment;
  }
}
