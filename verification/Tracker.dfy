/**
 The per-slot record of which data shreds arrived (`ShredsStateTracker` in `deshred.rs`), first as
 a value with the functions that update it, then as the object that is updated in place.
 */
module Tracker {
  import opened Prelude

  const MAX_DATA_SHREDS_PER_SLOT: nat := 32768

  datatype Status = Unknown | NotDataComplete | DataComplete

  /** `complete` is DATA_COMPLETE or last-in-slot; `data` is absent when the payload is unreadable. */
  datatype Kind = Data(complete: bool, data: Option<seq<Byte>>) | Code

  datatype Shred = Shred(slot: nat, index: nat, fecSet: nat, kind: Kind)

  /** What parsing a shred guarantees about its indexes. */
  predicate InRange(shred: Shred) {
    shred.index < MAX_DATA_SHREDS_PER_SLOT && shred.fecSet < MAX_DATA_SHREDS_PER_SLOT
  }

  datatype Tracker = Tracker(
    status: seq<Status>, shreds: seq<Option<Shred>>, recovered: seq<bool>, deshredded: seq<bool>, highWater: nat)

  predicate Shaped(t: Tracker) {
    |t.status| == |t.shreds| == |t.recovered| == |t.deshredded| == MAX_DATA_SHREDS_PER_SLOT
  }

  function Fresh(): (t: Tracker)
    ensures Shaped(t)
  {
    var n := MAX_DATA_SHREDS_PER_SLOT;
    Tracker(seq(n, _ => Unknown), seq(n, _ => None), seq(n, _ => false), seq(n, _ => false), 0)
  }

  /** Nothing above the high-water mark was ever written. */
  ghost predicate CleanAbove(t: Tracker)
    requires Shaped(t)
  {
    forall i :: t.highWater < i < MAX_DATA_SHREDS_PER_SLOT ==>
      t.status[i] == Unknown && t.shreds[i] == None && !t.recovered[i] && !t.deshredded[i]
  }

  /** Position `i` holds the data shred of index `i`, flagged as its status says. */
  predicate Holds(t: Tracker, i: nat)
    requires Shaped(t) && i < MAX_DATA_SHREDS_PER_SLOT
  {
    match t.shreds[i]
    case None => t.status[i] == Unknown
    case Some(s) =>
      && InRange(s) && s.index == i && s.kind.Data?
      && t.status[i] == if s.kind.complete then DataComplete else NotDataComplete
  }

  /** A deshredded shred is known, and unless it ends its segment so is the next, deshredded with it. */
  predicate Covered(t: Tracker, i: nat)
    requires Shaped(t) && i < MAX_DATA_SHREDS_PER_SLOT
  {
    t.deshredded[i] ==>
      && t.status[i] != Unknown
      && (t.status[i] == NotDataComplete ==> i + 1 < MAX_DATA_SHREDS_PER_SLOT && t.deshredded[i + 1])
  }

  /** What holds of every tracker a run can produce. */
  ghost predicate Sound(t: Tracker) {
    && Shaped(t) && CleanAbove(t)
    && (forall i :: 0 <= i < MAX_DATA_SHREDS_PER_SLOT ==> Holds(t, i))
    && (forall i :: 0 <= i < MAX_DATA_SHREDS_PER_SLOT ==> Covered(t, i))
  }

  lemma FreshIsSound()
    ensures Sound(Fresh())
  {
  }

  // ---- recycling -----------------------------------------------------------------------------

  /** Clears only the touched prefix. */
  function Reset(t: Tracker): Tracker
    requires Shaped(t)
  {
    var n := Min(t.highWater + 1, MAX_DATA_SHREDS_PER_SLOT);
    Tracker(
      seq(n, _ => Unknown) + t.status[n..],
      seq(n, _ => None) + t.shreds[n..],
      seq(n, _ => false) + t.recovered[n..],
      seq(n, _ => false) + t.deshredded[n..],
      0)
  }

  /** After any history of use, a reset tracker is a newly constructed one. */
  lemma ResetIsFresh(t: Tracker)
    requires Shaped(t) && CleanAbove(t)
    ensures Reset(t) == Fresh()
  {
    var r, f := Reset(t), Fresh();
    assert r.status == f.status;
    assert r.shreds == f.shreds;
    assert r.recovered == f.recovered;
    assert r.deshredded == f.deshredded;
  }

  const MAX_POOLED_TRACKERS: nat := 8

  function Take(pool: seq<Tracker>): (Tracker, seq<Tracker>) {
    if pool == [] then (Fresh(), []) else (pool[|pool| - 1], pool[..|pool| - 1])
  }

  function Give(pool: seq<Tracker>, t: Tracker): seq<Tracker>
    requires Shaped(t)
  {
    if |pool| < MAX_POOLED_TRACKERS then pool + [Reset(t)] else pool
  }

  // ---- writes --------------------------------------------------------------------------------

  function Touch(t: Tracker, index: nat): Tracker {
    if index > t.highWater then t.(highWater := index) else t
  }

  /** `update_state_tracker` stores a shred it will take; it refuses what it already has. */
  predicate Accepts(t: Tracker, shred: Shred)
    requires Shaped(t) && InRange(shred)
  {
    && !t.recovered[shred.fecSet]
    && (shred.kind.Data? ==> t.shreds[shred.index] == None && t.status[shred.index] == Unknown)
  }

  function Update(t: Tracker, shred: Shred): Tracker
    requires Shaped(t) && InRange(shred)
  {
    if !Accepts(t, shred) || shred.kind.Code? then t
    else Touch(t.(shreds := t.shreds[shred.index := Some(shred)],
                  status := t.status[shred.index := if shred.kind.complete then DataComplete else NotDataComplete]), shred.index)
  }

  lemma UpdateIsSound(t: Tracker, shred: Shred)
    requires Sound(t) && InRange(shred)
    ensures Sound(Update(t, shred))
  {
    var r := Update(t, shred);
    forall i | 0 <= i < MAX_DATA_SHREDS_PER_SLOT ensures Holds(r, i) && Covered(r, i) {
      assert Holds(t, i) && Covered(t, i);
    }
  }

  function MarkRecovered(t: Tracker, fecSet: nat): Tracker
    requires Shaped(t) && fecSet < MAX_DATA_SHREDS_PER_SLOT
  {
    Touch(t.(recovered := t.recovered[fecSet := true]), fecSet)
  }

  lemma MarkRecoveredIsSound(t: Tracker, fecSet: nat)
    requires Sound(t) && fecSet < MAX_DATA_SHREDS_PER_SLOT
    ensures Sound(MarkRecovered(t, fecSet))
  {
    var r := MarkRecovered(t, fecSet);
    forall i | 0 <= i < MAX_DATA_SHREDS_PER_SLOT ensures Holds(r, i) && Covered(r, i) {
      assert Holds(t, i) && Covered(t, i);
    }
  }

  /** Marks one published shred, and its whole FEC set, as done. */
  function MarkOne(t: Tracker, shred: Shred): Tracker
    requires Shaped(t) && InRange(shred)
  {
    t.(recovered := t.recovered[shred.fecSet := true],
       deshredded := t.deshredded[shred.index := true],
       highWater := Max(t.highWater, Max(shred.fecSet, shred.index)))
  }

  /** Every position of `[lo, hi)` holds a shred. */
  predicate AllHeld(t: Tracker, lo: nat, hi: nat)
    requires Shaped(t) && hi <= MAX_DATA_SHREDS_PER_SLOT
  {
    forall i :: lo <= i < hi ==> t.shreds[i].Some? && InRange(t.shreds[i].value)
  }

  /** Marks the shreds of `[lo, hi)`, in order. */
  function MarkRange(t: Tracker, lo: nat, hi: nat): (r: Tracker)
    requires Shaped(t) && lo <= hi <= MAX_DATA_SHREDS_PER_SLOT && AllHeld(t, lo, hi)
    ensures Shaped(r) && r.status == t.status && r.shreds == t.shreds
    decreases hi
  {
    if lo == hi then t else MarkOne(MarkRange(t, lo, hi - 1), t.shreds[hi - 1].value)
  }

  lemma {:induction false} MarkRangeMarks(t: Tracker, lo: nat, hi: nat)
    requires Sound(t) && lo <= hi <= MAX_DATA_SHREDS_PER_SLOT && AllHeld(t, lo, hi)
    ensures var r := MarkRange(t, lo, hi);
            && CleanAbove(r)
            && forall i :: 0 <= i < MAX_DATA_SHREDS_PER_SLOT ==> (r.deshredded[i] <==> t.deshredded[i] || lo <= i < hi)
    decreases hi
  {
    if lo < hi {
      MarkRangeMarks(t, lo, hi - 1);
      assert Holds(t, hi - 1);
    }
  }

  // ---- segment boundaries --------------------------------------------------------------------

  datatype Segment = Segment(start: nat, end: nat, unknownStart: bool)

  /** The first DataComplete at or after `i`, if everything up to it is known and not yet published. */
  function RightEnd(t: Tracker, i: nat): Option<nat>
    requires Shaped(t)
    decreases MAX_DATA_SHREDS_PER_SLOT - i
  {
    if i >= MAX_DATA_SHREDS_PER_SLOT || t.deshredded[i] then None
    else match t.status[i]
         case Unknown => None
         case DataComplete => Some(i)
         case NotDataComplete => RightEnd(t, i + 1)
  }

  /** The left boundary of the segment that has reached back to `i`, and whether it is a guess. */
  function LeftStart(t: Tracker, i: nat): Option<(nat, bool)>
    requires Shaped(t) && i < MAX_DATA_SHREDS_PER_SLOT
  {
    if i == 0 then Some((0, false))
    else match t.status[i - 1]
         case NotDataComplete => if t.deshredded[i - 1] then None else LeftStart(t, i - 1)
         case DataComplete => Some((i, false))
         case Unknown => Some((i, true))
  }

  function GetIndexes(t: Tracker, index: nat): Option<Segment>
    requires Shaped(t)
  {
    match RightEnd(t, index)
    case None => None
    case Some(end) =>
      match LeftStart(t, index)
      case None => None
      case Some((start, unknown)) => Some(Segment(start, end, unknown))
  }

  /** The same boundary for the early path, which does not guess. */
  function StartWalk(t: Tracker, i: nat): Option<nat>
    requires Shaped(t) && i < MAX_DATA_SHREDS_PER_SLOT
  {
    if i == 0 then Some(0)
    else match t.status[i - 1]
         case DataComplete => Some(i)
         case NotDataComplete => if t.deshredded[i - 1] then Some(i) else StartWalk(t, i - 1)
         case Unknown => None
  }

  function SegmentStart(t: Tracker, index: nat): Option<nat>
    requires Shaped(t)
  {
    if index >= MAX_DATA_SHREDS_PER_SLOT || t.deshredded[index] then None else StartWalk(t, index)
  }

  /** `[start, end]` is unpublished shreds up to and including a DataComplete, and `index` is among them. */
  ghost predicate Spans(t: Tracker, index: nat, start: nat, end: nat)
    requires Shaped(t)
  {
    && start <= index <= end < MAX_DATA_SHREDS_PER_SLOT
    && t.status[end] == DataComplete && !t.deshredded[end]
    && forall i :: start <= i < end ==> t.status[i] == NotDataComplete && !t.deshredded[i]
  }

  /** What stands before `start` makes it a boundary. */
  predicate Boundary(t: Tracker, start: nat, unknown: bool)
    requires Shaped(t) && start <= MAX_DATA_SHREDS_PER_SLOT
  {
    if start == 0 then !unknown else t.status[start - 1] == if unknown then Unknown else DataComplete
  }

  lemma {:induction false} RightEndIsFirst(t: Tracker, i: nat, end: nat)
    requires Shaped(t) && i < MAX_DATA_SHREDS_PER_SLOT
    ensures RightEnd(t, i) == Some(end) <==> Spans(t, i, i, end)
    decreases MAX_DATA_SHREDS_PER_SLOT - i
  {
    if t.status[i] == NotDataComplete && i + 1 < MAX_DATA_SHREDS_PER_SLOT {
      RightEndIsFirst(t, i + 1, end);
    }
  }

  lemma {:induction false} LeftStartIsBoundary(t: Tracker, i: nat)
    requires Sound(t) && i < MAX_DATA_SHREDS_PER_SLOT && !t.deshredded[i]
    ensures LeftStart(t, i).Some?
    ensures var (start, unknown) := LeftStart(t, i).value;
            && start <= i && Boundary(t, start, unknown)
            && (forall k :: start <= k < i ==> t.status[k] == NotDataComplete && !t.deshredded[k])
            && StartWalk(t, i) == if unknown then None else Some(start)
  {
    if i > 0 {
      assert Covered(t, i - 1);
      if t.status[i - 1] == NotDataComplete {
        LeftStartIsBoundary(t, i - 1);
      }
    }
  }

  /** `get_indexes` finds exactly the unpublished, fully known segment around `index`. */
  lemma GetIndexesIsExact(t: Tracker, index: nat, seg: Segment)
    requires Sound(t)
    ensures GetIndexes(t, index) == Some(seg) <==> Spans(t, index, seg.start, seg.end) && Boundary(t, seg.start, seg.unknownStart)
  {
    if index < MAX_DATA_SHREDS_PER_SLOT && !t.deshredded[index] {
      RightEndIsFirst(t, index, seg.end);
      LeftStartIsBoundary(t, index);
      var (start, unknown) := LeftStart(t, index).value;
      if Spans(t, index, seg.start, seg.end) && Boundary(t, seg.start, seg.unknownStart) {
        assert Spans(t, index, index, seg.end);
        BoundaryUnique(t, index, start, seg.start);
      }
      if GetIndexes(t, index) == Some(seg) {
        assert Spans(t, index, index, seg.end);
      }
    }
  }

  lemma BoundaryUnique(t: Tracker, index: nat, a: nat, b: nat)
    requires Shaped(t) && a <= index && b <= index < MAX_DATA_SHREDS_PER_SLOT
    requires a == 0 || t.status[a - 1] != NotDataComplete
    requires b == 0 || t.status[b - 1] != NotDataComplete
    requires forall k :: a <= k < index ==> t.status[k] == NotDataComplete
    requires forall k :: b <= k < index ==> t.status[k] == NotDataComplete
    ensures a == b
  {
  }

  /** The two boundary walks agree: a known start is the early path's start, a guessed one is none. */
  lemma StartsAgree(t: Tracker, index: nat)
    requires Sound(t) && GetIndexes(t, index).Some?
    ensures var seg := GetIndexes(t, index).value;
            SegmentStart(t, index) == if seg.unknownStart then None else Some(seg.start)
  {
    LeftStartIsBoundary(t, index);
  }

  /** A segment start is the first shred or follows a DataComplete: the walk never stops at a deshredded shred. */
  lemma SegmentStartIsBoundary(t: Tracker, index: nat)
    requires Sound(t) && SegmentStart(t, index).Some?
    ensures var s := SegmentStart(t, index).value;
            && s <= index && Boundary(t, s, false)
            && forall k :: s <= k < index ==> t.status[k] == NotDataComplete && !t.deshredded[k]
  {
    LeftStartIsBoundary(t, index);
  }

  /** The early path's start, exactly: nothing to the right of `index` is asked for. */
  lemma SegmentStartIsExact(t: Tracker, index: nat, s: nat)
    requires Sound(t) && index < MAX_DATA_SHREDS_PER_SLOT && !t.deshredded[index]
    ensures SegmentStart(t, index) == Some(s)
       <==> s <= index && Boundary(t, s, false) && forall k :: s <= k < index ==> t.status[k] == NotDataComplete
  {
    LeftStartIsBoundary(t, index);
    var (start, unknown) := LeftStart(t, index).value;
    if s <= index && Boundary(t, s, false) && forall k :: s <= k < index ==> t.status[k] == NotDataComplete {
      BoundaryUnique(t, index, start, s);
    }
  }

  /** The range `get_indexes` returns is held in full, so unwrapping it never fails. */
  lemma SegmentIsHeld(t: Tracker, index: nat)
    requires Sound(t) && GetIndexes(t, index).Some?
    ensures var seg := GetIndexes(t, index).value;
            seg.start <= seg.end < MAX_DATA_SHREDS_PER_SLOT && AllHeld(t, seg.start, seg.end + 1)
  {
    var seg := GetIndexes(t, index).value;
    GetIndexesIsExact(t, index, seg);
    forall i | seg.start <= i < seg.end + 1 ensures t.shreds[i].Some? && InRange(t.shreds[i].value) {
      assert Holds(t, i);
    }
  }

  lemma PublishIsSound(t: Tracker, index: nat)
    requires Sound(t) && GetIndexes(t, index).Some?
    ensures var seg := GetIndexes(t, index).value;
            && seg.start <= seg.end < MAX_DATA_SHREDS_PER_SLOT && AllHeld(t, seg.start, seg.end + 1)
            && Sound(MarkRange(t, seg.start, seg.end + 1))
  {
    var seg := GetIndexes(t, index).value;
    GetIndexesIsExact(t, index, seg);
    SegmentIsHeld(t, index);
    MarkRangeMarks(t, seg.start, seg.end + 1);
    var r := MarkRange(t, seg.start, seg.end + 1);
    forall i | 0 <= i < MAX_DATA_SHREDS_PER_SLOT ensures Holds(r, i) && Covered(r, i) {
      assert Holds(t, i) && Covered(t, i);
    }
  }

  // ---- what stays closed ---------------------------------------------------------------------

  /** Some shred of `[lo, hi)` belongs to that FEC set. */
  predicate HasSet(t: Tracker, lo: nat, hi: nat, fecSet: nat)
    requires Shaped(t) && hi <= MAX_DATA_SHREDS_PER_SLOT && AllHeld(t, lo, hi)
  {
    exists i :: lo <= i < hi && t.shreds[i].value.fecSet == fecSet
  }

  /** Publishing closes exactly the FEC sets of the shreds it publishes. */
  lemma {:induction false} PublishingClosesSets(t: Tracker, lo: nat, hi: nat, fecSet: nat)
    requires Shaped(t) && lo <= hi <= MAX_DATA_SHREDS_PER_SLOT && AllHeld(t, lo, hi) && fecSet < MAX_DATA_SHREDS_PER_SLOT
    ensures MarkRange(t, lo, hi).recovered[fecSet] <==> t.recovered[fecSet] || HasSet(t, lo, hi, fecSet)
    decreases hi
  {
    if lo < hi {
      PublishingClosesSets(t, lo, hi - 1, fecSet);
      assert HasSet(t, lo, hi, fecSet) <==> HasSet(t, lo, hi - 1, fecSet) || t.shreds[hi - 1].value.fecSet == fecSet;
    }
  }

  /** Of a closed FEC set no shred is taken any more, data or code. */
  lemma ClosedSetsRefuse(t: Tracker, shred: Shred)
    requires Shaped(t) && InRange(shred) && t.recovered[shred.fecSet]
    ensures !Accepts(t, shred) && Update(t, shred) == t
  {
  }

  /** A data shred whose set is open and whose place is free is taken, and readable from then on. */
  lemma OpenPlacesTake(t: Tracker, shred: Shred)
    requires Sound(t) && InRange(shred) && shred.kind.Data? && !t.recovered[shred.fecSet] && t.status[shred.index] == Unknown
    ensures Accepts(t, shred) && Update(t, shred).shreds[shred.index] == Some(shred)
    ensures Update(t, shred).status[shred.index] == if shred.kind.complete then DataComplete else NotDataComplete
  {
    assert Holds(t, shred.index);
  }

  // ---- the object ----------------------------------------------------------------------------

  method FillPrefix<T>(a: array<T>, n: nat, value: T)
    requires n <= a.Length
    modifies a
    ensures a[..] == seq(n, _ => value) + old(a[n..])
  {
    forall i | 0 <= i < n {
      a[i] := value;
    }
  }

  class ShredsStateTracker {
    const status: array<Status>
    const shreds: array<Option<Shred>>
    const recovered: array<bool>
    const deshredded: array<bool>
    var highWater: nat

    ghost predicate Valid()
      reads this
    {
      && status.Length == shreds.Length == recovered.Length == deshredded.Length == MAX_DATA_SHREDS_PER_SLOT
      && recovered != deshredded
    }

    /** The tracker this object currently stands for. */
    ghost function View(): (t: Tracker)
      requires Valid()
      reads this, status, shreds, recovered, deshredded
      ensures Shaped(t)
    {
      Tracker(status[..], shreds[..], recovered[..], deshredded[..], highWater)
    }

    constructor ()
      ensures Valid() && View() == Fresh()
      ensures fresh(status) && fresh(shreds) && fresh(recovered) && fresh(deshredded)
    {
      status := new Status[MAX_DATA_SHREDS_PER_SLOT](_ => Unknown);
      shreds := new Option<Shred>[MAX_DATA_SHREDS_PER_SLOT](_ => None);
      recovered := new bool[MAX_DATA_SHREDS_PER_SLOT](_ => false);
      deshredded := new bool[MAX_DATA_SHREDS_PER_SLOT](_ => false);
      highWater := 0;
    }

    method MarkTouched(index: nat)
      requires Valid()
      modifies this`highWater
      ensures Valid() && View() == Touch(old(View()), index)
    {
      if index > highWater {
        highWater := index;
      }
    }

    /** `reset`: clears the touched prefix only, yet leaves a tracker as good as new. */
    method Clear()
      requires Valid() && CleanAbove(View())
      modifies this`highWater, status, shreds, recovered, deshredded
      ensures Valid() && View() == Fresh()
    {
      ghost var before := View();
      var n := Min(highWater + 1, MAX_DATA_SHREDS_PER_SLOT);
      FillPrefix(status, n, Unknown);
      FillPrefix(shreds, n, None);
      FillPrefix(recovered, n, false);
      FillPrefix(deshredded, n, false);
      highWater := 0;
      assert View() == Reset(before);
      hide Fresh, Reset, CleanAbove;
      ResetIsFresh(before);
    }

    method UpdateStateTracker(shred: Shred) returns (accepted: bool)
      requires Valid() && InRange(shred)
      modifies this`highWater, status, shreds
      ensures Valid() && View() == Update(old(View()), shred)
      ensures accepted == Accepts(old(View()), shred)
    {
      if recovered[shred.fecSet] {
        return false;
      }
      if shred.kind.Data? && (shreds[shred.index].Some? || status[shred.index] != Unknown) {
        return false;
      }
      if shred.kind.Data? {
        shreds[shred.index] := Some(shred);
        status[shred.index] := if shred.kind.complete then DataComplete else NotDataComplete;
        MarkTouched(shred.index);
      }
      return true;
    }

    method FindSegment(index: nat) returns (r: Option<Segment>)
      requires Valid()
      ensures r == GetIndexes(View(), index)
    {
      if index >= status.Length {
        return None;
      }
      var end := index;
      while end < status.Length
        invariant index <= end <= status.Length
        invariant RightEnd(View(), index) == RightEnd(View(), end)
      {
        if deshredded[end] {
          return None;
        }
        match status[end] {
          case Unknown => return None;
          case DataComplete => break;
          case NotDataComplete => end := end + 1;
        }
      }
      if end == status.Length {
        return None;
      }
      assert RightEnd(View(), index) == Some(end);
      if end == 0 || index == 0 {
        return Some(Segment(0, end, false));
      }
      var start, next := index, index - 1;
      while true
        invariant 0 <= next && next + 1 == start <= index
        invariant LeftStart(View(), index) == LeftStart(View(), start)
        decreases next
      {
        match status[next] {
          case NotDataComplete =>
            if deshredded[next] {
              return None;
            }
            if next == 0 {
              return Some(Segment(0, end, false));
            }
            start, next := next, next - 1;
          case DataComplete => return Some(Segment(start, end, false));
          case Unknown => return Some(Segment(start, end, true));
        }
      }
    }

    method FindStart(index: nat) returns (r: Option<nat>)
      requires Valid()
      ensures r == SegmentStart(View(), index)
    {
      if index >= status.Length || deshredded[index] {
        return None;
      }
      var start: nat := index;
      while start > 0
        invariant start <= index
        invariant StartWalk(View(), index) == StartWalk(View(), start)
      {
        match status[start - 1] {
          case DataComplete => return Some(start);
          case NotDataComplete =>
            if deshredded[start - 1] {
              return Some(start);
            }
            start := start - 1;
          case Unknown => return None;
        }
      }
      return Some(0);
    }

    /** The marking of a published segment, one shred at a time. */
    method MarkDeshredded(seg: Segment)
      requires Valid() && seg.start <= seg.end < MAX_DATA_SHREDS_PER_SLOT && AllHeld(View(), seg.start, seg.end + 1)
      modifies this`highWater, recovered, deshredded
      ensures Valid() && View() == MarkRange(old(View()), seg.start, seg.end + 1)
    {
      ghost var before := View();
      for i := seg.start to seg.end + 1
        invariant View() == MarkRange(before, seg.start, i)
        invariant shreds[..] == before.shreds
      {
        var shred := shreds[i].value;
        assert before.shreds[i] == Some(shred);
        recovered[shred.fecSet] := true;
        deshredded[shred.index] := true;
        var high := Max(shred.fecSet, shred.index);
        if high > highWater {
          highWater := high;
        }
      }
    }
  }
}
