/**
 Finding instruction discriminators (`create_offsets_into` and the incremental scan of
 `deshred.rs`): the left-to-right, non-overlapping searches together find every occurrence, and
 searching only new bytes plus a seven byte overlap finds what a search of everything would.
 */
module Scan {
  import opened Prelude

  const DISC_LEN: nat := 8
  const DISC_CREATE: seq<Byte> := [24, 30, 200, 40, 5, 28, 7, 119]
  const DISC_CREATE_V2: seq<Byte> := [214, 144, 76, 236, 95, 139, 49, 180]
  const DISC_BUY: seq<Byte> := [102, 6, 61, 18, 1, 218, 235, 234]
  const DISC_BUY_V2: seq<Byte> := [184, 23, 238, 97, 103, 197, 211, 61]
  const DISC_BUY_EXACT_SOL_IN: seq<Byte> := [56, 252, 116, 8, 158, 223, 205, 95]

  /** The discriminators searched for; buys only matter to the confirmation trigger. */
  function Searched(confirm: bool): seq<seq<Byte>> {
    [DISC_CREATE_V2, DISC_CREATE] + if confirm then [DISC_BUY, DISC_BUY_V2, DISC_BUY_EXACT_SOL_IN] else []
  }

  /** One of the first `n` searched discriminators starts at `o`. */
  predicate MarkedByFirst(buf: seq<Byte>, o: nat, n: nat, confirm: bool)
    requires n <= |Searched(confirm)|
  {
    exists d :: 0 <= d < n && At(buf, o, Searched(confirm)[d])
  }

  predicate Marked(buf: seq<Byte>, o: nat, confirm: bool) {
    MarkedByFirst(buf, o, |Searched(confirm)|, confirm)
  }

  predicate Strict(s: seq<nat>) {
    forall i, j :: 0 <= i < j < |s| ==> s[i] < s[j]
  }

  /** The reference scan: every marked offset below `n`, each once, in order. */
  function HitsBelow(buf: seq<Byte>, n: nat, confirm: bool): (hits: seq<nat>)
    ensures Strict(hits) && forall i :: 0 <= i < |hits| ==> hits[i] < n
  {
    if n == 0 then []
    else if Marked(buf, n - 1, confirm) then HitsBelow(buf, n - 1, confirm) + [n - 1]
    else HitsBelow(buf, n - 1, confirm)
  }

  lemma {:induction false} HitsBelowAreMarked(buf: seq<Byte>, n: nat, confirm: bool)
    ensures forall o: nat :: o in HitsBelow(buf, n, confirm) <==> o < n && Marked(buf, o, confirm)
  {
    hide Marked;
    if n > 0 {
      HitsBelowAreMarked(buf, n - 1, confirm);
      var before := HitsBelow(buf, n - 1, confirm);
      forall o: nat ensures o in HitsBelow(buf, n, confirm) <==> o < n && Marked(buf, o, confirm) {
        assert o in HitsBelow(buf, n, confirm) <==> o in before || (o == n - 1 && Marked(buf, n - 1, confirm));
      }
    }
  }

  function Hits(buf: seq<Byte>, confirm: bool): (hits: seq<nat>)
    ensures Strict(hits)
    ensures forall o: nat :: o in hits <==> Marked(buf, o, confirm)
  {
    HitsBelowAreMarked(buf, |buf|, confirm);
    assert forall o: nat :: Marked(buf, o, confirm) ==> o < |buf|;
    HitsBelow(buf, |buf|, confirm)
  }

  // ---- sorted sets of offsets ---------------------------------------------------------------

  lemma SomeElement(s: seq<nat>)
    ensures s == [] || exists o: nat :: o in s
  {
    if s != [] {
      assert s[0] in s;
    }
  }

  lemma {:induction false} StrictUnique(a: seq<nat>, b: seq<nat>)
    requires Strict(a) && Strict(b) && forall o: nat :: o in a <==> o in b
    ensures a == b
  {
    SomeElement(b);
    if a != [] {
      var x := a[|a| - 1];
      assert x in b;
      var y := b[|b| - 1];
      assert y in a;
      assert x == y;
      var a', b' := a[..|a| - 1], b[..|b| - 1];
      forall o: nat ensures o in a' <==> o in b' {
        assert o in a' <==> o in a && o != x;
        assert o in b' <==> o in b && o != y;
      }
      StrictUnique(a', b');
    }
  }

  function Insert(x: nat, s: seq<nat>): (r: seq<nat>)
    ensures multiset(r) == multiset(s) + multiset{x}
  {
    if s == [] || x <= s[0] then [x] + s
    else
      assert s == [s[0]] + s[1..];
      [s[0]] + Insert(x, s[1..])
  }

  lemma {:induction false} InsertAscends(x: nat, s: seq<nat>)
    requires Ascends(s)
    ensures Ascends(Insert(x, s))
  {
    if s != [] && x > s[0] {
      InsertAscends(x, s[1..]);
      var r := Insert(x, s[1..]);
      forall i | 0 <= i < |r| ensures s[0] <= r[i] {
        assert r[i] in multiset(r);
        assert r[i] == x || r[i] in multiset(s[1..]);
      }
    }
  }

  function Sort(s: seq<nat>): (r: seq<nat>)
    ensures multiset(r) == multiset(s) && Ascends(r)
    ensures forall o: nat :: o in r <==> o in s
  {
    if s == [] then []
    else
      assert s == [s[0]] + s[1..];
      InsertAscends(s[0], Sort(s[1..]));
      var r := Insert(s[0], Sort(s[1..]));
      assert forall o: nat :: o in r <==> o in multiset(r);
      assert forall o: nat :: o in s <==> o in multiset(s);
      r
  }

  lemma StrictSnoc(r: seq<nat>, s: seq<nat>)
    requires |s| >= 2 && Ascends(s) && s[|s| - 2] != s[|s| - 1]
    requires Strict(r) && forall o: nat :: o in r <==> o in s[..|s| - 1]
    ensures Strict(r + [s[|s| - 1]])
  {
    forall i | 0 <= i < |r| ensures r[i] < s[|s| - 1] {
      assert r[i] in r && r[i] in s[..|s| - 1];
    }
  }

  /** `dedup` on an ascending list. */
  function Dedup(s: seq<nat>): (r: seq<nat>)
    requires Ascends(s)
    ensures Strict(r)
    ensures forall o: nat :: o in r <==> o in s
  {
    if |s| <= 1 then s
    else if s[|s| - 2] == s[|s| - 1] then
      assert s == s[..|s| - 1] + [s[|s| - 1]];
      Dedup(s[..|s| - 1])
    else
      assert s == s[..|s| - 1] + [s[|s| - 1]];
      var r := Dedup(s[..|s| - 1]);
      StrictSnoc(r, s);
      r + [s[|s| - 1]]
  }

  lemma {:induction false} StrictHasNoRepeats(s: seq<nat>)
    requires Strict(s)
    ensures forall o: nat :: multiset(s)[o] <= 1
  {
    if s != [] {
      StrictHasNoRepeats(s[1..]);
      assert s == [s[0]] + s[1..];
      assert s[0] !in s[1..];
    }
  }

  lemma NoRepeatsIsStrict(s: seq<nat>)
    requires Ascends(s) && forall o: nat :: multiset(s)[o] <= 1
    ensures Strict(s)
  {
    forall i, j | 0 <= i < j < |s| ensures s[i] < s[j] {
      assert s == s[..j] + s[j..];
      assert s[..j][i] in multiset(s[..j]) && s[j..][0] in multiset(s[j..]);
      assert s[i] == s[j] ==> multiset(s)[s[i]] >= 2;
    }
  }

  // ---- non-overlapping search ---------------------------------------------------------------

  /** What `memmem::find_iter` yields from `from` on: leftmost occurrences that do not overlap. */
  function Greedy(haystack: seq<Byte>, needle: seq<Byte>, from: nat): (r: seq<nat>)
    requires needle != []
    ensures forall i :: 0 <= i < |r| ==> from <= r[i]
    decreases |haystack| - from
  {
    if from + |needle| > |haystack| then []
    else if At(haystack, from, needle) then [from] + Greedy(haystack, needle, from + |needle|)
    else Greedy(haystack, needle, from + 1)
  }

  method FindIter(haystack: seq<Byte>, needle: seq<Byte>) returns (r: seq<nat>)
    requires needle != []
    ensures r == Greedy(haystack, needle, 0)
  {
    hide Greedy;
    r := [];
    var from := 0;
    while from + |needle| <= |haystack|
      invariant Greedy(haystack, needle, 0) == r + Greedy(haystack, needle, from)
      decreases |haystack| - from
    {
      GreedyStep(haystack, needle, r, from);
      if haystack[from..from + |needle|] == needle {
        r := r + [from];
        from := from + |needle|;
      } else {
        from := from + 1;
      }
    }
    GreedyEnds(haystack, needle, from);
  }

  lemma GreedyStep(haystack: seq<Byte>, needle: seq<Byte>, r: seq<nat>, from: nat)
    requires needle != [] && from + |needle| <= |haystack|
    ensures r + Greedy(haystack, needle, from)
         == if haystack[from..from + |needle|] == needle then r + [from] + Greedy(haystack, needle, from + |needle|)
            else r + Greedy(haystack, needle, from + 1)
  {
  }

  lemma GreedyEnds(haystack: seq<Byte>, needle: seq<Byte>, from: nat)
    requires needle != [] && from + |needle| > |haystack|
    ensures Greedy(haystack, needle, from) == []
  {
  }

  /** No proper prefix of `s` is also a suffix of it. */
  predicate Unbordered(s: seq<Byte>) {
    forall k :: 0 < k < |s| ==> s[k..] != s[..|s| - k]
  }

  lemma NoOverlap(haystack: seq<Byte>, needle: seq<Byte>, p: nat, k: nat)
    requires Unbordered(needle) && At(haystack, p, needle) && 0 < k < |needle|
    ensures !At(haystack, p + k, needle)
  {
    assert haystack[p..p + |needle|][k..] == haystack[p + k..p + |needle|];
    if p + k + |needle| <= |haystack| {
      assert haystack[p + k..p + k + |needle|][..|needle| - k] == haystack[p + k..p + |needle|];
    }
  }

  lemma {:induction false} GreedyFindsAll(haystack: seq<Byte>, needle: seq<Byte>, from: nat)
    requires needle != [] && Unbordered(needle)
    ensures Strict(Greedy(haystack, needle, from))
    ensures forall o: nat :: o in Greedy(haystack, needle, from) <==> from <= o && At(haystack, o, needle)
    decreases |haystack| - from
  {
    if from + |needle| <= |haystack| {
      if At(haystack, from, needle) {
        GreedyFindsAll(haystack, needle, from + |needle|);
        forall o: nat | from < o < from + |needle| ensures !At(haystack, o, needle) {
          NoOverlap(haystack, needle, from, o - from);
        }
      } else {
        GreedyFindsAll(haystack, needle, from + 1);
      }
    }
  }

  /** A needle with a border is missed somewhere, so searching without overlap is complete exactly for unbordered needles. */
  lemma GreedyCompleteIffUnbordered(needle: seq<Byte>)
    requires needle != []
    ensures (forall haystack, o: nat :: At(haystack, o, needle) ==> o in Greedy(haystack, needle, 0)) <==> Unbordered(needle)
  {
    if Unbordered(needle) {
      forall haystack, o: nat | At(haystack, o, needle) ensures o in Greedy(haystack, needle, 0) {
        GreedyFindsAll(haystack, needle, 0);
      }
    } else {
      var k :| 0 < k < |needle| && needle[k..] == needle[..|needle| - k];
      var haystack := needle[..k] + needle;
      assert haystack[0..|needle|] == needle[..k] + needle[..|needle| - k] == needle[..k] + needle[k..] == needle;
      assert haystack[k..k + |needle|] == needle;
      assert Greedy(haystack, needle, 0) == [0] + Greedy(haystack, needle, |needle|);
      assert At(haystack, k, needle) && k !in Greedy(haystack, needle, 0);
    }
  }

  lemma DiscriminatorsAreUnbordered(confirm: bool)
    ensures forall d :: 0 <= d < |Searched(confirm)| ==> |Searched(confirm)[d]| == DISC_LEN && Unbordered(Searched(confirm)[d])
    ensures forall d, e :: 0 <= d < e < |Searched(confirm)| ==> Searched(confirm)[d] != Searched(confirm)[e]
  {
    forall d | 0 <= d < |Searched(confirm)|
      ensures |Searched(confirm)[d]| == DISC_LEN && Unbordered(Searched(confirm)[d])
    {
      var s := Searched(confirm)[d];
      forall k | 0 < k < |s| ensures s[k..] != s[..|s| - k] {
        assert s[k..][0] == s[k] && s[..|s| - k][0] == s[0];
        assert s[k] != s[0];
      }
    }
    forall d, e | 0 <= d < e < |Searched(confirm)| ensures Searched(confirm)[d] != Searched(confirm)[e] {
      assert Searched(confirm)[d][0] != Searched(confirm)[e][0];
    }
  }

  // ---- searching from an offset for all of them ----------------------------------------------

  /** The offsets, in `buf`, of the occurrences of `needle` that start at or after `from`. */
  function FoundFrom(buf: seq<Byte>, from: nat, needle: seq<Byte>): seq<nat>
    requires from <= |buf| && needle != []
  {
    var found := Greedy(buf[from..], needle, 0);
    seq(|found|, i requires 0 <= i < |found| => found[i] + from)
  }

  lemma FoundFromIsExact(buf: seq<Byte>, from: nat, needle: seq<Byte>)
    requires from <= |buf| && needle != [] && Unbordered(needle)
    ensures Strict(FoundFrom(buf, from, needle))
    ensures forall o: nat :: o in FoundFrom(buf, from, needle) <==> from <= o && At(buf, o, needle)
  {
    hide At, Greedy, Unbordered;
    GreedyFindsAll(buf[from..], needle, 0);
    var g, found := Greedy(buf[from..], needle, 0), FoundFrom(buf, from, needle);
    forall o: nat ensures o in found <==> from <= o && At(buf, o, needle) {
      if o in found {
        var i :| 0 <= i < |found| && found[i] == o;
        assert g[i] in g;
        AtShifted(buf, from, o, needle);
      }
      if from <= o && At(buf, o, needle) {
        AtShifted(buf, from, o, needle);
        assert o - from in g;
        var i :| 0 <= i < |g| && g[i] == o - from;
        assert found[i] == o;
      }
    }
  }

  lemma AtShifted(buf: seq<Byte>, from: nat, o: nat, needle: seq<Byte>)
    requires from <= o && from <= |buf|
    ensures At(buf[from..], o - from, needle) <==> At(buf, o, needle)
  {
    if o + |needle| <= |buf| {
      assert buf[from..][o - from..o - from + |needle|] == buf[o..o + |needle|];
    }
  }

  /** The searches for the first `n` discriminators, one after the other. */
  function FoundByFirst(buf: seq<Byte>, from: nat, n: nat, confirm: bool): seq<nat>
    requires from <= |buf| && n <= |Searched(confirm)|
  {
    if n == 0 then []
    else FoundByFirst(buf, from, n - 1, confirm) + FoundFrom(buf, from, Searched(confirm)[n - 1])
  }

  lemma OneDiscriminatorAt(buf: seq<Byte>, o: nat, e: nat, confirm: bool)
    requires e < |Searched(confirm)|
    ensures !(MarkedByFirst(buf, o, e, confirm) && At(buf, o, Searched(confirm)[e]))
  {
    hide Searched, Unbordered;
    DiscriminatorsAreUnbordered(confirm);
    forall d | 0 <= d < e ensures !(At(buf, o, Searched(confirm)[d]) && At(buf, o, Searched(confirm)[e])) {
      assert Searched(confirm)[d] != Searched(confirm)[e];
    }
  }

  lemma {:induction false} FoundByFirstIsExact(buf: seq<Byte>, from: nat, n: nat, confirm: bool)
    requires from <= |buf| && n <= |Searched(confirm)|
    ensures var found := FoundByFirst(buf, from, n, confirm);
            && (forall o: nat :: o in found <==> from <= o && MarkedByFirst(buf, o, n, confirm))
            && (forall o: nat :: multiset(found)[o] <= 1)
    decreases n
  {
    hide Searched, FoundFrom, At, Strict;
    if n > 0 {
      FoundByFirstIsExact(buf, from, n - 1, confirm);
      DiscriminatorsAreUnbordered(confirm);
      var a, b := FoundByFirst(buf, from, n - 1, confirm), FoundFrom(buf, from, Searched(confirm)[n - 1]);
      FoundFromIsExact(buf, from, Searched(confirm)[n - 1]);
      StrictHasNoRepeats(b);
      assert multiset(a + b) == multiset(a) + multiset(b);
      forall o: nat
        ensures o in a + b <==> from <= o && MarkedByFirst(buf, o, n, confirm)
        ensures multiset(a + b)[o] <= 1
      {
        OneDiscriminatorAt(buf, o, n - 1, confirm);
        MarkedByOneMore(buf, o, n, confirm);
        assert o in a + b <==> o in a || o in b;
      }
    }
  }

  lemma MarkedByOneMore(buf: seq<Byte>, o: nat, n: nat, confirm: bool)
    requires 0 < n <= |Searched(confirm)|
    ensures MarkedByFirst(buf, o, n, confirm) <==> MarkedByFirst(buf, o, n - 1, confirm) || At(buf, o, Searched(confirm)[n - 1])
  {
    hide At, Searched;
  }

  /** `create_offsets_into`: the searches' results, shifted, appended to `hits` and sorted. */
  method CreateOffsetsInto(buf: seq<Byte>, from: nat, hits: seq<nat>, confirm: bool) returns (r: seq<nat>)
    requires from <= |buf|
    ensures r == Sort(hits + FoundByFirst(buf, from, |Searched(confirm)|, confirm))
  {
    hide Sort, Greedy;
    var searched := Searched(confirm);
    r := hits;
    for d := 0 to |searched|
      invariant r == hits + FoundByFirst(buf, from, d, confirm)
    {
      var found := FindIter(buf[from..], searched[d]);
      r := r + seq(|found|, i requires 0 <= i < |found| => found[i] + from);
    }
    r := Sort(r);
  }

  /** `create_offsets`: one scan of the whole payload is the reference scan. */
  method CreateOffsets(payload: seq<Byte>, confirm: bool) returns (r: seq<nat>)
    ensures r == Hits(payload, confirm)
  {
    r := CreateOffsetsInto(payload, 0, [], confirm);
    var n := |Searched(confirm)|;
    FoundByFirstIsExact(payload, 0, n, confirm);
    assert [] + FoundByFirst(payload, 0, n, confirm) == FoundByFirst(payload, 0, n, confirm);
    NoRepeatsIsStrict(r);
    StrictUnique(r, Hits(payload, confirm));
  }

  /** An occurrence that was not whole before the buffer grew starts in its last seven bytes or later. */
  lemma GrownMarks(buf: seq<Byte>, scanned: nat, confirm: bool)
    requires scanned <= |buf|
    ensures forall o: nat :: Marked(buf, o, confirm) <==>
              Marked(buf[..scanned], o, confirm) || (SaturatingSub(scanned, DISC_LEN - 1) <= o && Marked(buf, o, confirm))
  {
    DiscriminatorsAreUnbordered(confirm);
    forall o: nat, d | 0 <= d < |Searched(confirm)|
      ensures At(buf[..scanned], o, Searched(confirm)[d]) <==> At(buf, o, Searched(confirm)[d]) && o + DISC_LEN <= scanned
    {
      AtPrefix(buf, scanned, o, Searched(confirm)[d]);
    }
  }

  /** Old hits plus the hits of the new bytes and their overlap are all the hits of the grown buffer. */
  lemma RescanFinds(buf: seq<Byte>, scanned: nat, hits: seq<nat>, newHits: seq<nat>, confirm: bool)
    requires scanned <= |buf| && hits == Hits(buf[..scanned], confirm)
    requires var from := SaturatingSub(scanned, DISC_LEN - 1);
             newHits == Sort([] + FoundByFirst(buf, from, |Searched(confirm)|, confirm))
    ensures (if newHits == [] then hits else Dedup(Sort(hits + newHits))) == Hits(buf, confirm)
  {
    var from := SaturatingSub(scanned, DISC_LEN - 1);
    FoundByFirstIsExact(buf, from, |Searched(confirm)|, confirm);
    assert forall o: nat :: o in newHits <==> from <= o && Marked(buf, o, confirm);
    GrownMarks(buf, scanned, confirm);
    assert forall o: nat :: o in hits <==> Marked(buf[..scanned], o, confirm);
    assert forall o: nat :: o in hits + newHits <==> o in hits || o in newHits;
    StrictUnique(if newHits == [] then hits else Dedup(Sort(hits + newHits)), Hits(buf, confirm));
  }

  /** Outside confirm mode only creates are searched for; in it also the three kinds of buy. */
  lemma MarksAre(buf: seq<Byte>, o: nat, confirm: bool)
    ensures Marked(buf, o, confirm)
       <==> At(buf, o, DISC_CREATE_V2) || At(buf, o, DISC_CREATE)
            || (confirm && (At(buf, o, DISC_BUY) || At(buf, o, DISC_BUY_V2) || At(buf, o, DISC_BUY_EXACT_SOL_IN)))
  {
    hide At;
    var s := Searched(confirm);
    assert s[0] == DISC_CREATE_V2 && s[1] == DISC_CREATE && |s| == if confirm then 5 else 2;
    assert confirm ==> s[2] == DISC_BUY && s[3] == DISC_BUY_V2 && s[4] == DISC_BUY_EXACT_SOL_IN;
  }
}
