/** The two read-only queries `insert_tuple` makes of the slot directory
    (src/storage/page.rs:101-139): the lowest unused slot, and a first-fit
    offset in the data region.

    Integer arithmetic follows a debug build: a u16 addition that overflows
    (page.rs:110) and a usize subtraction that underflows (page.rs:123) panic.
    The two panics are the outcomes `SpanOverflow` and `WindowUnderflow`. */
module FreeSpace {
  import opened Wrappers
  import opened PageLayout

  /** `find_free_slot`: the position of the first slot whose `is_used` is 0. */
  function FindFreeSlot(slots: seq<Slot>): (r: Option<nat>)
    ensures r.Some? ==> r.value < |slots| && !Used(slots[r.value])
    ensures r.Some? ==> forall j :: 0 <= j < r.value ==> Used(slots[j])
    ensures r.None? <==> forall j :: 0 <= j < |slots| ==> Used(slots[j])
  {
    if slots == [] then None
    else if !Used(slots[0]) then Some(0)
    else match FindFreeSlot(slots[1..])
      case None => None
      case Some(k) => Some(k + 1)
  }

  /** A byte range `[start, end)` of the data region. */
  datatype Span = Span(start: nat, end: nat)

  function SpanOf(s: Slot): Span {
    Span(s.offset, s.offset + s.length)
  }

  predicate Disjoint(a: Span, b: Span) {
    a.end <= b.start || b.end <= a.start
  }

  /** The `(offset, offset + length)` pairs of the used slots, in slot order
      (page.rs:106-111). `None` when some `offset + length` overflows u16. */
  function UsedSpans(slots: seq<Slot>): (r: Option<seq<Span>>)
    ensures r.Some? <==> forall i :: 0 <= i < |slots| && Used(slots[i]) ==> slots[i].offset + slots[i].length < 0x1_0000
    ensures r.Some? ==> forall i :: 0 <= i < |slots| && Used(slots[i]) ==> SpanOf(slots[i]) in r.value
    ensures r.Some? ==> forall sp :: sp in r.value ==> exists i :: 0 <= i < |slots| && Used(slots[i]) && SpanOf(slots[i]) == sp
  {
    if slots == [] then Some([])
    else
      var s := slots[0];
      match UsedSpans(slots[1..])
      case None =>
        assert forall i :: 1 <= i < |slots| ==> slots[i] == slots[1..][i - 1];
        None
      case Some(rest) =>
        assert forall i :: 1 <= i < |slots| ==> slots[i] == slots[1..][i - 1];
        if !Used(s) then Some(rest)
        else if s.offset + s.length >= 0x1_0000 then None
        else
          assert forall sp :: sp in rest ==> exists i :: 0 <= i < |slots| && Used(slots[i]) && SpanOf(slots[i]) == sp by {
            forall sp | sp in rest ensures exists i :: 0 <= i < |slots| && Used(slots[i]) && SpanOf(slots[i]) == sp {
              var k :| 0 <= k < |slots[1..]| && Used(slots[1..][k]) && SpanOf(slots[1..][k]) == sp;
              assert slots[k + 1] == slots[1..][k];
            }
          }
          Some([SpanOf(s)] + rest)
  }

  predicate SortedByStart(s: seq<Span>) {
    forall i, j :: 0 <= i < j < |s| ==> s[i].start <= s[j].start
  }

  /** Puts `x` in front of the first element whose start is not smaller, so
      that elements with equal starts keep their relative order. */
  function InsertByStart(x: Span, s: seq<Span>): (r: seq<Span>)
    requires SortedByStart(s)
    ensures SortedByStart(r)
    ensures multiset(r) == multiset(s) + multiset{x}
  {
    if s == [] then [x]
    else if x.start <= s[0].start then [x] + s
    else
      var tail := InsertByStart(x, s[1..]);
      ConsSorted(s, x, tail);
      assert s == [s[0]] + s[1..];
      [s[0]] + tail
  }

  /** Putting the head of a sorted `s` back in front of a sorted permutation
      of its tail plus a later-starting `x` gives a sorted sequence. */
  lemma ConsSorted(s: seq<Span>, x: Span, tail: seq<Span>)
    requires SortedByStart(s) && s != [] && s[0].start < x.start
    requires SortedByStart(tail) && multiset(tail) == multiset(s[1..]) + multiset{x}
    ensures SortedByStart([s[0]] + tail)
  {
    forall y | y in tail ensures s[0].start <= y.start {
      assert y in multiset(tail);
      if y != x {
        assert y in multiset(s[1..]);
        var k :| 0 <= k < |s[1..]| && s[1..][k] == y;
        assert s[k + 1] == y;
      }
    }
    var r := [s[0]] + tail;
    forall i, j | 0 <= i < j < |r| ensures r[i].start <= r[j].start {
      assert r[j] == tail[j - 1];
      if i > 0 {
        assert r[i] == tail[i - 1];
      } else {
        assert r[j] in tail;
      }
    }
  }

  /** `sort_by_key(|u| u.0)`: a sort on the start offset. Like the
      source's sort, this insertion keeps spans of equal start in their
      input order, but the contract states only that the result is sorted
      and a permutation of the input. */
  function SortByStart(s: seq<Span>): (r: seq<Span>)
    ensures SortedByStart(r)
    ensures multiset(r) == multiset(s)
  {
    if s == [] then []
    else
      assert s == [s[0]] + s[1..];
      InsertByStart(s[0], SortByStart(s[1..]))
  }

  /** The test at page.rs:123 for the window `(spans[w], spans[w + 1])`,
      whose left-hand side subtracts `start1 + end1` rather than `end1`. */
  predicate WindowUnderflows(spans: seq<Span>, w: nat)
    requires w + 1 < |spans|
  {
    spans[w + 1].start < spans[w].start + spans[w].end
  }

  predicate WindowPasses(spans: seq<Span>, w: nat, length: int)
    requires w + 1 < |spans|
  {
    !WindowUnderflows(spans, w) && spans[w + 1].start - (spans[w].start + spans[w].end) >= length
  }

  datatype WindowFit = Found(window: nat) | NoWindow | Underflow(window: nat)

  /** `windows(2).find_map(...)` from window `k` on (page.rs:120-128). */
  function FirstWindow(spans: seq<Span>, length: int, k: nat): (r: WindowFit)
    ensures r.Found? ==> k <= r.window && r.window + 1 < |spans| && WindowPasses(spans, r.window, length)
    ensures r.Underflow? ==> k <= r.window && r.window + 1 < |spans| && WindowUnderflows(spans, r.window)
    ensures r.Found? || r.Underflow? ==>
      forall v :: k <= v < r.window ==> !WindowUnderflows(spans, v) && !WindowPasses(spans, v, length)
    ensures r.NoWindow? ==>
      forall v :: k <= v && v + 1 < |spans| ==> !WindowUnderflows(spans, v) && !WindowPasses(spans, v, length)
    decreases |spans| - k
  {
    if k + 1 >= |spans| then NoWindow
    else if WindowUnderflows(spans, k) then Underflow(k)
    else if WindowPasses(spans, k, length) then Found(k)
    else FirstWindow(spans, length, k + 1)
  }

  /** The result of `find_free_space_offset`: `Some(offset)`, `None`, or one
      of the two panics of a debug build. */
  datatype Fit = Placed(offset: nat) | NoSpace | SpanOverflow | WindowUnderflow

  /** `find_free_space_offset(length)` (page.rs:105-139). */
  function FindFreeSpaceOffset(slots: seq<Slot>, length: nat): (r: Fit)
    ensures r.SpanOverflow? <==> UsedSpans(slots).None?
  {
    match UsedSpans(slots)
    case None => SpanOverflow
    case Some(used) => PlaceAmong(SortByStart(used), length)
  }

  /** The offset found is the end of a used range, or 0, so the casts `end1
      as u16` and `last_end as u16` (page.rs:124, 135) lose nothing. */
  lemma PlacedOffsetFitsU16(slots: seq<Slot>, length: nat)
    requires FindFreeSpaceOffset(slots, length).Placed?
    ensures FindFreeSpaceOffset(slots, length).offset < 0x1_0000
  {
    var used := UsedSpans(slots).value;
    var sorted := SortByStart(used);
    var o := FindFreeSpaceOffset(slots, length).offset;
    if o != 0 {
      var k :| 0 <= k < |sorted| && sorted[k].end == o;
      assert sorted[k] in multiset(sorted);
      assert sorted[k] in used;
      var i :| 0 <= i < |slots| && Used(slots[i]) && SpanOf(slots[i]) == sorted[k];
    }
  }

  /** The search of page.rs:113-138 over the used ranges sorted by start. */
  function PlaceAmong(sorted: seq<Span>, length: nat): (r: Fit)
    ensures !r.SpanOverflow?
    ensures r.Placed? && r.offset != 0 ==> exists k :: 0 <= k < |sorted| && sorted[k].end == r.offset
  {
    if |sorted| == 0 then Placed(0)
    else if sorted[0].start >= length then Placed(0)
    else match FirstWindow(sorted, length, 0)
      case Found(w) => Placed(sorted[w].end)
      case Underflow(_) => WindowUnderflow
      case NoWindow =>
        var lastEnd := sorted[|sorted| - 1].end;
        if lastEnd + length <= DATA_SIZE then Placed(lastEnd) else NoSpace
  }

  /** Every used slot holds a non-empty range inside the data region. */
  predicate SlotsInBounds(slots: seq<Slot>) {
    forall i :: 0 <= i < |slots| && Used(slots[i]) ==>
      0 < slots[i].length && slots[i].offset + slots[i].length <= DATA_SIZE
  }

  /** The ranges of distinct used slots do not overlap. */
  predicate SlotsDisjoint(slots: seq<Slot>) {
    forall i, j :: 0 <= i < j < |slots| && Used(slots[i]) && Used(slots[j]) ==>
      Disjoint(SpanOf(slots[i]), SpanOf(slots[j]))
  }

  /** The facts about the sorted used ranges that the placement proof uses. */
  predicate WellPlaced(spans: seq<Span>) {
    && (forall a :: a in spans ==> a.start < a.end <= DATA_SIZE)
    && (forall a, b :: a in spans && b in spans && a != b ==> Disjoint(a, b))
  }

  lemma {:induction false} SortedUsedSpansWellPlaced(slots: seq<Slot>)
    requires SlotsInBounds(slots) && SlotsDisjoint(slots)
    ensures UsedSpans(slots).Some?
    ensures WellPlaced(SortByStart(UsedSpans(slots).value))
  {
    var used := UsedSpans(slots).value;
    var sorted := SortByStart(used);
    forall a | a in sorted ensures a in used {
      assert a in multiset(sorted);
    }
    forall a | a in sorted ensures a.start < a.end <= DATA_SIZE {
      assert a in used;
      var i :| 0 <= i < |slots| && Used(slots[i]) && SpanOf(slots[i]) == a;
    }
    forall a, b | a in sorted && b in sorted && a != b ensures Disjoint(a, b) {
      assert a in used && b in used;
      var i :| 0 <= i < |slots| && Used(slots[i]) && SpanOf(slots[i]) == a;
      var j :| 0 <= j < |slots| && Used(slots[j]) && SpanOf(slots[j]) == b;
      if i < j {
        assert Disjoint(SpanOf(slots[i]), SpanOf(slots[j]));
      } else {
        assert j < i;
        assert Disjoint(SpanOf(slots[j]), SpanOf(slots[i]));
      }
    }
  }

  /** In a well-placed list, a range that starts no later than `spans[k]` and
      is another range ends before `spans[k]` starts. */
  lemma EndsBeforeLaterStart(spans: seq<Span>, m: nat, k: nat)
    requires WellPlaced(spans) && m < |spans| && k < |spans|
    requires spans[m].start <= spans[k].start && spans[m] != spans[k]
    ensures spans[m].end <= spans[k].start
  {
    assert spans[m] in spans && spans[k] in spans;
    assert Disjoint(spans[m], spans[k]);
  }

  /** Branch page.rs:113-116: room in front of the first used range. */
  lemma FreeInFront(sorted: seq<Span>, length: nat)
    requires WellPlaced(sorted) && SortedByStart(sorted)
    requires |sorted| > 0 && sorted[0].start >= length
    ensures length <= DATA_SIZE
    ensures forall a :: a in sorted ==> Disjoint(Span(0, length), a)
  {
    assert sorted[0] in sorted;
  }

  /** Branch page.rs:120-128: a window whose gap `[end1, start2)` has room
      for `length` bytes, as it has whenever the test at line 123 passes. */
  lemma FreeInWindow(sorted: seq<Span>, length: nat, w: nat)
    requires WellPlaced(sorted) && SortedByStart(sorted)
    requires w + 1 < |sorted| && sorted[w].end + length <= sorted[w + 1].start
    ensures sorted[w].end + length <= DATA_SIZE
    ensures forall a :: a in sorted ==> Disjoint(Span(sorted[w].end, sorted[w].end + length), a)
  {
    var o := sorted[w].end;
    assert sorted[w + 1] in sorted;
    forall a | a in sorted ensures Disjoint(Span(o, o + length), a) {
      var m :| 0 <= m < |sorted| && sorted[m] == a;
      if m > w {
        assert sorted[w + 1].start <= sorted[m].start;
      } else if sorted[m] != sorted[w] {
        EndsBeforeLaterStart(sorted, m, w);
      }
    }
  }

  /** Branch page.rs:133-136: after the range that starts last. */
  lemma FreeAfterLast(sorted: seq<Span>, length: nat)
    requires WellPlaced(sorted) && SortedByStart(sorted) && |sorted| > 0
    ensures var o := sorted[|sorted| - 1].end;
      forall a :: a in sorted ==> Disjoint(Span(o, o + length), a)
  {
    var last := |sorted| - 1;
    var o := sorted[last].end;
    forall a | a in sorted ensures Disjoint(Span(o, o + length), a) {
      var m :| 0 <= m < |sorted| && sorted[m] == a;
      if sorted[m] != sorted[last] {
        EndsBeforeLaterStart(sorted, m, last);
      }
    }
  }

  /** The placement chosen among well-placed sorted ranges is free. */
  lemma {:induction false} PlaceAmongIsFree(sorted: seq<Span>, length: nat)
    requires WellPlaced(sorted) && SortedByStart(sorted)
    requires PlaceAmong(sorted, length).Placed?
    ensures var o := PlaceAmong(sorted, length).offset;
      && (|sorted| > 0 ==> o + length <= DATA_SIZE)
      && forall a :: a in sorted ==> Disjoint(Span(o, o + length), a)
  {
    if |sorted| == 0 {
    } else if sorted[0].start >= length {
      FreeInFront(sorted, length);
    } else {
      match FirstWindow(sorted, length, 0)
      case Found(w) =>
        FreeInWindow(sorted, length, w);
      case Underflow(_) =>
      case NoWindow =>
        FreeAfterLast(sorted, length);
    }
  }

  /** Where `find_free_space_offset` places a tuple of `length` bytes, those
      bytes lie inside the data region (as soon as one slot is in use) and
      overlap no used slot (page.rs:113-136). */
  lemma {:induction false} PlacementIsFree(slots: seq<Slot>, length: nat)
    requires SlotsInBounds(slots) && SlotsDisjoint(slots)
    requires FindFreeSpaceOffset(slots, length).Placed?
    ensures var o := FindFreeSpaceOffset(slots, length).offset;
      && ((exists i :: 0 <= i < |slots| && Used(slots[i])) ==> o + length <= DATA_SIZE)
      && forall i :: 0 <= i < |slots| && Used(slots[i]) ==> Disjoint(Span(o, o + length), SpanOf(slots[i]))
  {
    SortedUsedSpansWellPlaced(slots);
    var used := UsedSpans(slots).value;
    var sorted := SortByStart(used);
    PlaceAmongIsFree(sorted, length);
    forall i | 0 <= i < |slots| && Used(slots[i]) ensures SpanOf(slots[i]) in sorted {
      assert SpanOf(slots[i]) in multiset(used);
    }
  }

  /** `Some(0)` when no slot is used, or when every used range starts at or
      after `length` (page.rs:113-119). */
  lemma {:induction false} PlacedAtZeroWhenRoomInFront(slots: seq<Slot>, length: nat)
    requires forall i :: 0 <= i < |slots| && Used(slots[i]) ==> slots[i].offset + slots[i].length < 0x1_0000
    requires forall i :: 0 <= i < |slots| && Used(slots[i]) ==> slots[i].offset >= length
    ensures FindFreeSpaceOffset(slots, length) == Placed(0)
  {
    var used := UsedSpans(slots).value;
    var sorted := SortByStart(used);
    if |sorted| > 0 {
      assert sorted[0] in multiset(used);
      assert sorted[0] in used;
      var i :| 0 <= i < |slots| && Used(slots[i]) && SpanOf(slots[i]) == sorted[0];
    }
  }
}
