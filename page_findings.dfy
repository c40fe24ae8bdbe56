/** Two places where src/storage/page.rs does not do what it evidently
    means to, each modelled as written next to a corrected definition.

    1. The gap test of `find_free_space_offset` (page.rs:123) subtracts
       `start1 + end1` from `start2` instead of `end1`. In a debug build the
       subtraction underflows as soon as three equal tuples sit side by side,
       so the fourth insert panics; in a release build it wraps, passes, and
       the new tuple is placed on top of the third.
    2. `length_of_tuple` is a `usize` (page.rs:28), 8 bytes on a 64-bit
       target, but `to_bytes` copies it into the 4 bytes `buf[16..20]`
       (page.rs:60), which panics. */
module PageFindings {
  import opened Wrappers
  import opened PageLayout
  import opened TupleCodec
  import opened FreeSpace
  import opened SlottedPage

  // ----- The gap test, as intended --------------------------------------

  /** The first window, from `k` on, whose gap `[end1, start2)` has room for
      `length` bytes. */
  function FirstGap(spans: seq<Span>, length: nat, k: nat): (r: Option<nat>)
    ensures r.Some? ==> k <= r.value && r.value + 1 < |spans| && spans[r.value].end + length <= spans[r.value + 1].start
    ensures r.Some? ==> forall v :: k <= v < r.value ==> spans[v + 1].start < spans[v].end + length
    ensures r.None? ==> forall v :: k <= v && v + 1 < |spans| ==> spans[v + 1].start < spans[v].end + length
    decreases |spans| - k
  {
    if k + 1 >= |spans| then None
    else if spans[k].end + length <= spans[k + 1].start then Some(k)
    else FirstGap(spans, length, k + 1)
  }

  /** `PlaceAmong` with the gap test `start2 - end1 >= length`. */
  function PlaceAmongIntended(sorted: seq<Span>, length: nat): (r: Fit)
    ensures !r.SpanOverflow? && !r.WindowUnderflow?
    ensures r.Placed? && r.offset != 0 ==> exists k :: 0 <= k < |sorted| && sorted[k].end == r.offset
  {
    if |sorted| == 0 then Placed(0)
    else if sorted[0].start >= length then Placed(0)
    else match FirstGap(sorted, length, 0)
      case Some(w) => Placed(sorted[w].end)
      case None =>
        var lastEnd := sorted[|sorted| - 1].end;
        if lastEnd + length <= DATA_SIZE then Placed(lastEnd) else NoSpace
  }

  /** `find_free_space_offset` with the gap test it evidently means. */
  function FindFreeSpaceOffsetIntended(slots: seq<Slot>, length: nat): (r: Fit)
    ensures !r.WindowUnderflow?
    ensures r.SpanOverflow? <==> UsedSpans(slots).None?
  {
    match UsedSpans(slots)
    case None => SpanOverflow
    case Some(used) => PlaceAmongIntended(SortByStart(used), length)
  }

  lemma {:induction false} PlaceAmongIntendedIsFree(sorted: seq<Span>, length: nat)
    requires WellPlaced(sorted) && SortedByStart(sorted)
    requires PlaceAmongIntended(sorted, length).Placed?
    ensures var o := PlaceAmongIntended(sorted, length).offset;
      && (|sorted| > 0 ==> o + length <= DATA_SIZE)
      && forall a :: a in sorted ==> Disjoint(Span(o, o + length), a)
  {
    if |sorted| == 0 {
    } else if sorted[0].start >= length {
      FreeInFront(sorted, length);
    } else {
      match FirstGap(sorted, length, 0)
      case Some(w) =>
        FreeInWindow(sorted, length, w);
      case None =>
        FreeAfterLast(sorted, length);
    }
  }

  /** Where the corrected search places `length` bytes, they overlap no used
      slot and, once a slot is used, stay inside the data region. */
  lemma {:induction false} IntendedPlacementIsFree(slots: seq<Slot>, length: nat)
    requires SlotsInBounds(slots) && SlotsDisjoint(slots)
    requires FindFreeSpaceOffsetIntended(slots, length).Placed?
    ensures var o := FindFreeSpaceOffsetIntended(slots, length).offset;
      && ((exists i :: 0 <= i < |slots| && Used(slots[i])) ==> o + length <= DATA_SIZE)
      && forall i :: 0 <= i < |slots| && Used(slots[i]) ==> Disjoint(Span(o, o + length), SpanOf(slots[i]))
  {
    SortedUsedSpansWellPlaced(slots);
    var used := UsedSpans(slots).value;
    var sorted := SortByStart(used);
    PlaceAmongIntendedIsFree(sorted, length);
    forall i | 0 <= i < |slots| && Used(slots[i]) ensures SpanOf(slots[i]) in sorted {
      assert SpanOf(slots[i]) in multiset(used);
    }
  }

  /** `insert_tuple` using the corrected search. */
  function InsertIntended(p: PageState, xmin: u64, xmax: u64, tuple: seq<byte>): (o: Outcome)
    requires WellFormed(p)
    ensures WellFormed(o.page)
    ensures o.result != Err(Panic(AtGapTest))
  {
    InsertWith(p, xmin, xmax, tuple, FindFreeSpaceOffsetIntended(p.slots, TotalLength(tuple)))
  }

  /** The corrected insert keeps the page invariant, disjointness included. */
  lemma InsertIntendedKeepsInvariant(p: PageState, xmin: u64, xmax: u64, tuple: seq<byte>)
    requires PageInvariant(p)
    ensures PageInvariant(InsertIntended(p, xmin, xmax, tuple).page)
  {
    var total := TotalLength(tuple);
    var r := PlanWith(p, total, FindFreeSpaceOffsetIntended(p.slots, total));
    if r.Ok? {
      IntendedPlacementIsFree(p.slots, total);
      assert FreePlan(p, r.value, tuple);
      ApplyKeepsInvariant(p, r.value, xmin, xmax, tuple);
    }
  }

  // ----- The gap test in a release build --------------------------------

  const USIZE_MODULUS: nat := 0x1_0000_0000_0000_0000

  /** page.rs:123 when usize arithmetic wraps modulo 2^64. */
  predicate WrappingWindowPasses(spans: seq<Span>, w: nat, length: nat)
    requires w + 1 < |spans|
  {
    (spans[w + 1].start - (spans[w].start + spans[w].end)) % USIZE_MODULUS >= length
  }

  function FirstWrappingWindow(spans: seq<Span>, length: nat, k: nat): (r: Option<nat>)
    ensures r.Some? ==> k <= r.value && r.value + 1 < |spans| && WrappingWindowPasses(spans, r.value, length)
    ensures r.Some? ==> forall v :: k <= v < r.value ==> !WrappingWindowPasses(spans, v, length)
    ensures r.None? ==> forall v :: k <= v && v + 1 < |spans| ==> !WrappingWindowPasses(spans, v, length)
    decreases |spans| - k
  {
    if k + 1 >= |spans| then None
    else if WrappingWindowPasses(spans, k, length) then Some(k)
    else FirstWrappingWindow(spans, length, k + 1)
  }

  /** page.rs:110 when the u16 sum wraps. */
  function WrappedSpanOf(s: Slot): Span {
    Span(s.offset, (s.offset + s.length) % 0x1_0000)
  }

  function ReleaseUsedSpans(slots: seq<Slot>): (r: seq<Span>)
    ensures |r| <= |slots|
  {
    if slots == [] then []
    else (if Used(slots[0]) then [WrappedSpanOf(slots[0])] else []) + ReleaseUsedSpans(slots[1..])
  }

  /** `find_free_space_offset` as a release build runs it. */
  function FindFreeSpaceOffsetRelease(slots: seq<Slot>, length: nat): (r: Option<nat>)
    ensures |ReleaseUsedSpans(slots)| == 0 ==> r == Some(0)
    ensures r.Some? && r.value != 0 ==> exists sp :: sp in ReleaseUsedSpans(slots) && r.value == sp.end
    ensures r.None? ==> exists sp :: sp in ReleaseUsedSpans(slots) && sp.end + length > DATA_SIZE
  {
    var sorted := SortByStart(ReleaseUsedSpans(slots));
    if |sorted| == 0 then Some(0)
    else if sorted[0].start >= length then Some(0)
    else match FirstWrappingWindow(sorted, length, 0)
      case Some(w) =>
        assert sorted[w] in multiset(sorted);
        Some(sorted[w].end)
      case None =>
        assert sorted[|sorted| - 1] in multiset(sorted);
        var lastEnd := sorted[|sorted| - 1].end;
        if lastEnd + length <= DATA_SIZE then Some(lastEnd) else None
  }

  // ----- Three equal tuples side by side --------------------------------

  /** The slot directory after `k` inserts of tuples of total length `t`
      into a new page: slot `i` holds `[i * t, (i + 1) * t)`. */
  function Stacked(k: nat, t: nat): (r: seq<Slot>)
    requires k <= 3 && 4 * t <= DATA_SIZE
    ensures |r| == MAX_SLOTS
  {
    [Slot(0, t, 1), Slot(t, t, 1), Slot(2 * t, t, 1)][..k] + seq(MAX_SLOTS - k, _ => NewSlot())
  }

  function Stripes(t: nat): seq<Span> {
    [Span(0, t), Span(t, 2 * t), Span(2 * t, 3 * t)]
  }

  function SpansOf(front: seq<Slot>): (r: seq<Span>)
    ensures |r| == |front|
  {
    if front == [] then [] else [SpanOf(front[0])] + SpansOf(front[1..])
  }

  lemma {:induction false} UsedSpansOfFront(front: seq<Slot>, rest: seq<Slot>)
    requires forall i :: 0 <= i < |front| ==> Used(front[i]) && front[i].offset + front[i].length < 0x1_0000
    requires forall i :: 0 <= i < |rest| ==> !Used(rest[i])
    ensures UsedSpans(front + rest) == Some(SpansOf(front))
  {
    if front == [] {
      NoneUsedSpans(rest);
      assert front + rest == rest;
    } else {
      var tail := (front + rest)[1..];
      assert tail == front[1..] + rest;
      UsedSpansOfFront(front[1..], rest);
      assert UsedSpans(tail) == Some(SpansOf(front[1..]));
    }
  }

  lemma {:induction false} ReleaseSpansOfFront(front: seq<Slot>, rest: seq<Slot>)
    requires forall i :: 0 <= i < |front| ==> Used(front[i]) && front[i].offset + front[i].length < 0x1_0000
    requires forall i :: 0 <= i < |rest| ==> !Used(rest[i])
    ensures ReleaseUsedSpans(front + rest) == SpansOf(front)
  {
    if front == [] {
      NoneUsedSpans(rest);
      assert front + rest == rest;
    } else {
      assert (front + rest)[1..] == front[1..] + rest;
      ReleaseSpansOfFront(front[1..], rest);
    }
  }

  lemma {:induction false} FreeSlotAfterFront(front: seq<Slot>, rest: seq<Slot>)
    requires forall i :: 0 <= i < |front| ==> Used(front[i])
    requires |rest| > 0 && !Used(rest[0])
    ensures FindFreeSlot(front + rest) == Some(|front|)
  {
    if front == [] {
      assert front + rest == rest;
    } else {
      assert (front + rest)[1..] == front[1..] + rest;
      FreeSlotAfterFront(front[1..], rest);
    }
  }

  lemma {:induction false} NoneUsedSpans(rest: seq<Slot>)
    requires forall i :: 0 <= i < |rest| ==> !Used(rest[i])
    ensures UsedSpans(rest) == Some([]) && ReleaseUsedSpans(rest) == []
  {
    if rest != [] {
      NoneUsedSpans(rest[1..]);
    }
  }

  lemma {:induction false} SortedIsFixed(s: seq<Span>)
    requires SortedByStart(s)
    ensures SortByStart(s) == s
  {
    if s != [] {
      SortedIsFixed(s[1..]);
      assert s == [s[0]] + s[1..];
    }
  }

  lemma {:induction false} SpansOfPrefix(front: seq<Slot>, k: nat)
    requires k <= |front|
    ensures SpansOf(front[..k]) == SpansOf(front)[..k]
  {
    if k > 0 {
      assert front[..k][1..] == front[1..][..k - 1];
      SpansOfPrefix(front[1..], k - 1);
    }
  }

  lemma StripesSpans(t: nat, k: nat)
    requires k <= 3 && 4 * t <= DATA_SIZE
    ensures SpansOf([Slot(0, t, 1), Slot(t, t, 1), Slot(2 * t, t, 1)][..k]) == Stripes(t)[..k]
  {
    var all := [Slot(0, t, 1), Slot(t, t, 1), Slot(2 * t, t, 1)];
    assert all[1..] == [Slot(t, t, 1), Slot(2 * t, t, 1)];
    assert all[1..][1..] == [Slot(2 * t, t, 1)];
    assert all[1..][1..][1..] == [];
    assert SpansOf(all[1..][1..]) == [Span(2 * t, 3 * t)];
    assert SpansOf(all[1..]) == [Span(t, 2 * t), Span(2 * t, 3 * t)];
    assert SpansOf(all) == Stripes(t);
    SpansOfPrefix(all, k);
  }

  lemma StripesSorted(t: nat, k: nat)
    requires k <= 3
    ensures SortByStart(Stripes(t)[..k]) == Stripes(t)[..k]
  {
    SortedIsFixed(Stripes(t)[..k]);
  }

  /** The used ranges of `Stacked(k, t)`, sorted as they are. */
  lemma StackedSpans(k: nat, t: nat)
    requires k <= 3 && 4 * t <= DATA_SIZE
    ensures UsedSpans(Stacked(k, t)) == Some(Stripes(t)[..k])
    ensures SortByStart(Stripes(t)[..k]) == Stripes(t)[..k]
  {
    var front := [Slot(0, t, 1), Slot(t, t, 1), Slot(2 * t, t, 1)][..k];
    var rest: seq<Slot> := seq(MAX_SLOTS - k, _ => NewSlot());
    assert Stacked(k, t) == front + rest;
    UsedSpansOfFront(front, rest);
    StripesSpans(t, k);
    StripesSorted(t, k);
  }

  /** The same ranges, as a release build computes them. */
  lemma StackedReleaseSpans(k: nat, t: nat)
    requires k <= 3 && 4 * t <= DATA_SIZE
    ensures SortByStart(ReleaseUsedSpans(Stacked(k, t))) == Stripes(t)[..k]
  {
    var front := [Slot(0, t, 1), Slot(t, t, 1), Slot(2 * t, t, 1)][..k];
    var rest: seq<Slot> := seq(MAX_SLOTS - k, _ => NewSlot());
    assert Stacked(k, t) == front + rest;
    ReleaseSpansOfFront(front, rest);
    StripesSpans(t, k);
    StripesSorted(t, k);
  }

  /** The lowest free slot of `Stacked(k, t)` is `k`. */
  lemma StackedFreeSlot(k: nat, t: nat)
    requires k <= 3 && 4 * t <= DATA_SIZE
    ensures FindFreeSlot(Stacked(k, t)) == Some(k)
  {
    var front := [Slot(0, t, 1), Slot(t, t, 1), Slot(2 * t, t, 1)][..k];
    var rest: seq<Slot> := seq(MAX_SLOTS - k, _ => NewSlot());
    assert Stacked(k, t) == front + rest;
    FreeSlotAfterFront(front, rest);
  }

  /** A page holding `k` tuples of total length `t` stacked from offset 0. */
  predicate IsStacked(p: PageState, k: nat, t: nat) {
    && k <= 3 && 4 * t <= DATA_SIZE && WellFormed(p)
    && p.slots == Stacked(k, t)
    && p.header == PageHeader(DATA_SIZE - [0, t, 2 * t, 3 * t][k], MAX_SLOTS - k)
  }

  lemma NewPageIsStacked(t: nat)
    requires 4 * t <= DATA_SIZE
    ensures IsStacked(NewPage(), 0, t)
  {
    assert Stacked(0, t) == NewPage().slots;
  }

  /** With fewer than three tuples stacked, both searches put the next
      tuple of the same length right after the last one. */
  lemma PlaceOnStacked(k: nat, t: nat)
    requires k < 3 && TUPLE_HEADER_SIZE <= t && 4 * t <= DATA_SIZE
    ensures FindFreeSpaceOffset(Stacked(k, t), t) == Placed([0, t, 2 * t][k])
    ensures FindFreeSpaceOffsetIntended(Stacked(k, t), t) == Placed([0, t, 2 * t][k])
  {
    StackedSpans(k, t);
    var sorted := Stripes(t)[..k];
    if k == 1 {
      assert FirstWindow(sorted, t, 0) == NoWindow;
      assert FirstGap(sorted, t, 0) == None;
    } else if k == 2 {
      assert FirstWindow(sorted, t, 1) == NoWindow;
      assert FirstWindow(sorted, t, 0) == NoWindow;
      assert FirstGap(sorted, t, 1) == None;
      assert FirstGap(sorted, t, 0) == None;
    }
  }

  /** One insert on a stacked page, given that the search answered with the
      end of the last tuple. */
  lemma StepOnStacked(p: PageState, k: nat, xmin: u64, xmax: u64, tuple: seq<byte>, fit: Fit)
    requires k < 3 && IsStacked(p, k, TotalLength(tuple))
    requires fit == Placed([0, TotalLength(tuple), 2 * TotalLength(tuple)][k])
    ensures var o := InsertWith(p, xmin, xmax, tuple, fit);
      o.result == Ok(k) && IsStacked(o.page, k + 1, TotalLength(tuple))
  {
    var t := TotalLength(tuple);
    var o := [0, t, 2 * t][k];
    StackedFreeSlot(k, t);
    assert Truncate16(t) == t;
    assert t <= p.header.freeSpace && p.header.totalFreeSlots > 0;
    assert PlanWith(p, t, fit) == Ok(Plan(k, o, t));
    assert Stacked(k, t)[k := Slot(o, t, 1)] == Stacked(k + 1, t);
  }

  lemma InsertOnStacked(p: PageState, k: nat, xmin: u64, xmax: u64, tuple: seq<byte>)
    requires k < 3 && IsStacked(p, k, TotalLength(tuple))
    ensures var o := Insert(p, xmin, xmax, tuple);
      o.result == Ok(k) && IsStacked(o.page, k + 1, TotalLength(tuple))
  {
    var t := TotalLength(tuple);
    PlaceOnStacked(k, t);
    StepOnStacked(p, k, xmin, xmax, tuple, FindFreeSpaceOffset(p.slots, t));
  }

  /** The same step with the corrected search. */
  lemma InsertIntendedOnStacked(p: PageState, k: nat, xmin: u64, xmax: u64, tuple: seq<byte>)
    requires k < 3 && IsStacked(p, k, TotalLength(tuple))
    ensures var o := InsertIntended(p, xmin, xmax, tuple);
      o.result == Ok(k) && IsStacked(o.page, k + 1, TotalLength(tuple))
  {
    var t := TotalLength(tuple);
    PlaceOnStacked(k, t);
    StepOnStacked(p, k, xmin, xmax, tuple, FindFreeSpaceOffsetIntended(p.slots, t));
  }

  /** With three tuples stacked, the search as written panics on the second
      window, `2t - (t + 2t)`. */
  lemma PlaceOnThreeStacked(t: nat)
    requires TUPLE_HEADER_SIZE <= t && 4 * t <= DATA_SIZE
    ensures FindFreeSpaceOffset(Stacked(3, t), t) == WindowUnderflow
  {
    StackedSpans(3, t);
    assert Stripes(t)[..3] == Stripes(t);
    assert FirstWindow(Stripes(t), t, 1) == Underflow(1);
    assert FirstWindow(Stripes(t), t, 0) == Underflow(1);
  }

  /** With three tuples stacked, the corrected search finds room after the
      third tuple. */
  lemma PlaceIntendedOnThreeStacked(t: nat)
    requires TUPLE_HEADER_SIZE <= t && 4 * t <= DATA_SIZE
    ensures FindFreeSpaceOffsetIntended(Stacked(3, t), t) == Placed(3 * t)
  {
    StackedSpans(3, t);
    assert Stripes(t)[..3] == Stripes(t);
    assert FirstGap(Stripes(t), t, 1) == None;
    assert FirstGap(Stripes(t), t, 0) == None;
  }

  /** The fourth insert of the same length on a page with three tuples
      panics. */
  lemma FourthOnStacked(p: PageState, xmin: u64, xmax: u64, tuple: seq<byte>)
    requires IsStacked(p, 3, TotalLength(tuple))
    ensures Insert(p, xmin, xmax, tuple).result == Err(Panic(AtGapTest))
  {
    var t := TotalLength(tuple);
    PlaceOnThreeStacked(t);
    StackedFreeSlot(3, t);
    assert Truncate16(t) == t;
    assert t <= p.header.freeSpace;
    assert PlanWith(p, t, WindowUnderflow) == Err(Panic(AtGapTest));
  }

  /** With the corrected search it lands in slot 3, after the third tuple. */
  lemma FourthIntendedOnStacked(p: PageState, xmin: u64, xmax: u64, tuple: seq<byte>)
    requires IsStacked(p, 3, TotalLength(tuple))
    ensures var o := InsertIntended(p, xmin, xmax, tuple);
      o.result == Ok(3) && o.page.slots[3] == Slot(3 * TotalLength(tuple), TotalLength(tuple), 1)
  {
    var t := TotalLength(tuple);
    PlaceIntendedOnThreeStacked(t);
    var fit := FindFreeSpaceOffsetIntended(p.slots, t);
    assert fit == Placed(3 * t);
    StackedFreeSlot(3, t);
    assert Truncate16(t) == t;
    assert t <= p.header.freeSpace && p.header.totalFreeSlots > 0;
    var plan := Plan(3, 3 * t, t);
    assert PlanWith(p, t, fit) == Ok(plan);
    assert InsertWith(p, xmin, xmax, tuple, fit) == Outcome(Apply(p, plan, xmin, xmax, tuple), Ok(3));
    assert Apply(p, plan, xmin, xmax, tuple).slots == p.slots[3 := Slot(3 * t, t, 1)];
  }

  /** Four inserts of equal-length tuples, the first on a page with no tuple
      stacked: the fourth panics at page.rs:123. */
  lemma FourInsertsOnStacked(p0: PageState, xmin: u64, xmax: u64, a: seq<byte>, b: seq<byte>, c: seq<byte>, d: seq<byte>)
    requires |a| == |b| == |c| == |d| && IsStacked(p0, 0, TotalLength(a))
    ensures var o1 := Insert(p0, xmin, xmax, a);
      var o2 := Insert(o1.page, xmin, xmax, b);
      var o3 := Insert(o2.page, xmin, xmax, c);
      && o1.result == Ok(0) && o2.result == Ok(1) && o3.result == Ok(2)
      && Insert(o3.page, xmin, xmax, d).result == Err(Panic(AtGapTest))
  {
    assert TotalLength(b) == TotalLength(c) == TotalLength(d) == TotalLength(a);
    var o1 := Insert(p0, xmin, xmax, a);
    InsertOnStacked(p0, 0, xmin, xmax, a);
    var o2 := Insert(o1.page, xmin, xmax, b);
    InsertOnStacked(o1.page, 1, xmin, xmax, b);
    var o3 := Insert(o2.page, xmin, xmax, c);
    InsertOnStacked(o2.page, 2, xmin, xmax, c);
    FourthOnStacked(o3.page, xmin, xmax, d);
  }

  /** The same with the corrected gap test: the fourth tuple goes right
      after the third. */
  lemma FourIntendedInsertsOnStacked(p0: PageState, xmin: u64, xmax: u64, a: seq<byte>, b: seq<byte>, c: seq<byte>, d: seq<byte>)
    requires |a| == |b| == |c| == |d| && IsStacked(p0, 0, TotalLength(a))
    ensures var o1 := InsertIntended(p0, xmin, xmax, a);
      var o2 := InsertIntended(o1.page, xmin, xmax, b);
      var o3 := InsertIntended(o2.page, xmin, xmax, c);
      var o4 := InsertIntended(o3.page, xmin, xmax, d);
      && o1.result == Ok(0) && o2.result == Ok(1) && o3.result == Ok(2) && o4.result == Ok(3)
      && o4.page.slots[3] == Slot(3 * TotalLength(a), TotalLength(a), 1)
  {
    assert TotalLength(b) == TotalLength(c) == TotalLength(d) == TotalLength(a);
    var o1 := InsertIntended(p0, xmin, xmax, a);
    InsertIntendedOnStacked(p0, 0, xmin, xmax, a);
    var o2 := InsertIntended(o1.page, xmin, xmax, b);
    InsertIntendedOnStacked(o1.page, 1, xmin, xmax, b);
    var o3 := InsertIntended(o2.page, xmin, xmax, c);
    InsertIntendedOnStacked(o2.page, 2, xmin, xmax, c);
    FourthIntendedOnStacked(o3.page, xmin, xmax, d);
  }

  /** Four inserts of equal-length tuples into a new page: the fourth panics
      at page.rs:123. */
  lemma FourthEqualInsertPanics(xmin: u64, xmax: u64, a: seq<byte>, b: seq<byte>, c: seq<byte>, d: seq<byte>)
    requires |a| == |b| == |c| == |d| && 4 * TotalLength(a) <= DATA_SIZE
    ensures var o1 := Insert(NewPage(), xmin, xmax, a);
      var o2 := Insert(o1.page, xmin, xmax, b);
      var o3 := Insert(o2.page, xmin, xmax, c);
      && o1.result == Ok(0) && o2.result == Ok(1) && o3.result == Ok(2)
      && Insert(o3.page, xmin, xmax, d).result == Err(Panic(AtGapTest))
  {
    NewPageIsStacked(TotalLength(a));
    FourInsertsOnStacked(NewPage(), xmin, xmax, a, b, c, d);
  }

  /** The same four inserts into a new page with the corrected gap test. */
  lemma FourthEqualInsertIntended(xmin: u64, xmax: u64, a: seq<byte>, b: seq<byte>, c: seq<byte>, d: seq<byte>)
    requires |a| == |b| == |c| == |d| && 4 * TotalLength(a) <= DATA_SIZE
    ensures var o1 := InsertIntended(NewPage(), xmin, xmax, a);
      var o2 := InsertIntended(o1.page, xmin, xmax, b);
      var o3 := InsertIntended(o2.page, xmin, xmax, c);
      var o4 := InsertIntended(o3.page, xmin, xmax, d);
      && o1.result == Ok(0) && o2.result == Ok(1) && o3.result == Ok(2) && o4.result == Ok(3)
      && o4.page.slots[3] == Slot(3 * TotalLength(a), TotalLength(a), 1)
  {
    NewPageIsStacked(TotalLength(a));
    FourIntendedInsertsOnStacked(NewPage(), xmin, xmax, a, b, c, d);
  }

  /** Three stacked tuples sit inside the data region without overlapping. */
  lemma StackedInBounds(t: nat)
    requires TUPLE_HEADER_SIZE <= t && 4 * t <= DATA_SIZE
    ensures SlotsInBounds(Stacked(3, t)) && SlotsDisjoint(Stacked(3, t))
  {
    var s := Stacked(3, t);
    assert forall i :: 3 <= i < |s| ==> !Used(s[i]);
    assert s[0] == Slot(0, t, 1) && s[1] == Slot(t, t, 1) && s[2] == Slot(2 * t, t, 1);
  }

  /** The first window computes `t - (0 + t) = 0`; the second computes
      `2t - (t + 2t)`, which wraps to `2^64 - t`. */
  lemma WrappedWindows(t: nat)
    requires TUPLE_HEADER_SIZE <= t && 4 * t <= DATA_SIZE
    ensures !WrappingWindowPasses(Stripes(t), 0, t)
    ensures WrappingWindowPasses(Stripes(t), 1, t)
  {
    var s := Stripes(t);
    assert s[1].start - (s[0].start + s[0].end) == 0;
    assert s[2].start - (s[1].start + s[1].end) == -(t as int);
  }

  lemma ReleasePlacesOnThird(t: nat)
    requires TUPLE_HEADER_SIZE <= t && 4 * t <= DATA_SIZE
    ensures FindFreeSpaceOffsetRelease(Stacked(3, t), t) == Some(2 * t)
  {
    StackedReleaseSpans(3, t);
    assert Stripes(t)[..3] == Stripes(t);
    WrappedWindows(t);
    assert FirstWrappingWindow(Stripes(t), t, 1) == Some(1);
    assert FirstWrappingWindow(Stripes(t), t, 0) == Some(1);
  }

  /** In a release build, with three tuples of total length `t` side by
      side, the second window computes `2t - 3t`, which wraps to
      `2^64 - t`, so a fourth tuple of length `t` is placed at `2t`, on top
      of the third tuple, although the slots were disjoint; the corrected
      search places it at `3t`. */
  lemma ReleaseBuildOverlaps(t: nat)
    requires TUPLE_HEADER_SIZE <= t && 4 * t <= DATA_SIZE
    ensures SlotsInBounds(Stacked(3, t)) && SlotsDisjoint(Stacked(3, t))
    ensures FindFreeSpaceOffsetRelease(Stacked(3, t), t) == Some(2 * t)
    ensures Used(Stacked(3, t)[2]) && !Disjoint(Span(2 * t, 3 * t), SpanOf(Stacked(3, t)[2]))
    ensures FindFreeSpaceOffsetIntended(Stacked(3, t), t) == Placed(3 * t)
  {
    StackedInBounds(t);
    ReleasePlacesOnThird(t);
    PlaceIntendedOnThreeStacked(t);
  }

  // ----- The width of the length field on a 64-bit target ---------------

  /** `size_of::<TupleHeader>()` on a 64-bit target: two u64 and a usize. */
  const TUPLE_HEADER_SIZE_64: nat := 24

  /** `copy_from_slice` into `dst[lo..hi]`, which panics (`None`) unless
      the source has exactly `hi - lo` bytes. */
  function CopyFromSlice(dst: seq<byte>, lo: nat, hi: nat, src: seq<byte>): (r: Option<seq<byte>>)
    requires lo <= hi <= |dst|
    ensures r.Some? <==> |src| == hi - lo
    ensures r.Some? ==> r.value == Splice(dst, lo, src)
  {
    if |src| != hi - lo then None else Some(Splice(dst, lo, src))
  }

  /** `TupleHeader::to_bytes` (page.rs:56-62) on a 64-bit target, where
      `length_of_tuple.to_le_bytes()` is 8 bytes long. */
  function ToBytes64(h: TupleHeader): (r: Option<seq<byte>>)
    ensures r.None?
  {
    var buf: seq<byte> := seq(20, _ => 0);
    match CopyFromSlice(buf, 0, 8, LittleEndian(h.xmin, 8))
    case None => None
    case Some(b1) =>
      match CopyFromSlice(b1, 8, 16, LittleEndian(h.xmax, 8))
      case None => None
      case Some(b2) => CopyFromSlice(b2, 16, 20, LittleEndian(h.lengthOfTuple, 8))
  }

  /** Every header fails to encode on a 64-bit target, and the room that
      `insert_tuple` reserves (24 bytes) is not the 20 that `to_bytes`
      builds; the 32-bit model `ToBytes` round-trips instead. */
  lemma HeaderEncodingPanicsOn64Bit(h: TupleHeader)
    ensures ToBytes64(h) == None
    ensures TUPLE_HEADER_SIZE_64 != |ToBytes(h)|
    ensures FromBytes(ToBytes(h)) == Some(h)
  {
    HeaderRoundTrip(h, []);
    assert ToBytes(h) + [] == ToBytes(h);
  }
}
