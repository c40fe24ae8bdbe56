/** The slotted page of src/storage/page.rs: a header with two counters, a
    directory of 256 slots and a 6652-byte data region, and `insert_tuple`,
    which places a 20-byte tuple header and the payload in the data region
    and records them in the lowest free slot.

    `insert_tuple` is specified by the pure `Insert` over a `PageState`
    value; the class `Page` holds the same state in arrays and its method
    `InsertTuple` is proved to change it exactly as `Insert` says.

    A debug build is modelled: every u16/usize overflow, every slice that
    runs past the data region, is a panic, reported as `Panic(site)`. The
    four `Err` returns of the source leave the page unchanged. A panic ends
    the call; the model then gives back the page as it was before the call,
    so the tuple header that page.rs:167-168 copies in before the payload
    slice at page.rs:171 panics is not kept. */
module SlottedPage {
  import opened Wrappers
  import opened PageLayout
  import opened TupleCodec
  import opened FreeSpace

  /** Where a debug build panics inside `insert_tuple`. */
  datatype PanicSite =
    | AtSpanSum    // page.rs:110: `x.offset + x.length` overflows u16
    | AtGapTest    // page.rs:123: `start2 - (start1 + end1)` underflows
    | AtEndCheck   // page.rs:159: `offset + total as u16` overflows u16
    | AtDataSlice  // page.rs:167, 171: a slice of `data` ends past DATA_SIZE
    | AtSlotCount  // page.rs:180: `total_free_slots - 1` underflows

  /** The four `Err` strings of `insert_tuple`, and the panics. */
  datatype InsertError =
    | NotEnoughFreeSpace
    | NoFreeSlots
    | NoFreeDataSpace
    | NotEnoughContiguousSpace
    | Panic(site: PanicSite)

  /** The contents of a `Page`. */
  datatype PageState = PageState(header: PageHeader, slots: seq<Slot>, data: seq<byte>)

  predicate WellFormed(p: PageState) {
    |p.slots| == MAX_SLOTS && |p.data| == DATA_SIZE
  }

  /** `Page::new`: the header of `PageHeader::new`, 256 unused slots, and a
      zeroed data region. */
  function NewPage(): (p: PageState)
    ensures WellFormed(p)
    ensures p.header.freeSpace == DATA_SIZE && p.header.totalFreeSlots == MAX_SLOTS
    ensures forall i :: 0 <= i < |p.slots| ==> p.slots[i] == Slot(0, 0, 0)
    ensures forall k :: 0 <= k < |p.data| ==> p.data[k] == 0
  {
    PageState(NewHeader(), seq(MAX_SLOTS, _ => NewSlot()), seq(DATA_SIZE, _ => 0))
  }

  /** `size_of::<TupleHeader>() + tuple_data.len()`. */
  function TotalLength(tuple: seq<byte>): nat {
    TUPLE_HEADER_SIZE + |tuple|
  }

  /** `as u16`: keeps the low 16 bits. */
  function Truncate16(n: nat): u16 {
    n % 0x1_0000
  }

  /** `copy_from_slice` into `d[at..at + |src|]`. */
  function Splice(d: seq<byte>, at: nat, src: seq<byte>): (r: seq<byte>)
    requires at + |src| <= |d|
    ensures |r| == |d|
    ensures r[at..at + |src|] == src
    ensures forall k :: 0 <= k < |d| && !(at <= k < at + |src|) ==> r[k] == d[k]
  {
    d[..at] + src + d[at + |src|..]
  }

  /** The slot and the offset that the checks of `insert_tuple` settle on. */
  datatype Plan = Plan(slot: nat, offset: nat, total: nat)

  /** The checks of page.rs:147-161 and the slices of page.rs:167-180, in the
      order the code makes them, given what `find_free_space_offset` returned
      for this page (`fit`). */
  function PlanWith(p: PageState, total: nat, fit: Fit): (r: Result<Plan, InsertError>)
    requires WellFormed(p)
    ensures r == Err(NotEnoughFreeSpace) <==> Truncate16(total) > p.header.freeSpace
    ensures r == Err(NoFreeSlots) <==>
      Truncate16(total) <= p.header.freeSpace && FindFreeSlot(p.slots).None?
    ensures r == Err(NoFreeDataSpace) <==>
      Truncate16(total) <= p.header.freeSpace && FindFreeSlot(p.slots).Some? && fit.NoSpace?
    ensures r == Err(NotEnoughContiguousSpace) <==>
      && Truncate16(total) <= p.header.freeSpace && FindFreeSlot(p.slots).Some? && fit.Placed?
      && DATA_SIZE < fit.offset + Truncate16(total) < 0x1_0000
    ensures r.Ok? ==>
      && r.value.slot == FindFreeSlot(p.slots).value
      && fit == Placed(r.value.offset)
      && r.value.total == total == Truncate16(total) <= p.header.freeSpace
      && r.value.offset + total <= DATA_SIZE
      && p.header.totalFreeSlots > 0
  {
    var t16 := Truncate16(total);
    if t16 > p.header.freeSpace then Err(NotEnoughFreeSpace)
    else match FindFreeSlot(p.slots)
      case None => Err(NoFreeSlots)
      case Some(i) =>
        match fit
        case NoSpace => Err(NoFreeDataSpace)
        case SpanOverflow => Err(Panic(AtSpanSum))
        case WindowUnderflow => Err(Panic(AtGapTest))
        case Placed(o) =>
          if o + t16 >= 0x1_0000 then Err(Panic(AtEndCheck))
          else if o + t16 > DATA_SIZE then Err(NotEnoughContiguousSpace)
          else if o + total > DATA_SIZE then Err(Panic(AtDataSlice))
          // page.rs:180 runs after the writes; a panic ends the program, so
          // making the test here changes no result
          else if p.header.totalFreeSlots == 0 then Err(Panic(AtSlotCount))
          else Ok(Plan(i, o, total))
  }

  /** The writes of page.rs:162-180 for a plan that passed every check. */
  function Apply(p: PageState, plan: Plan, xmin: u64, xmax: u64, tuple: seq<byte>): (q: PageState)
    requires WellFormed(p) && plan.slot < MAX_SLOTS && plan.total == TotalLength(tuple)
    requires plan.offset + plan.total <= DATA_SIZE && plan.total <= p.header.freeSpace
    requires p.header.totalFreeSlots > 0
    ensures WellFormed(q)
  {
    var h := TupleHeader(xmin, xmax, plan.total);
    var data := Splice(Splice(p.data, plan.offset, ToBytes(h)), plan.offset + TUPLE_HEADER_SIZE, tuple);
    PageState(PageHeader(p.header.freeSpace - plan.total, p.header.totalFreeSlots - 1),
              p.slots[plan.slot := Slot(plan.offset, plan.total, 1)],
              data)
  }

  /** The page after the call, and what the call returned. */
  datatype Outcome = Outcome(page: PageState, result: Result<nat, InsertError>)

  /** `insert_tuple` with a given answer `fit` from the offset search. */
  function InsertWith(p: PageState, xmin: u64, xmax: u64, tuple: seq<byte>, fit: Fit): (o: Outcome)
    requires WellFormed(p)
    ensures WellFormed(o.page)
    ensures o.result.Err? ==> o.page == p
    ensures o.result.Err? <==> PlanWith(p, TotalLength(tuple), fit).Err?
  {
    match PlanWith(p, TotalLength(tuple), fit)
    case Err(e) => Outcome(p, Err(e))
    case Ok(plan) => Outcome(Apply(p, plan, xmin, xmax, tuple), Ok(plan.slot))
  }

  /** `insert_tuple(xmin, xmax, tuple_data)` (page.rs:141-183). */
  function Insert(p: PageState, xmin: u64, xmax: u64, tuple: seq<byte>): (o: Outcome)
    requires WellFormed(p)
    ensures WellFormed(o.page)
  {
    InsertWith(p, xmin, xmax, tuple, FindFreeSpaceOffset(p.slots, TotalLength(tuple)))
  }

  /** Sum of the lengths of the used slots. */
  function UsedBytes(slots: seq<Slot>): nat {
    if slots == [] then 0
    else (if Used(slots[0]) then slots[0].length else 0) + UsedBytes(slots[1..])
  }

  /** Number of unused slots. */
  function FreeSlots(slots: seq<Slot>): nat {
    if slots == [] then 0
    else (if Used(slots[0]) then 0 else 1) + FreeSlots(slots[1..])
  }

  /** The bytes a used slot points at start with a tuple header whose length
      field is the slot's length. */
  predicate HoldsTuple(data: seq<byte>, s: Slot) {
    && s.offset + s.length <= |data|
    && var h := FromBytes(data[s.offset..s.offset + s.length]);
       h.Some? && h.value.lengthOfTuple == s.length
  }

  /** What every page built by `Page::new` and `insert_tuple` satisfies: used
      slots hold disjoint ranges of the data region, each starting with its
      tuple header, `free_space` is what the used slots leave of the region,
      and `total_free_slots` counts the unused slots. */
  predicate PageInvariant(p: PageState) {
    && WellFormed(p)
    && SlotsInBounds(p.slots)
    && SlotsDisjoint(p.slots)
    && (forall i :: 0 <= i < |p.slots| && Used(p.slots[i]) ==>
          TUPLE_HEADER_SIZE <= p.slots[i].length && HoldsTuple(p.data, p.slots[i]))
    && p.header.freeSpace + UsedBytes(p.slots) == DATA_SIZE
    && p.header.totalFreeSlots == FreeSlots(p.slots)
  }

  lemma {:induction false} NoneUsed(slots: seq<Slot>)
    requires forall i :: 0 <= i < |slots| ==> !Used(slots[i])
    ensures UsedBytes(slots) == 0 && FreeSlots(slots) == |slots|
  {
    if slots != [] {
      NoneUsed(slots[1..]);
    }
  }

  /** Marking an unused slot used adds its length to the used bytes and
      takes one from the free slots. */
  lemma {:induction false} MarkUsed(slots: seq<Slot>, i: nat, s: Slot)
    requires i < |slots| && !Used(slots[i]) && Used(s)
    ensures UsedBytes(slots[i := s]) == UsedBytes(slots) + s.length
    ensures FreeSlots(slots[i := s]) + 1 == FreeSlots(slots)
  {
    if i > 0 {
      assert slots[i := s][1..] == slots[1..][i - 1 := s];
      MarkUsed(slots[1..], i - 1, s);
    }
  }

  /** A new page satisfies the invariant. */
  lemma NewPageInvariant()
    ensures PageInvariant(NewPage())
  {
    NoneUsed(NewPage().slots);
  }

  /** A splice leaves every range it does not touch as it was. */
  lemma SpliceKeepsOutside(d: seq<byte>, at: nat, src: seq<byte>, lo: nat, hi: nat)
    requires at + |src| <= |d| && lo <= hi <= |d|
    requires hi <= at || at + |src| <= lo
    ensures Splice(d, at, src)[lo..hi] == d[lo..hi]
  {
    var r := Splice(d, at, src);
    assert forall k :: lo <= k < hi ==> r[k] == d[k];
  }

  /** The two writes of page.rs:167-172, seen as one: the range
      `[offset, offset + total)` holds the encoded header and the payload. */
  lemma WrittenRange(d: seq<byte>, offset: nat, h: TupleHeader, tuple: seq<byte>)
    requires offset + TUPLE_HEADER_SIZE + |tuple| <= |d|
    ensures var r := Splice(Splice(d, offset, ToBytes(h)), offset + TUPLE_HEADER_SIZE, tuple);
      && r[offset..offset + TUPLE_HEADER_SIZE] == ToBytes(h)
      && r[offset + TUPLE_HEADER_SIZE..offset + TUPLE_HEADER_SIZE + |tuple|] == tuple
      && r[offset..offset + TUPLE_HEADER_SIZE + |tuple|] == ToBytes(h) + tuple
      && forall k :: 0 <= k < |d| && !(offset <= k < offset + TUPLE_HEADER_SIZE + |tuple|) ==> r[k] == d[k]
  {
    var d1 := Splice(d, offset, ToBytes(h));
    var r := Splice(d1, offset + TUPLE_HEADER_SIZE, tuple);
    SpliceKeepsOutside(d1, offset + TUPLE_HEADER_SIZE, tuple, offset, offset + TUPLE_HEADER_SIZE);
    var e := offset + TUPLE_HEADER_SIZE + |tuple|;
    assert r[offset..e] == r[offset..offset + TUPLE_HEADER_SIZE] + r[offset + TUPLE_HEADER_SIZE..e];
  }

  /** The requirements on a plan under which its writes keep the invariant:
      a free slot, and a range inside the data region that no used slot
      overlaps. */
  predicate FreePlan(p: PageState, plan: Plan, tuple: seq<byte>) {
    && WellFormed(p)
    && plan.slot < MAX_SLOTS && !Used(p.slots[plan.slot])
    && plan.total == TotalLength(tuple) && plan.offset + plan.total <= DATA_SIZE
    && plan.total <= p.header.freeSpace && p.header.totalFreeSlots > 0
    && forall i :: 0 <= i < |p.slots| && Used(p.slots[i]) ==>
         Disjoint(Span(plan.offset, plan.offset + plan.total), SpanOf(p.slots[i]))
  }

  /** A used slot whose range the writes miss still holds its tuple. */
  lemma ApplyKeepsOtherTuple(p: PageState, plan: Plan, xmin: u64, xmax: u64, tuple: seq<byte>, i: nat)
    requires PageInvariant(p) && FreePlan(p, plan, tuple)
    requires i < |p.slots| && i != plan.slot && Used(p.slots[i])
    ensures HoldsTuple(Apply(p, plan, xmin, xmax, tuple).data, p.slots[i])
  {
    var q := Apply(p, plan, xmin, xmax, tuple);
    var si := p.slots[i];
    WrittenRange(p.data, plan.offset, TupleHeader(xmin, xmax, plan.total), tuple);
    assert Disjoint(Span(plan.offset, plan.offset + plan.total), SpanOf(si));
    assert q.data[si.offset..si.offset + si.length] == p.data[si.offset..si.offset + si.length];
  }

  /** The new slot holds its tuple, and every other used slot still does. */
  lemma ApplyKeepsTuples(p: PageState, plan: Plan, xmin: u64, xmax: u64, tuple: seq<byte>)
    requires PageInvariant(p) && FreePlan(p, plan, tuple)
    ensures var q := Apply(p, plan, xmin, xmax, tuple);
      forall i :: 0 <= i < |q.slots| && Used(q.slots[i]) ==>
        TUPLE_HEADER_SIZE <= q.slots[i].length && HoldsTuple(q.data, q.slots[i])
  {
    var q := Apply(p, plan, xmin, xmax, tuple);
    ApplyData(p, plan, xmin, xmax, tuple);
    assert HoldsTuple(q.data, q.slots[plan.slot]);
    forall i | 0 <= i < |q.slots| && Used(q.slots[i]) && i != plan.slot
      ensures TUPLE_HEADER_SIZE <= q.slots[i].length && HoldsTuple(q.data, q.slots[i])
    {
      ApplyKeepsOtherTuple(p, plan, xmin, xmax, tuple, i);
    }
  }

  /** The used slots stay inside the data region and disjoint. */
  lemma ApplyKeepsDisjoint(p: PageState, plan: Plan, xmin: u64, xmax: u64, tuple: seq<byte>)
    requires PageInvariant(p) && FreePlan(p, plan, tuple)
    ensures var q := Apply(p, plan, xmin, xmax, tuple);
      SlotsInBounds(q.slots) && SlotsDisjoint(q.slots)
  {
    var q := Apply(p, plan, xmin, xmax, tuple);
    var span := Span(plan.offset, plan.offset + plan.total);
    forall i, j | 0 <= i < j < |q.slots| && Used(q.slots[i]) && Used(q.slots[j])
      ensures Disjoint(SpanOf(q.slots[i]), SpanOf(q.slots[j]))
    {
      if i == plan.slot {
        assert Disjoint(span, SpanOf(p.slots[j]));
      } else if j == plan.slot {
        assert Disjoint(span, SpanOf(p.slots[i]));
      }
    }
  }

  /** The writes of a plan whose range is free keep the invariant. */
  lemma ApplyKeepsInvariant(p: PageState, plan: Plan, xmin: u64, xmax: u64, tuple: seq<byte>)
    requires PageInvariant(p) && FreePlan(p, plan, tuple)
    ensures PageInvariant(Apply(p, plan, xmin, xmax, tuple))
  {
    MarkUsed(p.slots, plan.slot, Slot(plan.offset, plan.total, 1));
    ApplyKeepsTuples(p, plan, xmin, xmax, tuple);
    ApplyKeepsDisjoint(p, plan, xmin, xmax, tuple);
  }

  /** `insert_tuple` keeps the invariant, whatever it returns. */
  lemma InsertKeepsInvariant(p: PageState, xmin: u64, xmax: u64, tuple: seq<byte>)
    requires PageInvariant(p)
    ensures PageInvariant(Insert(p, xmin, xmax, tuple).page)
  {
    var total := TotalLength(tuple);
    var r := PlanWith(p, total, FindFreeSpaceOffset(p.slots, total));
    if r.Ok? {
      PlacementIsFree(p.slots, total);
      assert FreePlan(p, r.value, tuple);
      ApplyKeepsInvariant(p, r.value, xmin, xmax, tuple);
    }
  }

  /** What the writes of a plan leave in the data region: the encoded header
      and the payload in the plan's range, and nothing else changed. */
  lemma ApplyData(p: PageState, plan: Plan, xmin: u64, xmax: u64, tuple: seq<byte>)
    requires WellFormed(p) && plan.slot < MAX_SLOTS && plan.total == TotalLength(tuple)
    requires plan.offset + plan.total <= DATA_SIZE && plan.total <= p.header.freeSpace
    requires p.header.totalFreeSlots > 0
    ensures var q := Apply(p, plan, xmin, xmax, tuple);
      var o, total := plan.offset, plan.total;
      && q.data[o..o + TUPLE_HEADER_SIZE] == ToBytes(TupleHeader(xmin, xmax, total))
      && q.data[o + TUPLE_HEADER_SIZE..o + total] == tuple
      && FromBytes(q.data[o..o + total]) == Some(TupleHeader(xmin, xmax, total))
      && (forall k :: 0 <= k < DATA_SIZE && !(o <= k < o + total) ==> q.data[k] == p.data[k])
  {
    var h := TupleHeader(xmin, xmax, plan.total);
    WrittenRange(p.data, plan.offset, h, tuple);
    HeaderRoundTrip(h, tuple);
  }

  /** On `Ok(i)`: `i` is the lowest free slot, which now records the range
      `[o, o + total)` inside the data region; the counters fall by `total`
      and by one; that range holds the encoded header followed by the payload
      and decodes back to the header; nothing else changes. */
  lemma InsertOkEffects(p: PageState, xmin: u64, xmax: u64, tuple: seq<byte>)
    requires WellFormed(p) && Insert(p, xmin, xmax, tuple).result.Ok?
    ensures var q := Insert(p, xmin, xmax, tuple).page;
      var i := Insert(p, xmin, xmax, tuple).result.value;
      var total := TotalLength(tuple);
      var o := q.slots[i].offset;
      && FindFreeSlot(p.slots) == Some(i)
      && FindFreeSpaceOffset(p.slots, total) == Placed(o)
      && q.slots[i] == Slot(o, total, 1)
      && o + total <= DATA_SIZE
      && q.header.freeSpace == p.header.freeSpace - total
      && q.header.totalFreeSlots == p.header.totalFreeSlots - 1
      && (forall j :: 0 <= j < |p.slots| && j != i ==> q.slots[j] == p.slots[j])
      && q.data[o..o + TUPLE_HEADER_SIZE] == ToBytes(TupleHeader(xmin, xmax, total))
      && q.data[o + TUPLE_HEADER_SIZE..o + total] == tuple
      && FromBytes(q.data[o..o + total]) == Some(TupleHeader(xmin, xmax, total))
      && (forall k :: 0 <= k < DATA_SIZE && !(o <= k < o + total) ==> q.data[k] == p.data[k])
  {
    var total := TotalLength(tuple);
    var fit := FindFreeSpaceOffset(p.slots, total);
    var plan := PlanWith(p, total, fit).value;
    assert Insert(p, xmin, xmax, tuple) == Outcome(Apply(p, plan, xmin, xmax, tuple), Ok(plan.slot));
    ApplyData(p, plan, xmin, xmax, tuple);
  }

  /** On a page that keeps the invariant, an offset found for a tuple whose
      truncated length passes the free-space check leaves that many bytes
      inside the data region. */
  lemma PlacedWithinRegion(p: PageState, total: nat)
    requires PageInvariant(p) && Truncate16(total) <= p.header.freeSpace
    requires FindFreeSpaceOffset(p.slots, total).Placed?
    ensures var o := FindFreeSpaceOffset(p.slots, total).offset;
      && o + Truncate16(total) <= DATA_SIZE
      && (o + total > DATA_SIZE ==> total >= 0x1_0000)
  {
    var o := FindFreeSpaceOffset(p.slots, total).offset;
    assert Truncate16(total) <= total;
    if exists i :: 0 <= i < |p.slots| && Used(p.slots[i]) {
      PlacementIsFree(p.slots, total);
      assert o + total <= DATA_SIZE;
    } else {
      NoneUsed(p.slots);
      PlacedAtZeroWhenRoomInFront(p.slots, total);
      assert o == 0 && p.header.freeSpace == DATA_SIZE;
    }
  }

  /** On a page that keeps the invariant, "Not enough contiguous space" and
      three of the panics cannot happen, and the slice panic needs a tuple
      whose length does not fit in 16 bits. */
  lemma InvariantRulesOut(p: PageState, xmin: u64, xmax: u64, tuple: seq<byte>)
    requires PageInvariant(p)
    ensures var r := Insert(p, xmin, xmax, tuple).result;
      && r != Err(NotEnoughContiguousSpace)
      && r != Err(Panic(AtSpanSum))
      && r != Err(Panic(AtEndCheck))
      && r != Err(Panic(AtSlotCount))
      && (r == Err(Panic(AtDataSlice)) ==> TotalLength(tuple) >= 0x1_0000)
  {
    var total := TotalLength(tuple);
    var fit := FindFreeSpaceOffset(p.slots, total);
    var slot := FindFreeSlot(p.slots);
    assert Insert(p, xmin, xmax, tuple) == InsertWith(p, xmin, xmax, tuple, fit);
    assert !fit.SpanOverflow?;
    if Truncate16(total) <= p.header.freeSpace && slot.Some? {
      MarkUsed(p.slots, slot.value, Slot(0, 1, 1));
      if fit.Placed? {
        PlacedWithinRegion(p, total);
      }
    }
  }

  /** Once every slot is in use, an insert that passes the free-space check
      fails with "No free slots available", and the counter says so. */
  lemma FullDirectoryRejects(p: PageState, xmin: u64, xmax: u64, tuple: seq<byte>)
    requires PageInvariant(p) && p.header.totalFreeSlots == 0
    requires Truncate16(TotalLength(tuple)) <= p.header.freeSpace
    ensures Insert(p, xmin, xmax, tuple).result == Err(NoFreeSlots)
  {
    var slot := FindFreeSlot(p.slots);
    if slot.Some? {
      MarkUsed(p.slots, slot.value, Slot(0, 1, 1));
    }
  }

  /** The truncating cast of page.rs:150: a payload of 65536 bytes has a
      total length of 65556, which passes the free-space check of a page
      with no tuple (a new page, say) as 20; the copy then panics. */
  lemma TruncatedLengthPassesFreeSpaceCheck(p: PageState, xmin: u64, xmax: u64, tuple: seq<byte>)
    requires WellFormed(p) && (forall i :: 0 <= i < |p.slots| ==> !Used(p.slots[i]))
    requires TUPLE_HEADER_SIZE <= p.header.freeSpace
    requires |tuple| == 0x1_0000
    ensures Truncate16(TotalLength(tuple)) == TUPLE_HEADER_SIZE
    ensures Insert(p, xmin, xmax, tuple).result == Err(Panic(AtDataSlice))
  {
    var total := TotalLength(tuple);
    assert total == 0x1_0000 + TUPLE_HEADER_SIZE;
    assert FindFreeSlot(p.slots) == Some(0);
    PlacedAtZeroWhenRoomInFront(p.slots, total);
    assert PlanWith(p, total, Placed(0)) == Err(Panic(AtDataSlice));
    assert Insert(p, xmin, xmax, tuple) == InsertWith(p, xmin, xmax, tuple, Placed(0));
  }

  /** `copy_from_slice` into `dst[at..at + |src|]`. */
  method CopyInto(dst: array<byte>, at: nat, src: seq<byte>)
    requires at + |src| <= dst.Length
    modifies dst
    ensures dst[..] == Splice(old(dst[..]), at, src)
  {
    var k := 0;
    while k < |src|
      invariant 0 <= k <= |src|
      invariant forall j :: 0 <= j < dst.Length ==>
        dst[j] == if at <= j < at + k then src[j - at] else old(dst[j])
    {
      dst[at + k] := src[k];
      k := k + 1;
    }
    assert forall j :: 0 <= j < dst.Length ==> dst[..][j] == Splice(old(dst[..]), at, src)[j];
  }

  /** A page, with its slot directory and data region held in arrays. */
  class Page {
    var header: PageHeader
    const slots: array<Slot>
    const data: array<byte>

    ghost predicate Valid()
      reads this
    {
      slots.Length == MAX_SLOTS && data.Length == DATA_SIZE
    }

    function State(): PageState
      reads this, slots, data
    {
      PageState(header, slots[..], data[..])
    }

    /** `Page::new`. */
    constructor ()
      ensures Valid() && State() == NewPage()
      ensures fresh(slots) && fresh(data)
    {
      header := NewHeader();
      slots := new Slot[MAX_SLOTS](_ => NewSlot());
      data := new byte[DATA_SIZE](_ => 0);
      new;
      assert slots[..] == NewPage().slots;
      assert data[..] == NewPage().data;
    }

    /** The checks of page.rs:147-161 and the slice bounds of page.rs:167-180,
        in the code's order, for a tuple of `total` bytes; the page is not
        changed. */
    method CheckInsert(total: nat) returns (r: Result<Plan, InsertError>)
      requires Valid()
      ensures r == PlanWith(State(), total, FindFreeSpaceOffset(State().slots, total))
    {
      var t16 := total % 0x1_0000;
      if t16 > header.freeSpace {
        return Err(NotEnoughFreeSpace);
      }
      var slotIndex := FindFreeSlot(slots[..]);
      if slotIndex.None? {
        return Err(NoFreeSlots);
      }
      var fit := FindFreeSpaceOffset(slots[..], total);
      if fit.NoSpace? {
        return Err(NoFreeDataSpace);
      } else if fit.SpanOverflow? {
        return Err(Panic(AtSpanSum));
      } else if fit.WindowUnderflow? {
        return Err(Panic(AtGapTest));
      }
      var offset := fit.offset;
      if offset + t16 >= 0x1_0000 {
        return Err(Panic(AtEndCheck));
      }
      if offset + t16 > DATA_SIZE {
        return Err(NotEnoughContiguousSpace);
      }
      if offset + total > DATA_SIZE {
        return Err(Panic(AtDataSlice));
      }
      if header.totalFreeSlots == 0 {
        return Err(Panic(AtSlotCount));
      }
      return Ok(Plan(slotIndex.value, offset, total));
    }

    /** `insert_tuple(xmin, xmax, tuple_data)`: the checks, then the header,
        the payload, the slot and the counters. */
    method InsertTuple(xmin: u64, xmax: u64, tuple: seq<byte>) returns (r: Result<nat, InsertError>)
      requires Valid()
      modifies this, slots, data
      ensures Valid()
      ensures r == Insert(old(State()), xmin, xmax, tuple).result
      ensures State() == Insert(old(State()), xmin, xmax, tuple).page
    {
      ghost var before := State();
      var total := TUPLE_HEADER_SIZE + |tuple|;
      var plan := CheckInsert(total);
      assert Insert(before, xmin, xmax, tuple) == InsertWith(before, xmin, xmax, tuple, FindFreeSpaceOffset(before.slots, total));
      if plan.Err? {
        return Err(plan.error);
      }
      var Plan(slotIndex, offset, _) := plan.value;
      CopyInto(data, offset, ToBytes(TupleHeader(xmin, xmax, total)));
      CopyInto(data, offset + TUPLE_HEADER_SIZE, tuple);
      slots[slotIndex] := Slot(offset, total, 1);
      header := PageHeader(header.freeSpace - total, header.totalFreeSlots - 1);
      assert slots[..] == before.slots[slotIndex := Slot(offset, total, 1)];
      return Ok(slotIndex);
    }
  }
}
