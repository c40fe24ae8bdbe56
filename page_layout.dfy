/** Sizes and fixed-layout records of a slotted page (src/storage/page.rs).

    A page is 8192 bytes: a 4-byte header (`free_space`, `total_free_slots`,
    two u16), a directory of 256 slots of 6 bytes each (`offset` u16, `length`
    u16, `is_used` u8, one pad byte), and the data region that fills the rest. */
module PageLayout {

  type u8 = x: int | 0 <= x < 0x100
  type u16 = x: int | 0 <= x < 0x1_0000

  const PAGE_SIZE: nat := 8192
  const MAX_SLOTS: nat := 256
  /** `size_of::<PageHeader>()`: two u16 fields. */
  const HEADER_SIZE: nat := 4
  /** `size_of::<Slot>()`: u16 + u16 + u8 + one pad byte. */
  const SLOT_SIZE: nat := 6
  const DATA_SIZE: nat := PAGE_SIZE - HEADER_SIZE - SLOT_SIZE * MAX_SLOTS

  /** One entry of the slot directory. The pad byte is always zero and is not
      represented. A slot is in use when `isUsed` is not zero. */
  datatype Slot = Slot(offset: u16, length: u16, isUsed: u8)

  datatype PageHeader = PageHeader(freeSpace: u16, totalFreeSlots: u16)

  predicate Used(s: Slot) {
    s.isUsed != 0
  }

  /** `PageHeader::new`. */
  function NewHeader(): (h: PageHeader)
    ensures h.freeSpace == DATA_SIZE == 6652 && h.totalFreeSlots == MAX_SLOTS
  {
    PageHeader(DATA_SIZE, MAX_SLOTS)
  }

  /** `Slot::new`: an unused slot. */
  function NewSlot(): (s: Slot)
    ensures !Used(s) && s.offset == 0 && s.length == 0
  {
    Slot(0, 0, 0)
  }
}
