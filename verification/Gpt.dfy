/**
 The backup of a GUID partition table (sections 5.3.2 and 5.3.3 of the UEFI Specification 2.10): read
 from bytes, turned into partitions, and checked against the disk it is restored to.
 */
module Gpt {
  import opened Options
  import opened Bytes

  newtype U64 = x: int | 0 <= x < 0x1_0000_0000_0000_0000

  const U64_MAX: U64 := 0xFFFF_FFFF_FFFF_FFFF
  const SIGNATURE: seq<Byte> := [0x45, 0x46, 0x49, 0x20, 0x50, 0x41, 0x52, 0x54]
  const HEADER_OFFSET: nat := 512
  const ENTRIES_OFFSET: nat := 3 * 512
  const HEADER_BYTES: nat := 92
  const HEADER_ENTRY_COUNT: nat := 80
  const HEADER_ENTRY_BYTES: nat := 84
  const MIN_ENTRY_BYTES: nat := 128
  const TYPE_BYTES: nat := 16
  const ENTRY_FIRST_LBA: nat := 32
  const ENTRY_LAST_LBA: nat := 40

  datatype Entry = Entry(number: nat, first: U64, last: U64)
  datatype Backup = Backup(entryArrayBytes: U64, entries: seq<Entry>)
  datatype Partition = Partition(number: nat, offset: U64, sizeBytes: U64)
  datatype ParseError = NoHeader | SmallEntries(bytes: nat) | EndsInsideEntries | EndsBeforeStart(number: nat)

  // ----- little-endian numbers ---------------------------------------------------------------------

  function Power(n: nat): (p: nat)
    ensures p >= 1
  {
    if n == 0 then 1 else 256 * Power(n - 1)
  }

  function Le(bytes: seq<Byte>): (value: nat)
    ensures value < Power(|bytes|)
  {
    if bytes == [] then 0 else bytes[0] as nat + 256 * Le(bytes[1..])
  }

  function ToLe(value: nat, width: nat): (bytes: seq<Byte>)
    ensures |bytes| == width
  {
    if width == 0 then [] else [(value % 256) as Byte] + ToLe(value / 256, width - 1)
  }

  lemma {:induction false} LeRoundTrips(value: nat, width: nat)
    requires value < Power(width)
    ensures Le(ToLe(value, width)) == value
  {
    if width > 0 {
      LeRoundTrips(value / 256, width - 1);
      assert ToLe(value, width)[1..] == ToLe(value / 256, width - 1);
    }
  }

  lemma {:induction false} LeIsUnique(bytes: seq<Byte>)
    ensures ToLe(Le(bytes), |bytes|) == bytes
  {
    if bytes != [] {
      LeIsUnique(bytes[1..]);
      var rest := Le(bytes[1..]);
      assert (bytes[0] as nat + 256 * rest) / 256 == rest && (bytes[0] as nat + 256 * rest) % 256 == bytes[0] as nat;
    }
  }

  function U32At(bytes: seq<Byte>, at: nat): (value: nat)
    requires at + 4 <= |bytes|
    ensures value < 0x1_0000_0000
  {
    assert Power(4) == 256 * 256 * 256 * 256;
    Le(bytes[at..at + 4])
  }

  function U64At(bytes: seq<Byte>, at: nat): U64
    requires at + 8 <= |bytes|
  {
    assert Power(8) == 256 * 256 * 256 * 256 * Power(4) && Power(4) == 256 * 256 * 256 * 256;
    Le(bytes[at..at + 8]) as U64
  }

  // ----- reading a backup --------------------------------------------------------------------------

  predicate Unused(bytes: seq<Byte>, at: nat)
    requires at + MIN_ENTRY_BYTES <= |bytes|
  {
    forall i :: at <= i < at + TYPE_BYTES ==> bytes[i] == 0
  }

  /** One chunk of the entry array. */
  datatype Chunk = FreeChunk | UsedChunk(first: U64, last: U64)

  function ChunkAt(bytes: seq<Byte>, at: nat): Chunk
    requires at + MIN_ENTRY_BYTES <= |bytes|
  {
    if Unused(bytes, at) then FreeChunk
    else UsedChunk(U64At(bytes, at + ENTRY_FIRST_LBA), U64At(bytes, at + ENTRY_LAST_LBA))
  }

  /** The whole chunks of `bytes[at..end]`. */
  function ChunksOf(bytes: seq<Byte>, at: nat, end: nat, size: nat): seq<Chunk>
    requires size >= MIN_ENTRY_BYTES && at <= end <= |bytes|
    decreases end - at
  {
    if at + size > end then [] else [ChunkAt(bytes, at)] + ChunksOf(bytes, at + size, end, size)
  }

  /** The used chunks with their numbers, the first chunk being number `number`, or the first partition
      that ends before it starts. */
  function EntriesOf(chunks: seq<Chunk>, number: nat): Result<seq<Entry>, ParseError>
    decreases |chunks|
  {
    if chunks == [] then Ok([])
    else match chunks[0]
      case FreeChunk => EntriesOf(chunks[1..], number + 1)
      case UsedChunk(first, last) =>
        if first > last then Err(EndsBeforeStart(number))
        else
          var rest := EntriesOf(chunks[1..], number + 1);
          if rest.Err? then rest else Ok([Entry(number, first, last)] + rest.value)
  }

  predicate HasHeader(bytes: seq<Byte>) {
    |bytes| >= HEADER_OFFSET + HEADER_BYTES && bytes[HEADER_OFFSET..HEADER_OFFSET + |SIGNATURE|] == SIGNATURE
  }

  lemma TimesGrows(a: int, c: int, b: nat)
    requires a <= c
    ensures a * b <= c * b
  {
  }

  lemma ProductFits(a: nat, b: nat)
    requires a < 0x1_0000_0000 && b < 0x1_0000_0000
    ensures 0 <= a * b < 0x1_0000_0000_0000_0000
  {
    TimesGrows(a, 0xFFFF_FFFF, b);
    TimesGrows(0, a, b);
  }

  /** The product of two 32-bit numbers, which 64 bits always hold. */
  function Product(a: nat, b: nat): (product: U64)
    requires a < 0x1_0000_0000 && b < 0x1_0000_0000
    ensures product as int == a * b
  {
    ProductFits(a, b);
    (a * b) as U64
  }

  /** Reads a backup, whatever its bytes. */
  function Parse(bytes: seq<Byte>): Result<Backup, ParseError> {
    if !HasHeader(bytes) then Err(NoHeader)
    else
      var count := U32At(bytes, HEADER_OFFSET + HEADER_ENTRY_COUNT);
      var size := U32At(bytes, HEADER_OFFSET + HEADER_ENTRY_BYTES);
      if size < MIN_ENTRY_BYTES then Err(SmallEntries(size))
      else
        var arrayBytes := Product(count, size);
        if ENTRIES_OFFSET + arrayBytes as nat > |bytes| then Err(EndsInsideEntries)
        else
          var chunks := ChunksOf(bytes, ENTRIES_OFFSET, ENTRIES_OFFSET + arrayBytes as nat, size);
          var entries := EntriesOf(chunks, 1);
          if entries.Err? then Err(entries.error) else Ok(Backup(arrayBytes, entries.value))
  }

  // ----- writing one -------------------------------------------------------------------------------

  /** A slot of the entry array: unused, or a partition with its type and whatever else it holds. */
  datatype Slot =
    | Free(rest: seq<Byte>)
    | Used(kind: seq<Byte>, unique: seq<Byte>, first: U64, last: U64, rest: seq<Byte>)

  predicate SlotFits(slot: Slot, size: nat) {
    match slot
    case Free(rest) => TYPE_BYTES + |rest| == size
    case Used(kind, unique, _, _, rest) =>
      && |kind| == TYPE_BYTES && |unique| == 16 && ENTRY_LAST_LBA + 8 + |rest| == size
      && exists i :: 0 <= i < TYPE_BYTES && kind[i] != 0
  }

  predicate AllFit(slots: seq<Slot>, size: nat) {
    slots == [] || (SlotFits(slots[0], size) && AllFit(slots[1..], size))
  }

  function SlotBytes(slot: Slot): seq<Byte> {
    match slot
    case Free(rest) => seq(TYPE_BYTES, _ => 0) + rest
    case Used(kind, unique, first, last, rest) => kind + unique + ToLe(first as nat, 8) + ToLe(last as nat, 8) + rest
  }

  function ArrayBytes(slots: seq<Slot>): seq<Byte> {
    if slots == [] then [] else SlotBytes(slots[0]) + ArrayBytes(slots[1..])
  }

  function ChunkOf(slot: Slot): Chunk {
    match slot
    case Free(_) => FreeChunk
    case Used(_, _, first, last, _) => UsedChunk(first, last)
  }

  function SlotChunks(slots: seq<Slot>): seq<Chunk> {
    if slots == [] then [] else [ChunkOf(slots[0])] + SlotChunks(slots[1..])
  }

  /** A backup as the UEFI Specification lays it out: a block before the header, the header with the
      fields that are not read as given, a block after it, the entries, and anything after them. */
  datatype Layout = Layout(before: seq<Byte>, fields: seq<Byte>, after: seq<Byte>, size: nat, slots: seq<Slot>,
                           trailing: seq<Byte>)

  ghost predicate Sound(layout: Layout) {
    && |layout.before| == HEADER_OFFSET && |layout.fields| == HEADER_ENTRY_COUNT - |SIGNATURE|
    && |layout.after| == ENTRIES_OFFSET - HEADER_OFFSET - HEADER_ENTRY_BYTES - 4
    && MIN_ENTRY_BYTES <= layout.size < 0x1_0000_0000 && |layout.slots| < 0x1_0000_0000
    && AllFit(layout.slots, layout.size)
  }

  function HeaderBytes(layout: Layout): seq<Byte> {
    SIGNATURE + layout.fields + ToLe(|layout.slots|, 4) + ToLe(layout.size, 4)
  }

  function Encode(layout: Layout): seq<Byte> {
    layout.before + HeaderBytes(layout) + layout.after + ArrayBytes(layout.slots) + layout.trailing
  }

  lemma SlotLength(slot: Slot, size: nat)
    requires SlotFits(slot, size)
    ensures |SlotBytes(slot)| == size
  {
  }

  lemma OneTimesMore(n: nat, size: nat)
    requires n > 0
    ensures n * size == size + (n - 1) * size
  {
  }

  lemma {:induction false} ArrayLength(slots: seq<Slot>, size: nat)
    requires AllFit(slots, size)
    ensures |ArrayBytes(slots)| == |slots| * size
  {
    if slots != [] {
      ArrayLength(slots[1..], size);
      SlotLength(slots[0], size);
      OneTimesMore(|slots|, size);
    }
  }

  lemma NumberReads(bytes: seq<Byte>, at: nat, value: nat, width: nat)
    requires at + width <= |bytes| && value < Power(width) && bytes[at..at + width] == ToLe(value, width)
    ensures Le(bytes[at..at + width]) == value
  {
    LeRoundTrips(value, width);
  }

  lemma PowerValues()
    ensures Power(4) == 0x1_0000_0000 && Power(8) == 0x1_0000_0000_0000_0000
  {
    assert Power(4) == 256 * 256 * 256 * 256;
    assert Power(8) == 256 * 256 * 256 * 256 * Power(4);
  }

  lemma SlotPieces(slot: Slot, size: nat)
    requires SlotFits(slot, size)
    ensures |SlotBytes(slot)| == size >= TYPE_BYTES
    ensures slot.Free? ==> forall i :: 0 <= i < TYPE_BYTES ==> SlotBytes(slot)[i] == 0
    ensures slot.Used? ==>
            && size >= ENTRY_LAST_LBA + 8 && (exists i :: 0 <= i < TYPE_BYTES && SlotBytes(slot)[i] != 0)
            && SlotBytes(slot)[ENTRY_FIRST_LBA..ENTRY_FIRST_LBA + 8] == ToLe(slot.first as nat, 8)
            && SlotBytes(slot)[ENTRY_LAST_LBA..ENTRY_LAST_LBA + 8] == ToLe(slot.last as nat, 8)
  {
    if slot.Used? {
      var i :| 0 <= i < TYPE_BYTES && slot.kind[i] != 0;
      assert SlotBytes(slot)[i] == slot.kind[i];
    }
  }

  lemma U64Reads(bytes: seq<Byte>, at: nat, end: nat, i: nat, value: U64)
    requires at + i + 8 <= end <= |bytes| && bytes[at..end][i..i + 8] == ToLe(value as nat, 8)
    ensures U64At(bytes, at + i) == value
  {
    SliceOfSlice(bytes, at, end, i, i + 8);
    PowerValues();
    NumberReads(bytes, at + i, value as nat, 8);
  }

  /** One slot, where it stands, reads as what it says. */
  lemma SlotReads(bytes: seq<Byte>, at: nat, slot: Slot, size: nat)
    requires size >= MIN_ENTRY_BYTES && at + size <= |bytes|
    requires SlotFits(slot, size) && bytes[at..at + size] == SlotBytes(slot)
    ensures ChunkAt(bytes, at) == ChunkOf(slot)
  {
    SlotPieces(slot, size);
    var slice := bytes[at..at + size];
    assert forall i :: 0 <= i < TYPE_BYTES ==> slice[i] == bytes[at + i];
    if slot.Used? {
      U64Reads(bytes, at, at + size, ENTRY_FIRST_LBA, slot.first);
      U64Reads(bytes, at, at + size, ENTRY_LAST_LBA, slot.last);
    }
  }

  lemma SplitAt(bytes: seq<Byte>, at: nat, end: nat, first: seq<Byte>, rest: seq<Byte>)
    requires at <= end <= |bytes| && bytes[at..end] == first + rest
    ensures at + |first| <= end
    ensures bytes[at..at + |first|] == first && bytes[at + |first|..end] == rest
  {
    assert bytes[at..at + |first|] == bytes[at..end][..|first|];
    assert bytes[at + |first|..end] == bytes[at..end][|first|..];
  }

  lemma FirstSlotReads(bytes: seq<Byte>, at: nat, end: nat, slots: seq<Slot>, size: nat)
    requires size >= MIN_ENTRY_BYTES && at <= end <= |bytes| && slots != [] && AllFit(slots, size)
    requires bytes[at..end] == ArrayBytes(slots)
    ensures at + size <= end && ChunkAt(bytes, at) == ChunkOf(slots[0])
    ensures bytes[at + size..end] == ArrayBytes(slots[1..])
  {
    SlotLength(slots[0], size);
    SplitAt(bytes, at, end, SlotBytes(slots[0]), ArrayBytes(slots[1..]));
    SlotReads(bytes, at, slots[0], size);
  }

  lemma {:induction false} ArrayReads(bytes: seq<Byte>, at: nat, end: nat, slots: seq<Slot>, size: nat)
    requires size >= MIN_ENTRY_BYTES && at <= end <= |bytes| && AllFit(slots, size)
    requires bytes[at..end] == ArrayBytes(slots)
    ensures ChunksOf(bytes, at, end, size) == SlotChunks(slots)
    decreases |slots|
  {
    if slots == [] {
      assert |bytes[at..end]| == 0;
    } else {
      var rest := slots[1..];
      FirstSlotReads(bytes, at, end, slots, size);
      ArrayReads(bytes, at + size, end, rest, size);
      OneChunkMore(bytes, at, end, size);
      OneSlotMore(slots);
    }
  }

  lemma OneSlotMore(slots: seq<Slot>)
    requires slots != []
    ensures SlotChunks(slots) == [ChunkOf(slots[0])] + SlotChunks(slots[1..])
  {
  }

  lemma OneChunkMore(bytes: seq<Byte>, at: nat, end: nat, size: nat)
    requires size >= MIN_ENTRY_BYTES && at + size <= end <= |bytes|
    ensures ChunksOf(bytes, at, end, size) == [ChunkAt(bytes, at)] + ChunksOf(bytes, at + size, end, size)
  {
  }

  lemma HeaderFields(layout: Layout)
    requires Sound(layout)
    ensures var header := HeaderBytes(layout);
      && |header| == HEADER_ENTRY_BYTES + 4 && header[..|SIGNATURE|] == SIGNATURE
      && header[HEADER_ENTRY_COUNT..HEADER_ENTRY_COUNT + 4] == ToLe(|layout.slots|, 4)
      && header[HEADER_ENTRY_BYTES..HEADER_ENTRY_BYTES + 4] == ToLe(layout.size, 4)
  {
  }

  lemma LayoutPieces(layout: Layout, bytes: seq<Byte>)
    requires Sound(layout) && bytes == Encode(layout)
    ensures ENTRIES_OFFSET + |ArrayBytes(layout.slots)| <= |bytes|
    ensures bytes[HEADER_OFFSET..HEADER_OFFSET + HEADER_ENTRY_BYTES + 4] == HeaderBytes(layout)
    ensures bytes[ENTRIES_OFFSET..ENTRIES_OFFSET + |ArrayBytes(layout.slots)|] == ArrayBytes(layout.slots)
  {
    assert |HeaderBytes(layout)| == HEADER_ENTRY_BYTES + 4;
  }

  /** A slice of a slice is a slice. */
  lemma SliceOfSlice(bytes: seq<Byte>, at: nat, end: nat, i: nat, j: nat)
    requires i <= j && at + j <= end <= |bytes|
    ensures bytes[at + i..at + j] == bytes[at..end][i..j]
  {
    var slice := bytes[at..end];
    assert forall k :: i <= k < j ==> slice[k] == bytes[at + k];
  }

  lemma HeaderNumber(bytes: seq<Byte>, at: nat, end: nat, i: nat, value: nat)
    requires at + i + 4 <= end <= |bytes| && value < 0x1_0000_0000 && bytes[at..end][i..i + 4] == ToLe(value, 4)
    ensures U32At(bytes, at + i) == value
  {
    SliceOfSlice(bytes, at, end, i, i + 4);
    PowerValues();
    NumberReads(bytes, at + i, value, 4);
  }

  lemma LayoutReads(layout: Layout, bytes: seq<Byte>)
    requires Sound(layout) && bytes == Encode(layout)
    ensures HasHeader(bytes)
    ensures U32At(bytes, HEADER_OFFSET + HEADER_ENTRY_COUNT) == |layout.slots|
    ensures U32At(bytes, HEADER_OFFSET + HEADER_ENTRY_BYTES) == layout.size
  {
    LayoutPieces(layout, bytes);
    HeaderFields(layout);
    var end := HEADER_OFFSET + HEADER_ENTRY_BYTES + 4;
    SliceOfSlice(bytes, HEADER_OFFSET, end, 0, |SIGNATURE|);
    HeaderNumber(bytes, HEADER_OFFSET, end, HEADER_ENTRY_COUNT, |layout.slots|);
    HeaderNumber(bytes, HEADER_OFFSET, end, HEADER_ENTRY_BYTES, layout.size);
  }

  /** The partition ends before it starts. */
  predicate Backwards(slot: Slot) {
    slot.Used? && slot.first > slot.last
  }

  ghost predicate NoneBackwards(slots: seq<Slot>) {
    forall i :: 0 <= i < |slots| ==> !Backwards(slots[i])
  }

  /** The entries are the used slots, in their order, the first slot being number `number`. */
  ghost predicate Lists(slots: seq<Slot>, number: nat, entries: seq<Entry>) {
    && (forall j, k :: 0 <= j < k < |entries| ==> entries[j].number < entries[k].number)
    && (forall k :: 0 <= k < |entries| ==> IsSlot(slots, number, entries[k]))
    && forall i :: 0 <= i < |slots| && slots[i].Used? ==> Entry(number + i, slots[i].first, slots[i].last) in entries
  }

  /** The entry is that of a used slot. */
  predicate IsSlot(slots: seq<Slot>, number: nat, entry: Entry) {
    && number <= entry.number < number + |slots|
    && var slot := slots[entry.number - number];
       slot.Used? && slot.first == entry.first && slot.last == entry.last
  }

  /** The slot number `bad` is the first one whose partition ends before it starts. */
  ghost predicate FirstBackwards(slots: seq<Slot>, number: nat, bad: nat) {
    && number <= bad < number + |slots| && Backwards(slots[bad - number])
    && forall i :: 0 <= i < bad - number ==> !Backwards(slots[i])
  }

  /** What reading the slots gives: the used ones with their numbers, or the first that cannot be. */
  ghost predicate ReadAs(slots: seq<Slot>, number: nat, found: Result<seq<Entry>, ParseError>) {
    match found
    case Ok(entries) => NoneBackwards(slots) && Lists(slots, number, entries)
    case Err(EndsBeforeStart(bad)) => FirstBackwards(slots, number, bad)
    case Err(_) => false
  }

  lemma IsSlotBehind(slots: seq<Slot>, number: nat, entry: Entry)
    requires slots != [] && IsSlot(slots[1..], number + 1, entry)
    ensures IsSlot(slots, number, entry) && entry.number > number
  {
    assert slots[1..][entry.number - (number + 1)] == slots[entry.number - number];
  }

  lemma ListsBehind(slots: seq<Slot>, number: nat, entries: seq<Entry>, i: nat)
    requires 0 < i < |slots| && slots[i].Used? && Lists(slots[1..], number + 1, entries)
    ensures Entry(number + i, slots[i].first, slots[i].last) in entries
  {
    assert slots[1..][i - 1] == slots[i];
  }

  lemma FreeSlotFirst(slots: seq<Slot>, number: nat, entries: seq<Entry>)
    requires slots != [] && slots[0].Free? && Lists(slots[1..], number + 1, entries)
    ensures Lists(slots, number, entries)
  {
    forall k | 0 <= k < |entries| ensures IsSlot(slots, number, entries[k]) {
      IsSlotBehind(slots, number, entries[k]);
    }
    forall i | 0 <= i < |slots| && slots[i].Used? ensures Entry(number + i, slots[i].first, slots[i].last) in entries {
      ListsBehind(slots, number, entries, i);
    }
  }

  lemma UsedSlotFirst(slots: seq<Slot>, number: nat, entries: seq<Entry>)
    requires slots != [] && slots[0].Used? && Lists(slots[1..], number + 1, entries)
    ensures Lists(slots, number, [Entry(number, slots[0].first, slots[0].last)] + entries)
  {
    var first := Entry(number, slots[0].first, slots[0].last);
    var all := [first] + entries;
    forall k | 0 <= k < |entries| ensures IsSlot(slots, number, entries[k]) && entries[k].number > number {
      IsSlotBehind(slots, number, entries[k]);
    }
    forall i | 0 <= i < |slots| && slots[i].Used? ensures Entry(number + i, slots[i].first, slots[i].last) in all {
      if i > 0 {
        ListsBehind(slots, number, entries, i);
      } else {
        assert all[0] == first;
      }
    }
  }

  lemma FirstBackwardsBehind(slots: seq<Slot>, number: nat, bad: nat)
    requires slots != [] && !Backwards(slots[0]) && FirstBackwards(slots[1..], number + 1, bad)
    ensures FirstBackwards(slots, number, bad)
  {
    forall i | 0 <= i < bad - number ensures !Backwards(slots[i]) {
      if i > 0 {
        assert slots[1..][i - 1] == slots[i];
      }
    }
  }

  lemma NoneBackwardsOneMore(slots: seq<Slot>)
    requires slots != [] && !Backwards(slots[0]) && NoneBackwards(slots[1..])
    ensures NoneBackwards(slots)
  {
    forall i | 0 <= i < |slots| ensures !Backwards(slots[i]) {
      if i > 0 {
        assert slots[1..][i - 1] == slots[i];
      }
    }
  }

  lemma {:induction false} EntriesAreTheSlots(slots: seq<Slot>, number: nat)
    ensures ReadAs(slots, number, EntriesOf(SlotChunks(slots), number))
    decreases |slots|
  {
    if slots != [] && !Backwards(slots[0]) {
      EntriesAreTheSlots(slots[1..], number + 1);
      assert SlotChunks(slots)[1..] == SlotChunks(slots[1..]);
      match EntriesOf(SlotChunks(slots[1..]), number + 1) {
        case Ok(entries) =>
          NoneBackwardsOneMore(slots);
          if slots[0].Used? {
            UsedSlotFirst(slots, number, entries);
          } else {
            FreeSlotFirst(slots, number, entries);
          }
        case Err(EndsBeforeStart(bad)) => FirstBackwardsBehind(slots, number, bad);
        case Err(_) =>
      }
    }
  }

  lemma ParseReadsSlots(layout: Layout)
    requires Sound(layout)
    ensures |layout.slots| * layout.size < 0x1_0000_0000_0000_0000
    ensures var entries := EntriesOf(SlotChunks(layout.slots), 1);
      Parse(Encode(layout)) == if entries.Err? then Err(entries.error)
                               else Ok(Backup((|layout.slots| * layout.size) as U64, entries.value))
  {
    var bytes := Encode(layout);
    LayoutReads(layout, bytes);
    LayoutPieces(layout, bytes);
    ArrayLength(layout.slots, layout.size);
    ProductFits(|layout.slots|, layout.size);
    ArrayReads(bytes, ENTRIES_OFFSET, ENTRIES_OFFSET + |ArrayBytes(layout.slots)|, layout.slots, layout.size);
  }

  /** Reading inverts writing: it succeeds exactly when no partition ends before it starts, and then gives
      every used slot under its number, in order, and nothing else; otherwise it names the first bad one. */
  lemma ParseInvertsEncode(layout: Layout)
    requires Sound(layout)
    ensures Parse(Encode(layout)).Ok? <==> NoneBackwards(layout.slots)
    ensures match Parse(Encode(layout))
            case Ok(backup) =>
              && Lists(layout.slots, 1, backup.entries)
              && backup.entryArrayBytes as int == |layout.slots| * layout.size
            case Err(EndsBeforeStart(bad)) => FirstBackwards(layout.slots, 1, bad)
            case Err(_) => false
  {
    ParseReadsSlots(layout);
    EntriesAreTheSlots(layout.slots, 1);
  }

  // ----- every readable backup is laid out that way ------------------------------------------------

  function SlotAt(bytes: seq<Byte>, at: nat, size: nat): Slot
    requires size >= MIN_ENTRY_BYTES && at + size <= |bytes|
  {
    if Unused(bytes, at) then Free(bytes[at + TYPE_BYTES..at + size])
    else Used(bytes[at..at + TYPE_BYTES], bytes[at + TYPE_BYTES..at + ENTRY_FIRST_LBA], U64At(bytes, at + ENTRY_FIRST_LBA),
              U64At(bytes, at + ENTRY_LAST_LBA), bytes[at + ENTRY_LAST_LBA + 8..at + size])
  }

  lemma Adjacent(bytes: seq<Byte>, from: nat, middle: nat, end: nat)
    requires from <= middle <= end <= |bytes|
    ensures bytes[from..middle] + bytes[middle..end] == bytes[from..end]
  {
  }

  lemma U64Writes(bytes: seq<Byte>, at: nat)
    requires at + 8 <= |bytes|
    ensures ToLe(U64At(bytes, at) as nat, 8) == bytes[at..at + 8]
  {
    LeIsUnique(bytes[at..at + 8]);
  }

  lemma FiveParts(bytes: seq<Byte>, a: nat, b: nat, c: nat, d: nat, e: nat, f: nat)
    requires a <= b <= c <= d <= e <= f <= |bytes|
    ensures bytes[a..b] + bytes[b..c] + bytes[c..d] + bytes[d..e] + bytes[e..f] == bytes[a..f]
  {
    Adjacent(bytes, a, b, c);
    Adjacent(bytes, a, c, d);
    Adjacent(bytes, a, d, e);
    Adjacent(bytes, a, e, f);
  }

  lemma UsedSlotWrites(bytes: seq<Byte>, at: nat, size: nat)
    requires size >= MIN_ENTRY_BYTES && at + size <= |bytes| && !Unused(bytes, at)
    ensures SlotBytes(SlotAt(bytes, at, size)) == bytes[at..at + size]
  {
    var unique, first, last, rest := at + TYPE_BYTES, at + ENTRY_FIRST_LBA, at + ENTRY_LAST_LBA, at + ENTRY_LAST_LBA + 8;
    U64Writes(bytes, first);
    U64Writes(bytes, last);
    var slot := SlotAt(bytes, at, size);
    UsedSlotAt(bytes, at, size, unique, first, last, rest);
    UsedBytes(slot, bytes[first..last], bytes[last..rest]);
    FiveParts(bytes, at, unique, first, last, rest, at + size);
  }

  lemma UsedSlotAt(bytes: seq<Byte>, at: nat, size: nat, unique: nat, first: nat, last: nat, rest: nat)
    requires size >= MIN_ENTRY_BYTES && at + size <= |bytes| && !Unused(bytes, at)
    requires unique == at + TYPE_BYTES && first == at + ENTRY_FIRST_LBA && last == at + ENTRY_LAST_LBA && rest == last + 8
    ensures SlotAt(bytes, at, size)
         == Used(bytes[at..unique], bytes[unique..first], U64At(bytes, first), U64At(bytes, last), bytes[rest..at + size])
  {
  }

  lemma UsedBytes(slot: Slot, first: seq<Byte>, last: seq<Byte>)
    requires slot.Used? && ToLe(slot.first as nat, 8) == first && ToLe(slot.last as nat, 8) == last
    ensures SlotBytes(slot) == slot.kind + slot.unique + first + last + slot.rest
  {
  }

  lemma SlotAtWrites(bytes: seq<Byte>, at: nat, size: nat)
    requires size >= MIN_ENTRY_BYTES && at + size <= |bytes|
    ensures SlotFits(SlotAt(bytes, at, size), size) && SlotBytes(SlotAt(bytes, at, size)) == bytes[at..at + size]
  {
    if Unused(bytes, at) {
      assert seq(TYPE_BYTES, _ => 0) == bytes[at..at + TYPE_BYTES];
      Adjacent(bytes, at, at + TYPE_BYTES, at + size);
    } else {
      var i :| at <= i < at + TYPE_BYTES && bytes[i] != 0;
      assert bytes[at..at + TYPE_BYTES][i - at] != 0;
      UsedSlotWrites(bytes, at, size);
    }
  }

  lemma OneSlotFirst(slot: Slot, rest: seq<Slot>, size: nat)
    requires SlotFits(slot, size) && AllFit(rest, size)
    ensures AllFit([slot] + rest, size) && ArrayBytes([slot] + rest) == SlotBytes(slot) + ArrayBytes(rest)
  {
    assert ([slot] + rest)[1..] == rest;
  }

  /** `count` pieces of `size` bytes reach from `at` to `end`. */
  predicate Fills(at: nat, end: nat, count: nat, size: nat)
    decreases count
  {
    if count == 0 then at == end else at + size <= end && Fills(at + size, end, count - 1, size)
  }

  lemma {:induction false} ProductFills(at: nat, count: nat, size: nat)
    ensures at <= at + count * size && Fills(at, at + count * size, count, size)
    decreases count
  {
    if count > 0 {
      OneTimesMore(count, size);
      ProductFills(at + size, count - 1, size);
    }
  }

  lemma {:induction false} SlotsAt(bytes: seq<Byte>, at: nat, end: nat, count: nat, size: nat) returns (slots: seq<Slot>)
    requires size >= MIN_ENTRY_BYTES && at <= end <= |bytes| && Fills(at, end, count, size)
    ensures |slots| == count && AllFit(slots, size) && ArrayBytes(slots) == bytes[at..end]
    decreases count
  {
    if count == 0 {
      slots := [];
    } else {
      var rest := SlotsAt(bytes, at + size, end, count - 1, size);
      SlotAtWrites(bytes, at, size);
      OneSlotFirst(SlotAt(bytes, at, size), rest, size);
      Adjacent(bytes, at, at + size, end);
      slots := [SlotAt(bytes, at, size)] + rest;
    }
  }

  lemma NumberWrites(bytes: seq<Byte>, at: nat)
    requires at + 4 <= |bytes|
    ensures ToLe(U32At(bytes, at), 4) == bytes[at..at + 4]
  {
    LeIsUnique(bytes[at..at + 4]);
  }

  /** The layout of bytes with a header whose entries are all there. */
  lemma LayoutOf(bytes: seq<Byte>, count: nat, size: nat, end: nat) returns (layout: Layout)
    requires HasHeader(bytes) && ENTRIES_OFFSET <= end <= |bytes| && Fills(ENTRIES_OFFSET, end, count, size)
    requires count == U32At(bytes, HEADER_OFFSET + HEADER_ENTRY_COUNT)
    requires size == U32At(bytes, HEADER_OFFSET + HEADER_ENTRY_BYTES) >= MIN_ENTRY_BYTES
    ensures Sound(layout) && Encode(layout) == bytes
  {
    var slots := SlotsAt(bytes, ENTRIES_OFFSET, end, count, size);
    var countAt, sizeAt := HEADER_OFFSET + HEADER_ENTRY_COUNT, HEADER_OFFSET + HEADER_ENTRY_BYTES;
    layout := Layout(bytes[..HEADER_OFFSET], bytes[HEADER_OFFSET + |SIGNATURE|..countAt], bytes[sizeAt + 4..ENTRIES_OFFSET],
                     size, slots, bytes[end..]);
    HeaderWrites(bytes, layout);
    FiveParts(bytes, 0, HEADER_OFFSET, sizeAt + 4, ENTRIES_OFFSET, end, |bytes|);
    assert bytes[0..|bytes|] == bytes && bytes[0..HEADER_OFFSET] == bytes[..HEADER_OFFSET] && bytes[end..|bytes|] == bytes[end..];
  }

  lemma HeaderWrites(bytes: seq<Byte>, layout: Layout)
    requires HasHeader(bytes)
    requires layout.fields == bytes[HEADER_OFFSET + |SIGNATURE|..HEADER_OFFSET + HEADER_ENTRY_COUNT]
    requires |layout.slots| == U32At(bytes, HEADER_OFFSET + HEADER_ENTRY_COUNT)
    requires layout.size == U32At(bytes, HEADER_OFFSET + HEADER_ENTRY_BYTES)
    ensures HeaderBytes(layout) == bytes[HEADER_OFFSET..HEADER_OFFSET + HEADER_ENTRY_BYTES + 4]
  {
    var countAt, sizeAt := HEADER_OFFSET + HEADER_ENTRY_COUNT, HEADER_OFFSET + HEADER_ENTRY_BYTES;
    NumberWrites(bytes, countAt);
    NumberWrites(bytes, sizeAt);
    Adjacent(bytes, HEADER_OFFSET, HEADER_OFFSET + |SIGNATURE|, countAt);
    Adjacent(bytes, HEADER_OFFSET, countAt, sizeAt);
    Adjacent(bytes, HEADER_OFFSET, sizeAt, sizeAt + 4);
  }

  /** A backup is readable exactly when it is laid out so and no partition in it ends before it starts. */
  lemma ReadableIsLaidOut(bytes: seq<Byte>)
    ensures Parse(bytes).Ok? <==>
            exists layout :: Sound(layout) && Encode(layout) == bytes && NoneBackwards(layout.slots)
  {
    if Parse(bytes).Ok? {
      var count := U32At(bytes, HEADER_OFFSET + HEADER_ENTRY_COUNT);
      var size := U32At(bytes, HEADER_OFFSET + HEADER_ENTRY_BYTES);
      ProductFills(ENTRIES_OFFSET, count, size);
      var layout := LayoutOf(bytes, count, size, ENTRIES_OFFSET + Product(count, size) as nat);
      ParseInvertsEncode(layout);
    }
    if layout :| Sound(layout) && Encode(layout) == bytes && NoneBackwards(layout.slots) {
      ParseInvertsEncode(layout);
    }
  }

  // ----- partitions --------------------------------------------------------------------------------

  function CheckedAdd(a: U64, b: U64): Option<U64> {
    if a as int + b as int <= U64_MAX as int then Some(a + b) else None
  }

  function CheckedMul(a: U64, b: U64): Option<U64> {
    if a as int * b as int <= U64_MAX as int then Some(((a as int) * (b as int)) as U64) else None
  }

  function SaturatingAdd(a: U64, b: U64): U64 {
    if a as int + b as int <= U64_MAX as int then a + b else U64_MAX
  }

  function SaturatingMul(a: U64, b: U64): U64 {
    if a as int * b as int <= U64_MAX as int then ((a as int) * (b as int)) as U64 else U64_MAX
  }

  /** What parsing establishes of the entries. */
  ghost predicate Ordered(entries: seq<Entry>) {
    forall i :: 0 <= i < |entries| ==> entries[i].first <= entries[i].last
  }

  lemma {:induction false} EntriesAreOrdered(chunks: seq<Chunk>, number: nat)
    requires EntriesOf(chunks, number).Ok?
    ensures Ordered(EntriesOf(chunks, number).value)
    decreases |chunks|
  {
    if chunks != [] {
      EntriesAreOrdered(chunks[1..], number + 1);
    }
  }

  lemma ParsedIsOrdered(bytes: seq<Byte>)
    ensures Parse(bytes).Ok? ==> Ordered(Parse(bytes).value.entries)
  {
    if Parse(bytes).Ok? {
      var count := U32At(bytes, HEADER_OFFSET + HEADER_ENTRY_COUNT);
      var size := U32At(bytes, HEADER_OFFSET + HEADER_ENTRY_BYTES);
      EntriesAreOrdered(ChunksOf(bytes, ENTRIES_OFFSET, ENTRIES_OFFSET + Product(count, size) as nat, size), 1);
    }
  }

  lemma InsideProduct(first: nat, last: nat, size: nat)
    requires first <= last
    ensures 0 <= first * size <= last * size <= (last + 1) * size
    ensures (last + 1) * size - first * size == (last - first + 1) * size
  {
  }

  /** An entry in bytes, or nothing when it ends beyond 2^64: no step overflows or goes below zero. */
  function PartitionOf(entry: Entry, sectorSize: U64): (partition: Option<Partition>)
    requires entry.first <= entry.last
    ensures partition.Some? <==>
              entry.last < U64_MAX && (entry.last as int + 1) * sectorSize as int <= U64_MAX as int
    ensures (partition.Some? ==>
              && partition.value.number == entry.number
              && partition.value.offset as int == entry.first as int * sectorSize as int
              && partition.value.sizeBytes as int
                 == (entry.last as int - entry.first as int + 1) * sectorSize as int)
  {
    InsideProduct(entry.first as int, entry.last as int, sectorSize as int);
    var sectors := CheckedAdd(entry.last, 1);
    if sectors.None? then None
    else
      var end := CheckedMul(sectors.value, sectorSize);
      if end.None? then None
      else
        var offset := ((entry.first as int) * (sectorSize as int)) as U64;
        Some(Partition(entry.number, offset, end.value - offset))
  }

  function Partitions(entries: seq<Entry>, sectorSize: U64): Option<seq<Partition>>
    requires Ordered(entries)
  {
    if entries == [] then Some([])
    else
      var first, rest := PartitionOf(entries[0], sectorSize), Partitions(entries[1..], sectorSize);
      if first.None? || rest.None? then None else Some([first.value] + rest.value)
  }

  /** Every partition, where and as large as its entry says, or none when one ends beyond 2^64. */
  lemma {:induction false} PartitionsMean(entries: seq<Entry>, sectorSize: U64)
    requires Ordered(entries)
    ensures Partitions(entries, sectorSize).Some? <==>
            forall i :: 0 <= i < |entries| ==>
              entries[i].last < U64_MAX
              && (entries[i].last as int + 1) * sectorSize as int <= U64_MAX as int
    ensures Partitions(entries, sectorSize).Some? ==>
            && |Partitions(entries, sectorSize).value| == |entries|
            && forall i :: 0 <= i < |entries| ==>
                 PartitionOf(entries[i], sectorSize) == Some(Partitions(entries, sectorSize).value[i])
  {
    if entries != [] {
      PartitionsMean(entries[1..], sectorSize);
    }
  }

  // ----- the size a disk needs ---------------------------------------------------------------------

  function Sectors(bytes: U64, sectorSize: U64): U64
    requires sectorSize > 0
  {
    CeilDivFits(bytes as nat, sectorSize as nat);
    ((bytes as int + sectorSize as int - 1) / sectorSize as int) as U64
  }

  /** The fewest whole sectors that hold so many bytes. */
  lemma SectorsHold(bytes: U64, sectorSize: U64, n: nat)
    requires sectorSize > 0
    ensures n * sectorSize as int >= bytes as int <==> n >= Sectors(bytes, sectorSize) as int
  {
    CeilDivFits(bytes as nat, sectorSize as nat);
    var least := Sectors(bytes, sectorSize) as int;
    if n >= least {
      Monotone(least, n, sectorSize as nat);
    } else {
      Monotone(n, least - 1, sectorSize as nat);
      assert bytes > 0;
    }
  }

  lemma CeilDivFits(n: nat, size: nat)
    requires size > 0
    ensures 0 <= (n + size - 1) / size <= n
    ensures (n + size - 1) / size * size >= n
    ensures n > 0 ==> ((n + size - 1) / size - 1) * size < n
  {
    var q := (n + size - 1) / size;
    assert n + size - 1 == q * size + (n + size - 1) % size;
    if q > n {
      Monotone(n + 1, q, size);
      assert (n + 1) * size == n * size + size;
      Monotone(1, size, n);
    }
  }

  lemma Monotone(a: int, b: int, size: nat)
    requires a <= b
    ensures a * size <= b * size
  {
  }

  function LastOf(entries: seq<Entry>): (last: U64)
    requires entries != []
    ensures exists i :: 0 <= i < |entries| && entries[i].last == last
    ensures forall i :: 0 <= i < |entries| ==> entries[i].last <= last
  {
    if |entries| == 1 then entries[0].last
    else
      var rest := LastOf(entries[1..]);
      if entries[0].last > rest then entries[0].last else rest
  }

  function RequiredSectors(backup: Backup, sectorSize: U64): U64
    requires sectorSize > 0
  {
    if backup.entries == [] then 0
    else SaturatingAdd(SaturatingAdd(SaturatingAdd(LastOf(backup.entries), 1),
                                     Sectors(backup.entryArrayBytes, sectorSize)), 1)
  }

  predicate PassesSizeCheck(backup: Backup, sectorSize: U64, diskBytes: U64)
    requires sectorSize > 0
  {
    diskBytes >= SaturatingMul(RequiredSectors(backup, sectorSize), sectorSize)
  }

  /** Behind the last sector of every partition, the disk still has `n` sectors and the one of the header. */
  ghost predicate LeavesRoom(backup: Backup, sectorSize: U64, diskBytes: int, n: nat) {
    forall i :: 0 <= i < |backup.entries| ==>
      (backup.entries[i].last as int + 1 + n + 1) * sectorSize as int <= diskBytes
  }

  /** Behind the partitions the disk has room for the entry array, in whole sectors, and the header. */
  ghost predicate Fits(backup: Backup, sectorSize: U64, diskBytes: int) {
    exists n: nat ::
      n * sectorSize as int >= backup.entryArrayBytes as int && LeavesRoom(backup, sectorSize, diskBytes, n)
  }

  lemma FitsInSectors(backup: Backup, sectorSize: U64, diskBytes: int)
    requires sectorSize > 0
    ensures Fits(backup, sectorSize, diskBytes) <==>
            LeavesRoom(backup, sectorSize, diskBytes, Sectors(backup.entryArrayBytes, sectorSize) as nat)
  {
    var least := Sectors(backup.entryArrayBytes, sectorSize) as nat;
    SectorsHold(backup.entryArrayBytes, sectorSize, least);
    if Fits(backup, sectorSize, diskBytes) {
      var n: nat :| n * sectorSize as int >= backup.entryArrayBytes as int && LeavesRoom(backup, sectorSize, diskBytes, n);
      SectorsHold(backup.entryArrayBytes, sectorSize, n);
      forall i | 0 <= i < |backup.entries|
        ensures (backup.entries[i].last as int + 1 + least + 1) * sectorSize as int <= diskBytes
      {
        Monotone(backup.entries[i].last as int + 1 + least + 1, backup.entries[i].last as int + 1 + n + 1, sectorSize as nat);
      }
    }
  }

  lemma SaturatingTimes(n: U64, exact: int, size: U64, disk: U64)
    requires size > 0 && n as int == if exact <= U64_MAX as int then exact else U64_MAX as int
    ensures disk >= SaturatingMul(n, size) <==> exact * size as int <= disk as int || disk == U64_MAX
  {
    if exact > U64_MAX as int {
      Monotone(U64_MAX as int + 1, exact, size as nat);
      Monotone(U64_MAX as int, U64_MAX as int + 1, size as nat);
      Monotone(1, size as int, U64_MAX as nat);
      Monotone(1, size as int, U64_MAX as nat + 1);
    }
  }

  /** The check passes exactly for the disks on which everything fits, and for any disk of 2^64 - 1
      bytes, where the saturated sum cannot tell. */
  lemma SizeCheckMeans(backup: Backup, sectorSize: U64, diskBytes: U64)
    requires sectorSize > 0
    ensures PassesSizeCheck(backup, sectorSize, diskBytes) <==>
            Fits(backup, sectorSize, diskBytes as int) || diskBytes == U64_MAX
  {
    FitsInSectors(backup, sectorSize, diskBytes as int);
    if backup.entries != [] {
      var last := LastOf(backup.entries);
      var tail := Sectors(backup.entryArrayBytes, sectorSize);
      var exact := last as int + 1 + tail as int + 1;
      SaturatingTimes(RequiredSectors(backup, sectorSize), exact, sectorSize, diskBytes);
      forall i | 0 <= i < |backup.entries|
        ensures (backup.entries[i].last as int + 1 + tail as int + 1) * sectorSize as int <= exact * sectorSize as int
      {
        Monotone(backup.entries[i].last as int + 1 + tail as int + 1, exact, sectorSize as nat);
      }
    }
  }

  /** A table that passes the check on a smaller disk than that has all its partitions on the disk. */
  lemma RestoredPartitionsLieOnTheDisk(backup: Backup, sectorSize: U64, diskBytes: U64)
    requires Ordered(backup.entries) && sectorSize > 0 && diskBytes < U64_MAX
    requires PassesSizeCheck(backup, sectorSize, diskBytes)
    ensures var partitions := Partitions(backup.entries, sectorSize);
      && partitions.Some?
      && forall i :: 0 <= i < |partitions.value| ==>
           partitions.value[i].offset as int + partitions.value[i].sizeBytes as int <= diskBytes as int
  {
    SizeCheckMeans(backup, sectorSize, diskBytes);
    FitsInSectors(backup, sectorSize, diskBytes as int);
    forall i | 0 <= i < |backup.entries|
      ensures (backup.entries[i].last as int + 1) * sectorSize as int <= diskBytes as int && backup.entries[i].last < U64_MAX
    {
      var end := backup.entries[i].last as int + 1;
      Monotone(end, end + Sectors(backup.entryArrayBytes, sectorSize) as int + 1, sectorSize as nat);
      Monotone(1, sectorSize as int, end);
    }
    PartitionsMean(backup.entries, sectorSize);
    var partitions := Partitions(backup.entries, sectorSize).value;
    forall i | 0 <= i < |partitions|
      ensures partitions[i].offset as int + partitions[i].sizeBytes as int <= diskBytes as int
    {
      InsideProduct(backup.entries[i].first as int, backup.entries[i].last as int, sectorSize as int);
    }
  }

  /** On a disk of 2^64 - 1 bytes the check lets a table through that does not fit. */
  lemma FullWidthDiskPassesUnchecked()
    ensures var backup := Backup(16384, [Entry(1, 0, U64_MAX)]);
      PassesSizeCheck(backup, 512, U64_MAX) && !Fits(backup, 512, U64_MAX as int)
  {
    var backup := Backup(16384, [Entry(1, 0, U64_MAX)]);
    FitsInSectors(backup, 512, U64_MAX as int);
    SizeCheckMeans(backup, 512, U64_MAX);
    assert backup.entries[0].last == U64_MAX;
  }

  // ----- restoring ---------------------------------------------------------------------------------

  datatype Table = Before | Zapped | Loaded(backup: seq<Byte>)
  datatype RestoreError = OtherSectorSize | Unreadable(error: ParseError) | TooSmall | CommandFailed

  /** A disk a table is restored to; each of the three commands may fail. */
  class TargetDisk {
    const sectorSize: U64
    const sizeBytes: U64
    const blockDevice: bool
    var table: Table

    constructor (sectorSize: U64, sizeBytes: U64, blockDevice: bool)
      ensures this.sectorSize == sectorSize && this.sizeBytes == sizeBytes && this.blockDevice == blockDevice
      ensures table == Before
    {
      this.sectorSize, this.sizeBytes, this.blockDevice, table := sectorSize, sizeBytes, blockDevice, Before;
    }

    /** Nothing touches the disk before every check has passed, and success means the table is loaded. */
    method Restore(backup: seq<Byte>, imageSectorSize: U64, zaps: bool, loads: bool, probes: bool)
      returns (result: Result<(), RestoreError>)
      requires sectorSize > 0
      modifies this
      ensures var sound := sectorSize == imageSectorSize && Parse(backup).Ok?
                           && (Fits(Parse(backup).value, sectorSize, sizeBytes as int) || sizeBytes == U64_MAX);
        && (result.Ok? <==> sound && zaps && loads && (blockDevice ==> probes))
        && (result == Err(CommandFailed) <==> sound && !(zaps && loads && (blockDevice ==> probes)))
        && table == if !sound || !zaps then old(table) else if !loads then Zapped else Loaded(backup)
      ensures result == Err(OtherSectorSize) <==> sectorSize != imageSectorSize
      ensures result.Err? && result.error.Unreadable? <==> sectorSize == imageSectorSize && Parse(backup).Err?
      ensures result.Err? && result.error.Unreadable? ==> Parse(backup) == Err(result.error.error)
    {
      if sectorSize != imageSectorSize {
        return Err(OtherSectorSize);
      }
      var parsed := Parse(backup);
      if parsed.Err? {
        return Err(Unreadable(parsed.error));
      }
      SizeCheckMeans(parsed.value, sectorSize, sizeBytes);
      var required := SaturatingMul(RequiredSectors(parsed.value, imageSectorSize), imageSectorSize);
      if sizeBytes < required {
        return Err(TooSmall);
      }
      if !zaps {
        return Err(CommandFailed);
      }
      table := Zapped;
      if !loads {
        return Err(CommandFailed);
      }
      table := Loaded(backup);
      if blockDevice && !probes {
        return Err(CommandFailed);
      }
      result := Ok(());
    }
  }

}
