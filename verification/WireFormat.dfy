/**
 The request buffers that user mode and the driver exchange: a header, a table of entries of
 fixed size, and a string area that the entries point into.
 */
module WireFormat {
  import opened SplitTypes

  type Buffer = seq<Byte>

  // ----- Words -----

  function Power256(n: nat): nat {
    if n == 0 then 1 else 256 * Power256(n - 1)
  }

  /** The value of little-endian bytes. */
  function Decode(bytes: Buffer): nat {
    if bytes == [] then 0 else bytes[0] + 256 * Decode(bytes[1..])
  }

  /** The `n` low bytes of a value, little-endian. */
  function Encode(value: nat, n: nat): (bytes: Buffer)
    ensures |bytes| == n
  {
    if n == 0 then [] else [value % 256] + Encode(value / 256, n - 1)
  }

  lemma {:induction false} DecodeEncode(value: nat, n: nat)
    requires value < Power256(n)
    ensures Decode(Encode(value, n)) == value
  {
    if n > 0 {
      DecodeEncode(value / 256, n - 1);
    }
  }

  lemma {:induction false} DecodeBound(bytes: Buffer)
    ensures Decode(bytes) < Power256(|bytes|)
  {
    if bytes != [] {
      DecodeBound(bytes[1..]);
    }
  }

  const USHORT_LIMIT := 0x1_0000
  const SIZE_T_LIMIT := 0x1_0000_0000_0000_0000

  lemma WordSizes()
    ensures Power256(2) == USHORT_LIMIT
    ensures Power256(8) == SIZE_T_LIMIT
  {
    assert Power256(2) == 256 * 256;
    assert Power256(4) == 256 * (256 * Power256(2));
    assert Power256(6) == 256 * (256 * Power256(4));
    assert Power256(8) == 256 * (256 * Power256(6));
  }

  function Word(b: Buffer, at: nat, n: nat): nat
    requires at + n <= |b|
  {
    Decode(b[at..at + n])
  }

  // ----- Layout -----

  const HEADER_SIZE := 16

  /** The size of an entry, and where in it the offset and the length of its string are. */
  datatype Layout = Layout(entrySize: nat, offsetAt: nat, lengthAt: nat)

  /** ST_CONFIGURATION_ENTRY: string offset, string length, flags, padding. */
  const CONFIGURATION := Layout(16, 0, 8)

  /** ST_PROCESS_DISCOVERY_ENTRY: process id, parent id, string offset, string length, padding. */
  const PROCESSES := Layout(32, 16, 24)

  ghost predicate Proper(layout: Layout) {
    layout.offsetAt + 8 <= layout.entrySize && layout.lengthAt + 2 <= layout.entrySize
  }

  function NumEntries(b: Buffer): nat
    requires |b| >= HEADER_SIZE
  {
    Word(b, 0, 8)
  }

  function TotalLength(b: Buffer): nat
    requires |b| >= HEADER_SIZE
  {
    Word(b, 8, 8)
  }

  /** Where an entry is, counting from the header by the size of an entry. */
  function EntryAt(layout: Layout, i: nat): (at: nat)
    ensures at >= HEADER_SIZE
  {
    if i == 0 then HEADER_SIZE else EntryAt(layout, i - 1) + layout.entrySize
  }

  lemma {:induction false} EntryAtProduct(layout: Layout, i: nat)
    ensures EntryAt(layout, i) == HEADER_SIZE + layout.entrySize * i
  {
    if i > 0 {
      EntryAtProduct(layout, i - 1);
    }
  }

  lemma {:induction false} EntryAtMonotonic(layout: Layout, i: nat, j: nat)
    requires i <= j
    ensures EntryAt(layout, i) <= EntryAt(layout, j)
  {
    if i < j {
      EntryAtMonotonic(layout, i, j - 1);
    }
  }

  /** Where the strings begin. */
  function StringArea(layout: Layout, b: Buffer): nat
    requires |b| >= HEADER_SIZE
  {
    EntryAt(layout, NumEntries(b))
  }

  ghost predicate HasEntry(layout: Layout, b: Buffer, i: nat) {
    Proper(layout) && EntryAt(layout, i) + layout.entrySize <= |b|
  }

  function StringOffset(layout: Layout, b: Buffer, i: nat): nat
    requires HasEntry(layout, b, i)
  {
    Word(b, EntryAt(layout, i) + layout.offsetAt, 8)
  }

  function StringLength(layout: Layout, b: Buffer, i: nat): nat
    requires HasEntry(layout, b, i)
  {
    Word(b, EntryAt(layout, i) + layout.lengthAt, 2)
  }

  /** All entries lie in the buffer if the string area begins in it. */
  lemma EntriesInside(layout: Layout, b: Buffer, i: nat)
    requires Proper(layout) && |b| >= HEADER_SIZE && StringArea(layout, b) <= |b|
    requires i < NumEntries(b)
    ensures HasEntry(layout, b, i)
    ensures EntryAt(layout, i) + layout.entrySize <= StringArea(layout, b)
  {
    EntryAtMonotonic(layout, i + 1, NumEntries(b));
  }

  /** The string of an entry is empty or lies in the string area. */
  ghost predicate StringInside(layout: Layout, b: Buffer, i: nat)
    requires |b| >= HEADER_SIZE && HasEntry(layout, b, i)
  {
    StringLength(layout, b, i) == 0
    || StringArea(layout, b) + StringOffset(layout, b, i) + StringLength(layout, b, i) <= |b|
  }

  /** What a buffer has to be like to be accepted. The string area must not be empty. */
  ghost predicate WellFormed(layout: Layout, b: Buffer)
    requires Proper(layout)
  {
    && |b| >= HEADER_SIZE
    && TotalLength(b) == |b|
    && StringArea(layout, b) < |b|
    && forall i: nat :: i < NumEntries(b) ==> HasEntry(layout, b, i) && StringInside(layout, b, i)
  }

  /** The string of an entry, as the driver's loops read it. */
  function StringOf(layout: Layout, b: Buffer, i: nat): Buffer
    requires |b| >= HEADER_SIZE && HasEntry(layout, b, i) && StringInside(layout, b, i)
  {
    if StringLength(layout, b, i) == 0 then []
    else
      var at := StringArea(layout, b) + StringOffset(layout, b, i);
      b[at..at + StringLength(layout, b, i)]
  }

  /** The length in the header is exact: a buffer that is accepted cannot be cut short or extended. */
  lemma AcceptedLength(layout: Layout, b: Buffer, longer: Buffer)
    requires Proper(layout) && WellFormed(layout, b) && b <= longer
    ensures WellFormed(layout, longer) <==> longer == b
  {
    hide EntryAt, HasEntry, Decode;
    assert b[..HEADER_SIZE] == longer[..HEADER_SIZE];
    assert TotalLength(b) == TotalLength(longer) by {
      assert b[8..16] == b[..HEADER_SIZE][8..16];
    }
  }

  // ----- Validation -----

  function WrapAdd(a: nat, b: nat): nat {
    (a + b) % SIZE_T_LIMIT
  }

  /** Pointer arithmetic wraps around, and the checks are there to catch that. */
  predicate ValidateBufferRange(buffer: nat, bufferEnd: nat, offset: nat, length: nat) {
    if length == 0 then true
    else
      var range := WrapAdd(buffer, offset);
      var rangeEnd := WrapAdd(range, length);
      !(range < buffer || range >= bufferEnd || rangeEnd < range || rangeEnd > bufferEnd)
  }

  /** Despite wrap-around, exactly the ranges that fit are accepted. */
  lemma ValidateBufferRangeExact(buffer: nat, bufferEnd: nat, offset: nat, length: nat)
    requires buffer <= bufferEnd < SIZE_T_LIMIT && offset < SIZE_T_LIMIT && length < SIZE_T_LIMIT
    ensures ValidateBufferRange(buffer, bufferEnd, offset, length)
            <==> length == 0 || offset + length <= bufferEnd - buffer
  {
    if length > 0 {
      var range := WrapAdd(buffer, offset);
      assert range == buffer + offset || range == buffer + offset - SIZE_T_LIMIT;
      var rangeEnd := WrapAdd(range, length);
      assert rangeEnd == range + length || rangeEnd == range + length - SIZE_T_LIMIT;
    }
  }

  /** For a string of a buffer, the check amounts to the string being inside. */
  lemma StringCheckExact(layout: Layout, address: nat, b: Buffer, i: nat)
    requires Proper(layout) && |b| >= HEADER_SIZE && StringArea(layout, b) < |b| && i < NumEntries(b)
    requires address + |b| < SIZE_T_LIMIT
    ensures HasEntry(layout, b, i)
    ensures ValidateBufferRange(address + StringArea(layout, b), address + |b|,
                                StringOffset(layout, b, i), StringLength(layout, b, i))
            <==> StringInside(layout, b, i)
  {
    hide EntryAt, ValidateBufferRange, Decode;
    EntriesInside(layout, b, i);
    WordSizes();
    var at := EntryAt(layout, i);
    DecodeBound(b[at + layout.offsetAt..at + layout.offsetAt + 8]);
    DecodeBound(b[at + layout.lengthAt..at + layout.lengthAt + 2]);
    ValidateBufferRangeExact(address + StringArea(layout, b), address + |b|,
                             StringOffset(layout, b, i), StringLength(layout, b, i));
  }

  /** RtlSIZETMult and RtlULongPtrAdd: arithmetic that reports overflow. */
  function Checked(value: nat): Option<nat> {
    if value < SIZE_T_LIMIT then Some(value) else None
  }

  /** ValidateUserBufferConfiguration and ValidateUserBufferProcesses differ in the layout only.
      `address` is where the buffer is mapped. */
  method ValidateUserBuffer(layout: Layout, address: nat, b: Buffer) returns (ok: bool)
    requires Proper(layout)
    requires address < SIZE_T_LIMIT && |b| < SIZE_T_LIMIT
    ensures ok <==> address + |b| < SIZE_T_LIMIT && WellFormed(layout, b)
  {
    hide ValidateBufferRange, Decode, EntryAt;
    var bufferEnd := WrapAdd(address, |b|);
    assert bufferEnd == address + |b| || bufferEnd == address + |b| - SIZE_T_LIMIT;
    if |b| < HEADER_SIZE || bufferEnd < address {
      return false;
    }
    if TotalLength(b) != |b| {
      return false;
    }
    EntryAtProduct(layout, NumEntries(b));
    var entriesSize := Checked(layout.entrySize * NumEntries(b));
    if entriesSize == None {
      return false;
    }
    var stringBuffer := Checked(address + HEADER_SIZE + entriesSize.value);
    if stringBuffer == None || stringBuffer.value >= bufferEnd {
      return false;
    }
    assert stringBuffer.value == address + StringArea(layout, b);
    var i := 0;
    while i < NumEntries(b)
      invariant i <= NumEntries(b)
      invariant forall j: nat :: j < i ==> HasEntry(layout, b, j) && StringInside(layout, b, j)
    {
      StringCheckExact(layout, address, b, i);
      if !ValidateBufferRange(stringBuffer.value, bufferEnd, StringOffset(layout, b, i), StringLength(layout, b, i)) {
        return false;
      }
      i := i + 1;
    }
    return true;
  }

  /** MAX_IO_BUFFER_SIZE, above which the dispatcher rejects a request. */
  const MAX_IO_BUFFER_SIZE := 100_000_000

  /** The parsing loops count entries with an int, which is enough for any request. */
  lemma EntryCountFitsInt(layout: Layout, b: Buffer)
    requires layout in {CONFIGURATION, PROCESSES}
    requires WellFormed(layout, b) && |b| <= MAX_IO_BUFFER_SIZE
    ensures NumEntries(b) < 0x8000_0000
  {
    EntryAtProduct(layout, NumEntries(b));
    assert layout.entrySize * NumEntries(b) >= 16 * NumEntries(b);
  }
}
