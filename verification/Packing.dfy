/** Filling in a request buffer: entries one after the other, and their strings behind them. */
module Packing {
  import opened SplitTypes
  import opened WireFormat

  // ----- Writing into a buffer -----

  function Overwrite(b: Buffer, at: nat, bytes: Buffer): (r: Buffer)
    requires at + |bytes| <= |b|
    ensures |r| == |b|
  {
    b[..at] + bytes + b[at + |bytes|..]
  }

  lemma OverwriteReads(b: Buffer, at: nat, bytes: Buffer)
    requires at + |bytes| <= |b|
    ensures Overwrite(b, at, bytes)[at..at + |bytes|] == bytes
  {
  }

  lemma OverwriteFrame(b: Buffer, at: nat, bytes: Buffer, lo: nat, hi: nat)
    requires at + |bytes| <= |b| && lo <= hi <= |b|
    requires hi <= at || at + |bytes| <= lo
    ensures Overwrite(b, at, bytes)[lo..hi] == b[lo..hi]
  {
  }

  /** Writing on where the last write ended. */
  lemma OverwriteOn(b: Buffer, at: nat, bytes: Buffer, more: Buffer)
    requires at + |bytes| + |more| <= |b|
    ensures Overwrite(Overwrite(b, at, bytes), at + |bytes|, more) == Overwrite(b, at, bytes + more)
  {
  }

  /** Bytes that are not written stay. */
  lemma OverwritePadded(b: Buffer, at: nat, bytes: Buffer, n: nat)
    requires at + |bytes| + n <= |b|
    ensures Overwrite(b, at, bytes) == Overwrite(b, at, bytes + b[at + |bytes|..at + |bytes| + n])
  {
  }

  lemma OverwriteNothing(b: Buffer, at: nat)
    requires at <= |b|
    ensures Overwrite(b, at, []) == b
  {
  }

  /** A write that ends before `n` is a write into the first `n` bytes. */
  lemma OverwritePrefix(b: Buffer, at: nat, bytes: Buffer, n: nat)
    requires at + |bytes| <= n <= |b|
    ensures Overwrite(b, at, bytes)[..n] == Overwrite(b[..n], at, bytes)
    ensures Overwrite(b, at, bytes)[n..] == b[n..]
  {
  }

  lemma OverwriteTwicePrefix(b: Buffer, at: nat, bytes: Buffer, at': nat, bytes': Buffer, n: nat)
    requires at + |bytes| <= n <= |b| && at' + |bytes'| <= n
    ensures Overwrite(Overwrite(b, at, bytes), at', bytes')[..n] == Overwrite(Overwrite(b[..n], at, bytes), at', bytes')
    ensures Overwrite(Overwrite(b, at, bytes), at', bytes')[n..] == b[n..]
  {
    hide Overwrite;
    OverwritePrefix(b, at, bytes, n);
    OverwritePrefix(Overwrite(b, at, bytes), at', bytes', n);
  }

  method WriteBytes(a: array<Byte>, at: nat, bytes: Buffer)
    requires at + |bytes| <= a.Length
    modifies a
    ensures a[..] == Overwrite(old(a[..]), at, bytes)
  {
    for i := 0 to |bytes|
      invariant forall k :: 0 <= k < a.Length ==> a[k] == if at <= k < at + i then bytes[k - at] else old(a[k])
    {
      a[at + i] := bytes[i];
    }
  }

  // ----- Tables of entries and strings -----

  /** The length of the first `n` strings together: where the next one goes. */
  function Offset(names: seq<Buffer>, n: nat): nat
    requires n <= |names|
  {
    if n == 0 then 0 else Offset(names, n - 1) + |names[n - 1]|
  }

  lemma {:induction false} OffsetMonotonic(names: seq<Buffer>, m: nat, n: nat)
    requires m <= n <= |names|
    ensures Offset(names, m) <= Offset(names, n)
  {
    if m < n {
      OffsetMonotonic(names, m, n - 1);
    }
  }

  function PackedLength(layout: Layout, names: seq<Buffer>): (length: nat)
    ensures length >= HEADER_SIZE
  {
    EntryAt(layout, |names|) + Offset(names, |names|)
  }

  function EntryBytes(layout: Layout, b: Buffer, j: nat): Buffer
    requires EntryAt(layout, j) + layout.entrySize <= |b|
  {
    b[EntryAt(layout, j)..EntryAt(layout, j) + layout.entrySize]
  }

  lemma EntryFits(layout: Layout, names: seq<Buffer>, j: nat)
    requires j < |names|
    ensures EntryAt(layout, j) + layout.entrySize == EntryAt(layout, j + 1) <= EntryAt(layout, |names|)
    ensures Offset(names, j) + |names[j]| == Offset(names, j + 1) <= Offset(names, |names|)
  {
    EntryAtMonotonic(layout, j + 1, |names|);
    OffsetMonotonic(names, j + 1, |names|);
  }

  /** The string area begins right behind the entries of all names. */
  function NameBytes(layout: Layout, b: Buffer, names: seq<Buffer>, j: nat): Buffer
    requires j < |names| && PackedLength(layout, names) <= |b|
  {
    EntryFits(layout, names, j);
    var at := EntryAt(layout, |names|) + Offset(names, j);
    b[at..at + |names[j]|]
  }

  /** The first entries are as given, and so are their strings. */
  ghost predicate Filled(layout: Layout, b: Buffer, entries: seq<Buffer>, names: seq<Buffer>) {
    && |entries| <= |names| && PackedLength(layout, names) <= |b|
    && forall j: nat :: j < |entries| ==>
         && EntryAt(layout, j) + layout.entrySize <= |b|
         && EntryBytes(layout, b, j) == entries[j]
         && NameBytes(layout, b, names, j) == names[j]
  }

  /** Two writes that leave an earlier entry and its string alone. */
  lemma EarlierEntryKept(layout: Layout, b: Buffer, names: seq<Buffer>, k: nat, entry: Buffer, j: nat)
    requires j < k < |names| && |entry| == layout.entrySize && PackedLength(layout, names) <= |b|
    ensures EntryAt(layout, k) + |entry| <= EntryAt(layout, |names|)
    ensures EntryAt(layout, |names|) + Offset(names, k) + |names[k]| <= |b|
    ensures EntryAt(layout, j) + layout.entrySize <= |b|
    ensures var b2 := Overwrite(Overwrite(b, EntryAt(layout, k), entry),
                                EntryAt(layout, |names|) + Offset(names, k), names[k]);
            && EntryBytes(layout, b2, j) == EntryBytes(layout, b, j)
            && NameBytes(layout, b2, names, j) == NameBytes(layout, b, names, j)
  {
    hide EntryAt, Overwrite, Offset;
    EntryFits(layout, names, j);
    EntryFits(layout, names, k);
    EntryAtMonotonic(layout, j + 1, k);
    OffsetMonotonic(names, j + 1, k);
    var area := EntryAt(layout, |names|);
    var b1 := Overwrite(b, EntryAt(layout, k), entry);
    OverwriteFrame(b, EntryAt(layout, k), entry, EntryAt(layout, j), EntryAt(layout, j + 1));
    OverwriteFrame(b, EntryAt(layout, k), entry, area + Offset(names, j), area + Offset(names, j + 1));
    OverwriteFrame(b1, area + Offset(names, k), names[k], EntryAt(layout, j), EntryAt(layout, j + 1));
    OverwriteFrame(b1, area + Offset(names, k), names[k], area + Offset(names, j), area + Offset(names, j + 1));
  }

  /** One more entry is written, and its string behind the strings so far. */
  lemma FilledStep(layout: Layout, b: Buffer, entries: seq<Buffer>, names: seq<Buffer>, entry: Buffer)
    requires Filled(layout, b, entries, names) && |entries| < |names| && |entry| == layout.entrySize
    ensures EntryAt(layout, |entries|) + |entry| <= |b|
    ensures EntryAt(layout, |names|) + Offset(names, |entries|) + |names[|entries|]| <= |b|
    ensures Filled(layout,
                   Overwrite(Overwrite(b, EntryAt(layout, |entries|), entry),
                             EntryAt(layout, |names|) + Offset(names, |entries|), names[|entries|]),
                   entries + [entry], names)
  {
    hide EntryAt, Overwrite, EntryBytes, NameBytes;
    var k := |entries|;
    EntryFits(layout, names, k);
    var area := EntryAt(layout, |names|);
    var b1 := Overwrite(b, EntryAt(layout, k), entry);
    var b2 := Overwrite(b1, area + Offset(names, k), names[k]);
    NewEntryWritten(layout, b, names, k, entry);
    forall j: nat | j < k + 1
      ensures EntryAt(layout, j) + layout.entrySize <= |b2|
      ensures EntryBytes(layout, b2, j) == (entries + [entry])[j]
      ensures NameBytes(layout, b2, names, j) == names[j]
    {
      if j < k {
        EarlierEntryKept(layout, b, names, k, entry, j);
      }
    }
  }

  lemma NewEntryWritten(layout: Layout, b: Buffer, names: seq<Buffer>, k: nat, entry: Buffer)
    requires k < |names| && |entry| == layout.entrySize && PackedLength(layout, names) <= |b|
    ensures EntryAt(layout, k) + |entry| <= EntryAt(layout, |names|)
    ensures EntryAt(layout, |names|) + Offset(names, k) + |names[k]| <= |b|
    ensures var b2 := Overwrite(Overwrite(b, EntryAt(layout, k), entry),
                                EntryAt(layout, |names|) + Offset(names, k), names[k]);
            EntryBytes(layout, b2, k) == entry && NameBytes(layout, b2, names, k) == names[k]
  {
    hide EntryAt, Overwrite, Offset;
    EntryFits(layout, names, k);
    var area := EntryAt(layout, |names|);
    var b1 := Overwrite(b, EntryAt(layout, k), entry);
    OverwriteReads(b, EntryAt(layout, k), entry);
    OverwriteReads(b1, area + Offset(names, k), names[k]);
    OverwriteFrame(b1, area + Offset(names, k), names[k], EntryAt(layout, k), EntryAt(layout, k + 1));
  }

  lemma FilledNone(layout: Layout, b: Buffer, names: seq<Buffer>)
    requires PackedLength(layout, names) <= |b|
    ensures Filled(layout, b, [], names)
  {
  }

  function HeaderBytes(numEntries: nat, totalLength: nat): (header: Buffer)
    ensures |header| == HEADER_SIZE
  {
    Encode(numEntries, 8) + Encode(totalLength, 8)
  }

  /** The header does not overlap anything else. */
  lemma FilledHeader(layout: Layout, b: Buffer, entries: seq<Buffer>, names: seq<Buffer>, header: Buffer)
    requires Filled(layout, b, entries, names) && |header| == HEADER_SIZE
    ensures Filled(layout, Overwrite(b, 0, header), entries, names)
    ensures Overwrite(b, 0, header)[..HEADER_SIZE] == header
  {
    hide EntryAt;
    var b' := Overwrite(b, 0, header);
    forall j: nat | j < |entries|
      ensures EntryBytes(layout, b', j) == entries[j]
      ensures NameBytes(layout, b', names, j) == names[j]
    {
      EntryFits(layout, names, j);
      OverwriteFrame(b, 0, header, EntryAt(layout, j), EntryAt(layout, j + 1));
      OverwriteFrame(b, 0, header, EntryAt(layout, |names|) + Offset(names, j),
                     EntryAt(layout, |names|) + Offset(names, j + 1));
    }
  }

  /** A part of an entry, found in a buffer that holds the entry. */
  lemma PartOf(b: Buffer, at: nat, before: Buffer, part: Buffer, after: Buffer)
    requires at + |before| + |part| + |after| <= |b|
    requires b[at..at + |before| + |part| + |after|] == before + part + after
    ensures b[at + |before|..at + |before| + |part|] == part
  {
    var whole := b[at..at + |before| + |part| + |after|];
    forall k | 0 <= k < |part|
      ensures b[at + |before| + k] == part[k]
    {
      assert b[at + |before| + k] == whole[|before| + k];
    }
  }

  /** Reading words back. */
  lemma WordOf(b: Buffer, at: nat, n: nat, value: nat)
    requires at + n <= |b| && b[at..at + n] == Encode(value, n) && value < Power256(n)
    ensures Word(b, at, n) == value
  {
    DecodeEncode(value, n);
  }

  lemma HeaderWords(b: Buffer, numEntries: nat, totalLength: nat)
    requires |b| >= HEADER_SIZE && b[..HEADER_SIZE] == HeaderBytes(numEntries, totalLength)
    requires numEntries < SIZE_T_LIMIT && totalLength < SIZE_T_LIMIT
    ensures NumEntries(b) == numEntries && TotalLength(b) == totalLength
  {
    WordSizes();
    var header := b[..HEADER_SIZE];
    assert b[0..8] == header[0..8] == Encode(numEntries, 8);
    assert b[8..16] == header[8..16] == Encode(totalLength, 8);
    WordOf(b, 0, 8, numEntries);
    WordOf(b, 8, 8, totalLength);
  }

  /** What an entry says about its string: at the right offset, with the length cut to 16 bits. */
  ghost predicate PointsTo(layout: Layout, b: Buffer, names: seq<Buffer>, j: nat)
    requires HasEntry(layout, b, j) && j < |names|
  {
    && StringLength(layout, b, j) == |names[j]| % USHORT_LIMIT
    && (names[j] != [] ==> StringOffset(layout, b, j) == Offset(names, j))
  }

  /** The string of an entry is within the buffer, and is the given one, cut to 16 bits of length. */
  ghost predicate StringRead(layout: Layout, b: Buffer, names: seq<Buffer>, j: nat)
    requires |b| >= HEADER_SIZE && j < |names|
  {
    && HasEntry(layout, b, j) && StringInside(layout, b, j)
    && StringOf(layout, b, j) == names[j][..|names[j]| % USHORT_LIMIT]
  }

  lemma StringReadsBack(layout: Layout, b: Buffer, names: seq<Buffer>, j: nat)
    requires Proper(layout) && j < |names| && |b| == PackedLength(layout, names)
    requires NumEntries(b) == |names| && HasEntry(layout, b, j)
    requires NameBytes(layout, b, names, j) == names[j] && PointsTo(layout, b, names, j)
    ensures StringRead(layout, b, names, j)
  {
    hide EntryAt, Word;
    EntryFits(layout, names, j);
    if names[j] != [] {
      var at, n := EntryAt(layout, |names|) + Offset(names, j), |names[j]| % USHORT_LIMIT;
      assert b[at..at + n] == b[at..at + |names[j]|][..n];
    }
  }

  /** All entries say what they should about their strings. */
  ghost predicate AllPoint(layout: Layout, b: Buffer, names: seq<Buffer>) {
    forall j: nat :: j < |names| ==> HasEntry(layout, b, j) && PointsTo(layout, b, names, j)
  }

  /** A complete buffer is accepted exactly when its strings are not all empty. What is read back are
      the names, each cut to its length modulo 2^16. */
  lemma PackedReadsBack(layout: Layout, b: Buffer, entries: seq<Buffer>, names: seq<Buffer>)
    requires Proper(layout) && Filled(layout, b, entries, names) && |entries| == |names|
    requires |b| == PackedLength(layout, names) && NumEntries(b) == |names| && TotalLength(b) == |b|
    requires AllPoint(layout, b, names)
    ensures WellFormed(layout, b) <==> Offset(names, |names|) > 0
    ensures forall j: nat :: j < |names| ==> StringRead(layout, b, names, j)
  {
    hide EntryAt, Word, StringInside, StringOf, HasEntry, PointsTo;
    forall j: nat | j < |names|
      ensures StringRead(layout, b, names, j) && HasEntry(layout, b, j) && StringInside(layout, b, j)
    {
      StringReadsBack(layout, b, names, j);
    }
  }
}
