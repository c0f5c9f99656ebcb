/** Configurations on the wire: packed by user mode, parsed and serialized again by the driver. */
module ConfigurationBuffers {
  import opened SplitTypes
  import opened WireFormat
  import opened Packing
  import opened DriverSteps
  import opened DriverRuns

  // ----- Entries -----

  const PADDING_SIZE := 4

  function ConfigurationBytes(offset: nat, length: nat, flags: nat, padding: Buffer): (bytes: Buffer)
    requires |padding| == PADDING_SIZE
    ensures |bytes| == CONFIGURATION.entrySize
  {
    Encode(offset, 8) + Encode(length, 2) + Encode(flags, 2) + padding
  }

  /** An entry that was written is read back. */
  lemma EntryReadsBack(b: Buffer, j: nat, offset: nat, length: nat, flags: nat, padding: Buffer)
    requires HasEntry(CONFIGURATION, b, j) && |padding| == PADDING_SIZE
    requires EntryBytes(CONFIGURATION, b, j) == ConfigurationBytes(offset, length, flags, padding)
    requires offset < SIZE_T_LIMIT && length < USHORT_LIMIT && flags < USHORT_LIMIT
    ensures StringOffset(CONFIGURATION, b, j) == offset
    ensures StringLength(CONFIGURATION, b, j) == length
    ensures FlagsAt(b, j) == flags
  {
    hide EntryAt, Word, Decode, Encode;
    WordSizes();
    var at := EntryAt(CONFIGURATION, j);
    var e0, e1, e2 := Encode(offset, 8), Encode(length, 2), Encode(flags, 2);
    assert ConfigurationBytes(offset, length, flags, padding) == [] + e0 + (e1 + e2 + padding);
    PartOf(b, at, [], e0, e1 + e2 + padding);
    assert ConfigurationBytes(offset, length, flags, padding) == e0 + e1 + (e2 + padding);
    PartOf(b, at, e0, e1, e2 + padding);
    PartOf(b, at, e0 + e1, e2, padding);
    WordOf(b, at, 8, offset);
    WordOf(b, at + 8, 2, length);
    WordOf(b, at + 10, 2, flags);
  }

  function Names(entries: seq<RawEntry>): (names: seq<Buffer>)
    ensures |names| == |entries|
    ensures forall i {:trigger names[i]} :: 0 <= i < |names| ==> names[i] == entries[i].name
  {
    seq(|entries|, i requires 0 <= i < |entries| => entries[i].name)
  }

  /** Entry `j` of the buffer is as given, with its name cut to 16 bits of length. */
  ghost predicate HoldsAt(b: Buffer, entries: seq<RawEntry>, j: nat)
    requires |b| >= HEADER_SIZE && j < |entries|
  {
    && HasEntry(CONFIGURATION, b, j) && StringInside(CONFIGURATION, b, j)
    && StringOffset(CONFIGURATION, b, j) == Offset(Names(entries), j)
    && StringLength(CONFIGURATION, b, j) == |entries[j].name| % USHORT_LIMIT
    && StringOf(CONFIGURATION, b, j) == entries[j].name[..|entries[j].name| % USHORT_LIMIT]
    && FlagsAt(b, j) == entries[j].flags
  }

  /** A buffer that holds exactly the given configuration. It is accepted by the driver exactly when
      the names are not all empty. */
  ghost predicate Holds(b: Buffer, entries: seq<RawEntry>) {
    && |b| == PackedLength(CONFIGURATION, Names(entries))
    && NumEntries(b) == |entries| && TotalLength(b) == |b|
    && (WellFormed(CONFIGURATION, b) <==> Offset(Names(entries), |entries|) > 0)
    && forall j: nat :: j < |entries| ==> HoldsAt(b, entries, j)
  }

  // ----- Writing entries -----

  /** How the entries of a configuration are laid out; padding bytes are whatever they were. */
  ghost predicate EntriesOf(table: seq<Buffer>, entries: seq<RawEntry>, n: nat)
    requires n <= |entries|
  {
    && |table| == n
    && forall j: nat :: j < n ==> EntryFor(table[j], Names(entries), j, entries[j])
  }

  ghost predicate EntryFor(bytes: Buffer, names: seq<Buffer>, j: nat, e: RawEntry)
    requires j < |names|
  {
    exists padding: Buffer ::
      |padding| == PADDING_SIZE
      && bytes == ConfigurationBytes(Offset(names, j), |e.name| % USHORT_LIMIT, e.flags, padding)
  }

  /** Writes the entry and the string of one configuration entry, at the advancing positions. */
  method SerializeEntry(a: array<Byte>, entry: nat, stringDest: nat, stringOffset: nat, e: RawEntry)
    requires entry + CONFIGURATION.entrySize <= a.Length && stringDest + |e.name| <= a.Length
    requires stringOffset < SIZE_T_LIMIT
    modifies a
    ensures a[..] == Overwrite(Overwrite(old(a[..]), entry,
                                         ConfigurationBytes(stringOffset, |e.name| % USHORT_LIMIT, e.flags,
                                                            old(a[..])[entry + 12..entry + 16])),
                               stringDest, e.name)
  {
    hide Encode, Overwrite;
    var offset, length, flags := Encode(stringOffset, 8), Encode(|e.name| % USHORT_LIMIT, 2), Encode(e.flags, 2);
    ghost var b := a[..];
    WriteBytes(a, entry, offset);
    WriteBytes(a, entry + 8, length);
    WriteBytes(a, entry + 10, flags);
    OverwriteOn(b, entry, offset, length);
    OverwriteOn(b, entry, offset + length, flags);
    OverwritePadded(b, entry, offset + length + flags, PADDING_SIZE);
    WriteBytes(a, stringDest, e.name);
  }

  /** A finished buffer holds its configuration. */
  lemma FinishedHolds(b: Buffer, table: seq<Buffer>, entries: seq<RawEntry>)
    requires Filled(CONFIGURATION, b, table, Names(entries)) && EntriesOf(table, entries, |entries|)
    requires |b| == PackedLength(CONFIGURATION, Names(entries)) < SIZE_T_LIMIT
    requires b[..HEADER_SIZE] == HeaderBytes(|entries|, |b|)
    ensures Holds(b, entries)
  {
    hide EntryAt, EntryBytes, NameBytes, StringOf, Word;
    var names := Names(entries);
    EntryCountBound(names);
    HeaderWords(b, |entries|, |b|);
    forall j: nat | j < |entries|
      ensures HasEntry(CONFIGURATION, b, j) && PointsTo(CONFIGURATION, b, names, j)
      ensures StringOffset(CONFIGURATION, b, j) == Offset(names, j)
      ensures StringLength(CONFIGURATION, b, j) == |entries[j].name| % USHORT_LIMIT
      ensures FlagsAt(b, j) == entries[j].flags
    {
      EntryFits(CONFIGURATION, names, j);
      var padding: Buffer :| |padding| == PADDING_SIZE
        && table[j]
           == ConfigurationBytes(Offset(names, j), |entries[j].name| % USHORT_LIMIT, entries[j].flags, padding);
      EntryReadsBack(b, j, Offset(names, j), |entries[j].name| % USHORT_LIMIT, entries[j].flags, padding);
    }
    PackedReadsBack(CONFIGURATION, b, table, names);
    forall j: nat | j < |entries|
      ensures HoldsAt(b, entries, j)
    {
      assert StringRead(CONFIGURATION, b, names, j);
    }
  }

  /** A buffer is longer than the number of its entries. */
  lemma EntryCountBound(names: seq<Buffer>)
    ensures |names| <= PackedLength(CONFIGURATION, names)
  {
    EntryAtProduct(CONFIGURATION, |names|);
  }

  /** The number of bytes that the names take up. */
  method TotalStringLength(names: seq<Buffer>) returns (total: nat)
    ensures total == Offset(names, |names|)
  {
    total := 0;
    for i := 0 to |names|
      invariant total == Offset(names, i)
    {
      total := total + |names[i]|;
    }
  }

  /** Writing one more entry, in the part of the buffer that the configuration takes up. */
  lemma SerializeStep(b: Buffer, total: nat, table: seq<Buffer>, names: seq<Buffer>, bytes: Buffer)
    requires PackedLength(CONFIGURATION, names) == total <= |b| && |bytes| == CONFIGURATION.entrySize
    requires |table| < |names| && Filled(CONFIGURATION, b[..total], table, names)
    ensures EntryAt(CONFIGURATION, |table|) + CONFIGURATION.entrySize <= total
    ensures EntryAt(CONFIGURATION, |names|) + Offset(names, |table|) + |names[|table|]| <= total
    ensures var b' := Overwrite(Overwrite(b, EntryAt(CONFIGURATION, |table|), bytes),
                                EntryAt(CONFIGURATION, |names|) + Offset(names, |table|), names[|table|]);
            Filled(CONFIGURATION, b'[..total], table + [bytes], names) && b'[total..] == b[total..]
  {
    hide EntryAt, Overwrite, Filled, Offset;
    EntryFits(CONFIGURATION, names, |table|);
    FilledStep(CONFIGURATION, b[..total], table, names, bytes);
    OverwriteTwicePrefix(b, EntryAt(CONFIGURATION, |table|), bytes,
                         EntryAt(CONFIGURATION, |names|) + Offset(names, |table|), names[|table|], total);
  }

  lemma EntriesOfStep(table: seq<Buffer>, entries: seq<RawEntry>, padding: Buffer)
    requires |table| < |entries| && EntriesOf(table, entries, |table|) && |padding| == PADDING_SIZE
    ensures var e := entries[|table|];
            var bytes := ConfigurationBytes(Offset(Names(entries), |table|), |e.name| % USHORT_LIMIT, e.flags, padding);
            EntriesOf(table + [bytes], entries, |table| + 1)
  {
    hide Encode, ConfigurationBytes;
    var e := entries[|table|];
    assert EntryFor(ConfigurationBytes(Offset(Names(entries), |table|), |e.name| % USHORT_LIMIT, e.flags, padding),
                    Names(entries), |table|, e);
  }

  /** Writes all entries of a configuration one after the other, and the header last. */
  method SerializeConfiguration(a: array<Byte>, entries: seq<RawEntry>)
    requires PackedLength(CONFIGURATION, Names(entries)) <= a.Length
    requires PackedLength(CONFIGURATION, Names(entries)) < SIZE_T_LIMIT
    modifies a
    ensures Holds(a[..PackedLength(CONFIGURATION, Names(entries))], entries)
    ensures a[PackedLength(CONFIGURATION, Names(entries))..]
            == old(a[PackedLength(CONFIGURATION, Names(entries))..])
  {
    hide EntryAt, Overwrite, Filled, EntriesOf, Encode, ConfigurationBytes, Holds, Names;
    ghost var names := Names(entries);
    ghost var total := PackedLength(CONFIGURATION, names);
    ghost var table: seq<Buffer> := [];
    var stringBuffer := EntryAt(CONFIGURATION, |entries|);
    var entry, stringOffset := HEADER_SIZE, 0;
    EntryAtProduct(CONFIGURATION, 0);
    NothingWritten(a[..total], entries);
    for i := 0 to |entries|
      invariant entry == EntryAt(CONFIGURATION, i) && stringOffset == Offset(names, i) && |table| == i
      invariant Filled(CONFIGURATION, a[..total], table, names) && EntriesOf(table, entries, i)
      invariant a[total..] == old(a[total..])
    {
      EntryFits(CONFIGURATION, names, i);
      ghost var padding := a[..][entry + 12..entry + 16];
      ghost var bytes := ConfigurationBytes(stringOffset, |entries[i].name| % USHORT_LIMIT, entries[i].flags, padding);
      SerializeStep(a[..], total, table, names, bytes);
      EntriesOfStep(table, entries, padding);
      table := table + [bytes];
      SerializeEntry(a, entry, stringBuffer + stringOffset, stringOffset, entries[i]);
      entry, stringOffset := entry + CONFIGURATION.entrySize, stringOffset + |entries[i].name|;
    }
    FilledHeader(CONFIGURATION, a[..total], table, names, HeaderBytes(|entries|, total));
    OverwritePrefix(a[..], 0, HeaderBytes(|entries|, total), total);
    WriteBytes(a, 0, HeaderBytes(|entries|, stringBuffer + stringOffset));
    FinishedHolds(a[..total], table, entries);
  }

  lemma NothingWritten(b: Buffer, entries: seq<RawEntry>)
    requires PackedLength(CONFIGURATION, Names(entries)) <= |b|
    ensures Filled(CONFIGURATION, b, [], Names(entries)) && EntriesOf([], entries, 0)
  {
    FilledNone(CONFIGURATION, b, Names(entries));
  }

  // ----- MakeConfiguration -----

  function Unflagged(imageNames: seq<Buffer>): (entries: seq<RawEntry>)
    ensures Names(entries) == imageNames
  {
    var entries := seq(|imageNames|, i requires 0 <= i < |imageNames| => RawEntry(imageNames[i], 0));
    assert Names(entries) == imageNames;
    entries
  }

  /** User mode packs a list of image names. */
  method MakeConfiguration(imageNames: seq<Buffer>) returns (buffer: Buffer)
    requires PackedLength(CONFIGURATION, imageNames) < SIZE_T_LIMIT
    ensures Holds(buffer, Unflagged(imageNames))
  {
    var totalStringLength := TotalStringLength(imageNames);
    var entries := Unflagged(imageNames);
    var a := new Byte[EntryAt(CONFIGURATION, |imageNames|) + totalStringLength](_ => 0);
    SerializeConfiguration(a, entries);
    assert a[..PackedLength(CONFIGURATION, imageNames)] == a[..];
    buffer := a[..];
  }

  // ----- GetConfigurationComplete -----

  function AsEntries(images: ImageSet): (entries: seq<RawEntry>)
    ensures |entries| == |images|
    ensures forall i {:trigger entries[i]} :: 0 <= i < |images| ==>
              entries[i] == RawEntry(images[i].name, images[i].flags)
  {
    seq(|images|, i requires 0 <= i < |images| => RawEntry(images[i].name, images[i].flags))
  }

  function RequiredLength(images: ImageSet): (length: nat)
    ensures length >= HEADER_SIZE
  {
    PackedLength(CONFIGURATION, Names(AsEntries(images)))
  }

  datatype Completion = Success(info: nat) | BufferTooSmall

  const LENGTH_SIZE := 8

  /** Serializes the stored configuration. A buffer of eight bytes learns the required length. */
  method GetConfigurationComplete(images: ImageSet, a: array<Byte>) returns (completion: Completion)
    requires RequiredLength(images) < SIZE_T_LIMIT
    modifies a
    ensures completion.Success? <==> a.Length == LENGTH_SIZE || RequiredLength(images) <= a.Length
    ensures a.Length == LENGTH_SIZE ==>
              completion == Success(LENGTH_SIZE) && Word(a[..], 0, 8) == RequiredLength(images)
    ensures a.Length >= RequiredLength(images) ==>
              && completion == Success(RequiredLength(images))
              && Holds(a[..RequiredLength(images)], AsEntries(images))
              && a[RequiredLength(images)..] == old(a[RequiredLength(images)..])
    ensures completion == BufferTooSmall ==> a[..] == old(a[..])
  {
    if a.Length < LENGTH_SIZE {
      return BufferTooSmall;
    }
    var totalStringLength := TotalStringLength(Names(AsEntries(images)));
    var requiredLength := EntryAt(CONFIGURATION, |images|) + totalStringLength;
    if a.Length < requiredLength {
      if a.Length == LENGTH_SIZE {
        WriteBytes(a, 0, Encode(requiredLength, 8));
        OverwriteReads(old(a[..]), 0, Encode(requiredLength, 8));
        WordSizes();
        WordOf(a[..], 0, 8, requiredLength);
        return Success(LENGTH_SIZE);
      }
      return BufferTooSmall;
    }
    SerializeConfiguration(a, AsEntries(images));
    return Success(requiredLength);
  }

  // ----- Round trips -----

  /** A name and its stored form compare equal. */
  ghost predicate CaseConsistent(fold: CaseFolding) {
    forall name {:trigger FoldName(fold, name)} :: fold.upper(FoldName(fold, name)) == fold.upper(name)
  }

  /** Besides, lower case stays what it is, and takes up no more or less room. */
  ghost predicate Folds(fold: CaseFolding) {
    && CaseConsistent(fold)
    && forall name {:trigger FoldName(fold, name)} ::
         |FoldName(fold, name)| == |name| && FoldName(fold, FoldName(fold, name)) == FoldName(fold, name)
  }

  /** Names that a buffer can hold, and not all of them empty. */
  ghost predicate Packable(entries: seq<RawEntry>) {
    && (forall i :: 0 <= i < |entries| ==> |entries[i].name| < USHORT_LIMIT)
    && (exists i :: 0 <= i < |entries| && entries[i].name != [])
  }

  ghost predicate DistinctWhenFolded(fold: CaseFolding, entries: seq<RawEntry>) {
    forall i, j :: 0 <= i < j < |entries| ==> fold.upper(entries[i].name) != fold.upper(entries[j].name)
  }

  function FoldedImages(fold: CaseFolding, entries: seq<RawEntry>): (images: ImageSet)
    ensures |images| == |entries|
    ensures forall i {:trigger images[i]} :: 0 <= i < |images| ==>
              images[i] == ImageEntry(FoldName(fold, entries[i].name), entries[i].flags)
  {
    seq(|entries|, i requires 0 <= i < |entries| => ImageEntry(FoldName(fold, entries[i].name), entries[i].flags))
  }

  lemma PackableOffset(entries: seq<RawEntry>)
    requires Packable(entries)
    ensures Offset(Names(entries), |entries|) > 0
  {
    var i :| 0 <= i < |entries| && entries[i].name != [];
    OffsetMonotonic(Names(entries), i + 1, |entries|);
  }

  /** Reading an entry back from a buffer that holds it. */
  lemma ReadsBack(b: Buffer, entries: seq<RawEntry>, j: nat)
    requires Holds(b, entries) && WellFormed(CONFIGURATION, b) && j < |entries|
    requires |entries[j].name| < USHORT_LIMIT
    ensures ConfigurationEntry(b, j) == entries[j]
  {
    hide Offset, EntryAt, Word, StringInside, HasEntry, StringOf, FlagsAt, WellFormed;
    assert HoldsAt(b, entries, j);
  }

  /** No earlier name differs from that of entry `i` in case only. */
  predicate IsFirst(fold: CaseFolding, entries: seq<RawEntry>, i: nat)
    requires i < |entries|
  {
    forall j :: 0 <= j < i ==> fold.upper(entries[j].name) != fold.upper(entries[i].name)
  }

  /** The first occurrence of each name among the first `n` entries, in order. */
  function FirstImages(fold: CaseFolding, entries: seq<RawEntry>, n: nat): ImageSet
    requires n <= |entries|
  {
    if n == 0 then []
    else
      FirstImages(fold, entries, n - 1)
      + if IsFirst(fold, entries, n - 1) then [ImageEntry(FoldName(fold, entries[n - 1].name), entries[n - 1].flags)]
        else []
  }

  /** Dropping later occurrences loses no name. */
  lemma {:induction false} FirstImagesHave(fold: CaseFolding, entries: seq<RawEntry>, n: nat, name: ImageName)
    requires CaseConsistent(fold) && n <= |entries|
    ensures HasImage(fold, FirstImages(fold, entries, n), name)
            <==> exists j :: 0 <= j < n && fold.upper(entries[j].name) == fold.upper(name)
  {
    if n > 0 {
      FirstImagesHave(fold, entries, n - 1, name);
      var before, e := FirstImages(fold, entries, n - 1), entries[n - 1];
      HasImageSnoc(fold, before, ImageEntry(FoldName(fold, e.name), e.flags), name);
      assert fold.upper(FoldName(fold, e.name)) == fold.upper(e.name);
      if IsFirst(fold, entries, n - 1) {
        assert FirstImages(fold, entries, n) == before + [ImageEntry(FoldName(fold, e.name), e.flags)];
      } else {
        assert FirstImages(fold, entries, n) == before;
      }
    }
  }

  lemma HasImageSnoc(fold: CaseFolding, images: ImageSet, image: ImageEntry, name: ImageName)
    ensures HasImage(fold, images + [image], name)
            <==> HasImage(fold, images, name) || fold.upper(image.name) == fold.upper(name)
  {
    var longer := images + [image];
    assert longer[|images|] == image;
    if i :| 0 <= i < |images| && fold.upper(images[i].name) == fold.upper(name) {
      assert longer[i] == images[i];
    }
  }

  /** Without repetitions, every entry is a first one. */
  lemma {:induction false} AllFirst(fold: CaseFolding, entries: seq<RawEntry>, n: nat)
    requires DistinctWhenFolded(fold, entries) && n <= |entries|
    ensures FirstImages(fold, entries, n) == FoldedImages(fold, entries)[..n]
  {
    if n > 0 {
      AllFirst(fold, entries, n - 1);
      assert IsFirst(fold, entries, n - 1);
    }
  }

  /** Parsing what a buffer holds gives the first occurrence of each name, in order. */
  lemma {:induction false} ParsedImages(fold: CaseFolding, b: Buffer, entries: seq<RawEntry>, n: nat)
    requires Holds(b, entries) && WellFormed(CONFIGURATION, b) && Packable(entries)
    requires CaseConsistent(fold) && n <= |entries|
    ensures ImagesOf(fold, b, n) == FirstImages(fold, entries, n)
  {
    hide Holds, WellFormed, HasImage, ConfigurationEntry, CaseConsistent;
    HoldsAll(b, entries);
    if n > 0 {
      ParsedImages(fold, b, entries, n - 1);
      ReadsBack(b, entries, n - 1);
      FirstImagesHave(fold, entries, n - 1, entries[n - 1].name);
    }
  }

  lemma HoldsAll(b: Buffer, entries: seq<RawEntry>)
    requires Holds(b, entries)
    ensures |b| >= HEADER_SIZE && NumEntries(b) == |entries|
  {
    hide WellFormed, HoldsAt;
  }

  lemma HeldAccepted(b: Buffer, entries: seq<RawEntry>)
    requires Holds(b, entries) && Packable(entries)
    ensures WellFormed(CONFIGURATION, b) && NumEntries(b) == |entries|
  {
    hide WellFormed, HoldsAt;
    PackableOffset(entries);
  }

  /** What user mode packs is accepted by the driver. Of names that differ in case only, the first is
      parsed back, and without such names all of them are. */
  lemma MakeConfigurationRoundTrip(fold: CaseFolding, imageNames: seq<Buffer>, b: Buffer)
    requires CaseConsistent(fold) && Holds(b, Unflagged(imageNames)) && Packable(Unflagged(imageNames))
    ensures WellFormed(CONFIGURATION, b) && NumEntries(b) == |imageNames|
    ensures ImagesOf(fold, b, NumEntries(b)) == FirstImages(fold, Unflagged(imageNames), |imageNames|)
    ensures DistinctWhenFolded(fold, Unflagged(imageNames)) ==>
              ImagesOf(fold, b, NumEntries(b)) == FoldedImages(fold, Unflagged(imageNames))
  {
    hide CaseConsistent, Holds, WellFormed, ImagesOf, FirstImages, Packable, DistinctWhenFolded;
    var entries := Unflagged(imageNames);
    HeldAccepted(b, entries);
    ParsedImages(fold, b, entries, |entries|);
    if DistinctWhenFolded(fold, entries) {
      AllFirst(fold, entries, |entries|);
      assert FoldedImages(fold, entries)[..|entries|] == FoldedImages(fold, entries);
    }
  }

  ghost predicate DistinctWithoutCase(fold: CaseFolding, images: ImageSet) {
    forall i, j :: 0 <= i < j < |images| ==> fold.upper(images[i].name) != fold.upper(images[j].name)
  }

  /** Every stored configuration has distinct names in lower case that fit in a buffer. */
  ghost predicate Storable(fold: CaseFolding, images: ImageSet) {
    && (forall i :: 0 <= i < |images| ==>
          && (images[i].name != [] ==> fold.lower(images[i].name) == images[i].name)
          && |images[i].name| < USHORT_LIMIT)
    && DistinctWithoutCase(fold, images)
  }

  /** What is stored of the first `n` of a list of entries. */
  function Stored(fold: CaseFolding, entries: seq<RawEntry>, n: nat): ImageSet
    requires n <= |entries|
  {
    if n == 0 then [] else AddImage(fold, Stored(fold, entries, n - 1), entries[n - 1])
  }

  ghost predicate DistinctNames(images: ImageSet) {
    forall i, j :: 0 <= i < j < |images| ==> images[i].name != images[j].name
  }

  /** A name that does not compare equal to its lower case is stored as often as it is added. */
  lemma TablesDisagree(fold: CaseFolding, name: ImageName)
    requires fold.upper(FoldName(fold, name)) != fold.upper(name)
    ensures var image := ImageEntry(FoldName(fold, name), 0);
            Stored(fold, [RawEntry(name, 0), RawEntry(name, 0)], 2) == [image, image]
  {
    var entries := [RawEntry(name, 0), RawEntry(name, 0)];
    var once := Stored(fold, entries, 1);
    assert Stored(fold, entries, 0) == [] && once == [ImageEntry(FoldName(fold, name), 0)];
    assert !HasImage(fold, once, name);
    assert Stored(fold, entries, 2) == AddImage(fold, once, entries[1]);
  }

  lemma AddedDistinct(fold: CaseFolding, images: ImageSet, e: RawEntry)
    requires CaseConsistent(fold) && DistinctWithoutCase(fold, images)
    ensures DistinctWithoutCase(fold, AddImage(fold, images, e))
  {
    assert fold.upper(FoldName(fold, e.name)) == fold.upper(e.name);
  }

  lemma {:induction false} StoredDistinct(fold: CaseFolding, entries: seq<RawEntry>, n: nat)
    requires CaseConsistent(fold) && n <= |entries|
    ensures DistinctWithoutCase(fold, Stored(fold, entries, n))
  {
    hide AddImage, CaseConsistent;
    if n > 0 {
      StoredDistinct(fold, entries, n - 1);
      AddedDistinct(fold, Stored(fold, entries, n - 1), entries[n - 1]);
    }
  }

  /** No list of entries leads to a name being stored twice, exactly if the two character tables agree. */
  lemma StoredDistinctExactly(fold: CaseFolding)
    ensures CaseConsistent(fold) <==> forall entries {:trigger Stored(fold, entries, |entries|)} ::
              DistinctNames(Stored(fold, entries, |entries|))
  {
    hide Stored, FoldName;
    if CaseConsistent(fold) {
      forall entries: seq<RawEntry>
        ensures DistinctNames(Stored(fold, entries, |entries|))
      {
        StoredDistinct(fold, entries, |entries|);
      }
    } else {
      var name :| fold.upper(FoldName(fold, name)) != fold.upper(name);
      TablesDisagree(fold, name);
      var entries := [RawEntry(name, 0), RawEntry(name, 0)];
      var images := Stored(fold, entries, |entries|);
      assert |entries| == 2 && images[0] == images[1];
    }
  }

  lemma StoredImage(fold: CaseFolding, images: ImageSet, e: RawEntry)
    requires Folds(fold) && Storable(fold, images) && |e.name| < USHORT_LIMIT
    ensures Storable(fold, AddImage(fold, images, e))
  {
  }

  lemma ShortName(b: Buffer, n: nat)
    requires WellFormed(CONFIGURATION, b) && n < NumEntries(b)
    ensures |ConfigurationEntry(b, n).name| < USHORT_LIMIT
  {
    hide EntryAt;
    assert HasEntry(CONFIGURATION, b, n);
    WordSizes();
    var at := EntryAt(CONFIGURATION, n) + CONFIGURATION.lengthAt;
    DecodeBound(b[at..at + 2]);
  }

  lemma {:induction false} StoredImages(fold: CaseFolding, b: Buffer, n: nat)
    requires Folds(fold) && WellFormed(CONFIGURATION, b) && n <= NumEntries(b)
    ensures Storable(fold, ImagesOf(fold, b, n))
  {
    hide AddImage, ConfigurationEntry;
    if n > 0 {
      StoredImages(fold, b, n - 1);
      ShortName(b, n - 1);
      StoredImage(fold, ImagesOf(fold, b, n - 1), ConfigurationEntry(b, n - 1));
    }
  }

  /** Even an empty name is within the buffer that holds it. */
  lemma NameWithin(b: Buffer, entries: seq<RawEntry>, i: nat)
    requires Holds(b, entries) && i < |entries| && |entries[i].name| < USHORT_LIMIT
    ensures HasEntry(CONFIGURATION, b, i)
    ensures StringArea(CONFIGURATION, b) + StringOffset(CONFIGURATION, b, i) + StringLength(CONFIGURATION, b, i) <= |b|
    ensures var at := StringArea(CONFIGURATION, b) + StringOffset(CONFIGURATION, b, i);
            b[at..at + StringLength(CONFIGURATION, b, i)] == entries[i].name
  {
    hide EntryAt, Word, HasEntry, FlagsAt, WellFormed;
    assert HoldsAt(b, entries, i);
    EntryFits(CONFIGURATION, Names(entries), i);
  }

  /** The part of ProcessGetConfig that lists the names in a buffer received from the driver. */
  method ListImageNames(b: Buffer, ghost images: ImageSet) returns (imageNames: seq<Buffer>)
    requires Holds(b, AsEntries(images))
    requires forall i :: 0 <= i < |images| ==> |images[i].name| < USHORT_LIMIT
    ensures imageNames == Names(AsEntries(images))
  {
    hide EntryAt, Word, Holds, HasEntry;
    HoldsAll(b, AsEntries(images));
    imageNames := [];
    var i := 0;
    while i < NumEntries(b)
      invariant i <= NumEntries(b)
      invariant imageNames == Names(AsEntries(images))[..i]
    {
      NameWithin(b, AsEntries(images), i);
      var at := StringArea(CONFIGURATION, b) + StringOffset(CONFIGURATION, b, i);
      imageNames := imageNames + [b[at..at + StringLength(CONFIGURATION, b, i)]];
      assert Names(AsEntries(images))[..i + 1] == Names(AsEntries(images))[..i] + [images[i].name];
      i := i + 1;
    }
  }

  ghost predicate StorableState(fold: CaseFolding, s: State) {
    HasInstance(s) ==> Storable(fold, Configuration(s))
  }

  lemma StoredBuffer(fold: CaseFolding, b: Buffer)
    requires Folds(fold) && WellFormed(CONFIGURATION, b)
    ensures |b| >= HEADER_SIZE && Storable(fold, ImagesOf(fold, b, NumEntries(b)))
  {
    StoredImages(fold, b, NumEntries(b));
  }

  lemma SetConfigurationStorable(fold: CaseFolding, b: Buffer, s: State, s': State, ok: bool)
    requires Folds(fold) && PoolAccounted(s.pool) && HasInstance(s) && StorableState(fold, s)
    requires SetConfigurationStep(fold, b, s, s', ok)
    ensures StorableState(fold, s')
  {
    hide Storable, ImagesOf, WellFormed, EngageStep, SyncStep;
    PoolRoundTrip(s.pool, []);
    if s' != s && s' != s.(pool := s.pool.Create([]).TearDown(s.pool.created)) {
      StoredBuffer(fold, b);
      var images := ImagesOf(fold, b, NumEntries(b));
      PoolCreate(s.pool, images);
      PoolRoundTrip(s.pool, images);
    }
  }

  lemma RequestStorable(fold: CaseFolding, request: Request, s: State, s': State, ok: bool)
    requires Folds(fold) && PoolAccounted(s.pool) && RequestStep(fold, request, s, s', ok) && StorableState(fold, s)
    ensures StorableState(fold, s')
  {
    hide Announced, Storable, SetConfigurationStep, Loaded, SameButTargets, Surplus;
    NothingStorable(fold);
    if request.SetConfiguration? && Served(s.phase, request) {
      SetConfigurationStorable(fold, request.buffer, s, s', ok);
    }
  }

  lemma StorableStep(fold: CaseFolding, step: Step, s: State, s': State)
    requires Folds(fold) && PoolAccounted(s.pool) && Next(fold, step, s, s') && StorableState(fold, s)
    ensures StorableState(fold, s')
  {
    hide Storable, RequestStep;
    if step.Serve? {
      RequestStorable(fold, step.request, s, s', step.ok);
    }
  }

  lemma NothingStorable(fold: CaseFolding)
    ensures Storable(fold, [])
  {
  }

  lemma NothingStored(fold: CaseFolding)
    ensures StorableState(fold, INITIAL_STATE)
  {
  }

  /** Whatever was set in a run, and whatever failed, the stored configuration has distinct folded names. */
  lemma {:induction false} StorableRun(fold: CaseFolding, steps: seq<Step>, states: seq<State>, n: nat)
    requires Folds(fold) && Run(fold, steps, states) && n <= |steps|
    ensures StorableState(fold, states[n])
  {
    hide Next, StorableState, PhaseInvariant, Conserved;
    if n == 0 {
      NothingStored(fold);
    } else {
      StorableRun(fold, steps, states, n - 1);
      RunInvariant(fold, steps, states, n - 1);
      StorableStep(fold, steps[n - 1], states[n - 1], states[n]);
    }
  }

  lemma StoredAsIs(fold: CaseFolding, images: ImageSet)
    requires Storable(fold, images)
    ensures FoldedImages(fold, AsEntries(images)) == images
    ensures DistinctWhenFolded(fold, AsEntries(images))
    ensures forall i :: 0 <= i < |images| ==> |AsEntries(images)[i].name| < USHORT_LIMIT
  {
  }

  /** A stored configuration survives being serialized and set again. It is accepted back exactly
      when some name in it is not empty. */
  lemma StoredRoundTrip(fold: CaseFolding, images: ImageSet, b: Buffer)
    requires Folds(fold) && Storable(fold, images) && Holds(b, AsEntries(images))
    ensures WellFormed(CONFIGURATION, b) <==> exists i :: 0 <= i < |images| && images[i].name != []
    ensures WellFormed(CONFIGURATION, b) ==> ImagesOf(fold, b, NumEntries(b)) == images
  {
    hide HoldsAt, WellFormed, Offset, Storable, CaseConsistent, DistinctWhenFolded, ImagesOf, FoldName;
    StoredAsIs(fold, images);
    var entries := AsEntries(images);
    if i :| 0 <= i < |images| && images[i].name != [] {
      assert entries[i].name != [];
      PackableOffset(entries);
      ParsedImages(fold, b, entries, |entries|);
      AllFirst(fold, entries, |entries|);
    } else {
      NoStrings(Names(entries), |entries|);
    }
  }

  lemma {:induction false} NoStrings(names: seq<Buffer>, n: nat)
    requires n <= |names| && forall i :: 0 <= i < n ==> names[i] == []
    ensures Offset(names, n) == 0
  {
    if n > 0 {
      NoStrings(names, n - 1);
    }
  }

  /** The strings of a serialized configuration follow each other without gap or overlap, and fill
      the string area. */
  lemma StringsTile(b: Buffer, entries: seq<RawEntry>, i: nat)
    requires Holds(b, entries) && i < |entries|
    requires forall j :: 0 <= j < |entries| ==> |entries[j].name| < USHORT_LIMIT
    ensures HasEntry(CONFIGURATION, b, i)
    ensures i == 0 ==> StringOffset(CONFIGURATION, b, i) == 0
    ensures var end := StringOffset(CONFIGURATION, b, i) + StringLength(CONFIGURATION, b, i);
            if i + 1 < |entries| then HasEntry(CONFIGURATION, b, i + 1) && StringOffset(CONFIGURATION, b, i + 1) == end
            else StringArea(CONFIGURATION, b) + end == |b|
  {
    hide EntryAt, Word, StringInside, HasEntry, StringOf, FlagsAt, WellFormed;
    assert HoldsAt(b, entries, i);
    if i + 1 < |entries| {
      assert HoldsAt(b, entries, i + 1);
    }
  }
}
