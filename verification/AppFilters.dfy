/**
 The list of images whose tunnel traffic is blocked, with a reference count for each image.
 A WFP transaction restores the filters, and a log of undo records restores the list.
 */
module AppFilters {
  import opened SplitTypes
  import opened WfpEngine

  datatype BlockEntry = BlockEntry(image: ImageName, refCount: int, addresses: TunnelAddresses)

  type BlockList = seq<BlockEntry>

  /** How to take back one change to the list. */
  datatype UndoRecord =
    | IncrementRefCount(image: ImageName)
    | DecrementRefCount(image: ImageName)
    | AddEntry(entry: BlockEntry, mockHead: Option<ImageName>)
    | RemoveEntry(image: ImageName)
    | SwapLists(previous: BlockList)

  // ----- Lists of block entries -----

  /** The first position of an image, or the length of the list. */
  function IndexOf(list: BlockList, image: ImageName): (i: nat)
    ensures i <= |list|
    ensures i < |list| ==> list[i].image == image
    ensures forall j :: 0 <= j < i ==> list[j].image != image
  {
    IndexFrom(list, image, 0)
  }

  function IndexFrom(list: BlockList, image: ImageName, start: nat): (i: nat)
    requires start <= |list|
    ensures start <= i <= |list|
    ensures i < |list| ==> list[i].image == image
    ensures forall j :: start <= j < i ==> list[j].image != image
    decreases |list| - start
  {
    if start == |list| || list[start].image == image then start else IndexFrom(list, image, start + 1)
  }

  function RefCount(list: BlockList, image: ImageName): int {
    var i := IndexOf(list, image);
    if i < |list| then list[i].refCount else 0
  }

  function Images(list: BlockList): set<ImageName> {
    set i | 0 <= i < |list| :: list[i].image
  }

  /** No image twice, and every entry is in use. */
  ghost predicate WellFormed(list: BlockList) {
    && (forall i, j :: 0 <= i < j < |list| ==> list[i].image != list[j].image)
    && (forall i :: 0 <= i < |list| ==> list[i].refCount >= 1)
  }

  /** The filters in WFP are exactly those that the list accounts for. */
  ghost predicate Mirrors(list: BlockList, blocks: map<ImageName, TunnelAddresses>) {
    && blocks.Keys == Images(list)
    && forall i :: 0 <= i < |list| ==> list[i].image in blocks && blocks[list[i].image] == list[i].addresses
  }

  /** Every filter is conditioned on the given tunnel addresses. */
  ghost predicate AllBoundTo(list: BlockList, addresses: TunnelAddresses) {
    forall i :: 0 <= i < |list| ==> list[i].addresses == addresses
  }

  /** The list with its first `n` entries conditioned on new addresses. */
  function ReboundPrefix(list: BlockList, addresses: TunnelAddresses, n: nat): (r: BlockList)
    requires n <= |list|
    ensures |r| == |list|
    ensures forall i {:trigger r[i]} :: 0 <= i < |r| ==>
              r[i] == if i < n then list[i].(addresses := addresses) else list[i]
  {
    seq(|list|, i requires 0 <= i < |list| => if i < n then list[i].(addresses := addresses) else list[i])
  }

  function Rebound(list: BlockList, addresses: TunnelAddresses): BlockList {
    ReboundPrefix(list, addresses, |list|)
  }

  function AddToRefCount(list: BlockList, image: ImageName, delta: int): BlockList {
    var i := IndexOf(list, image);
    if i < |list| then list[i := list[i].(refCount := list[i].refCount + delta)] else list
  }

  function RemoveAt(list: BlockList, k: nat): (r: BlockList)
    requires k < |list|
    ensures |r| == |list| - 1
    ensures forall j {:trigger r[j]} :: 0 <= j < |r| ==> r[j] == list[if j < k then j else j + 1]
  {
    list[..k] + list[k + 1..]
  }

  function Without(list: BlockList, image: ImageName): BlockList {
    var i := IndexOf(list, image);
    if i < |list| then RemoveAt(list, i) else list
  }

  /** InsertHeadList on the predecessor: the entry goes right after it, or first after the head. */
  function InsertAfter(list: BlockList, entry: BlockEntry, predecessor: Option<ImageName>): BlockList {
    match predecessor
    case None => [entry] + list
    case Some(image) =>
      var i := IndexOf(list, image);
      if i < |list| then list[..i + 1] + [entry] + list[i + 1..] else list
  }

  // ----- Undo -----

  function Undo(record: UndoRecord, list: BlockList): BlockList {
    match record
    case IncrementRefCount(image) => AddToRefCount(list, image, 1)
    case DecrementRefCount(image) => AddToRefCount(list, image, -1)
    case AddEntry(entry, mockHead) => InsertAfter(list, entry, mockHead)
    case RemoveEntry(image) => Without(list, image)
    case SwapLists(previous) => previous
  }

  /** The list after undoing all records, most recent first. */
  function UndoAll(records: seq<UndoRecord>, list: BlockList): BlockList {
    if records == [] then list else UndoAll(records[1..], Undo(records[0], list))
  }

  /** The first position of an image is determined by what is stored there and before. */
  lemma IndexIs(list: BlockList, image: ImageName, i: nat)
    requires i <= |list|
    requires i < |list| ==> list[i].image == image
    requires forall j :: 0 <= j < i ==> list[j].image != image
    ensures IndexOf(list, image) == i
  {
    var k := IndexOf(list, image);
    assert !(k < i) && !(i < k);
  }

  /** Changing a count leaves every position alone, and can be taken back. */
  lemma AddToRefCountUndone(list: BlockList, image: ImageName, delta: int)
    requires IndexOf(list, image) < |list|
    ensures var list' := AddToRefCount(list, image, delta);
            && (forall other :: IndexOf(list', other) == IndexOf(list, other))
            && AddToRefCount(list', image, -delta) == list
  {
    var k := IndexOf(list, image);
    var list' := AddToRefCount(list, image, delta);
    forall other
      ensures IndexOf(list', other) == IndexOf(list, other)
    {
      IndexIs(list', other, IndexOf(list, other));
    }
    assert AddToRefCount(list', image, -delta)[k] == list[k];
  }

  /** An entry for a new image is found at the end, so removing it takes the list back. */
  lemma AppendEffect(list: BlockList, entry: BlockEntry)
    requires IndexOf(list, entry.image) == |list|
    ensures forall other :: RefCount(list + [entry], other)
                            == if other == entry.image then entry.refCount else RefCount(list, other)
    ensures Without(list + [entry], entry.image) == list
  {
    var list' := list + [entry];
    IndexIs(list', entry.image, |list|);
    forall other | other != entry.image
      ensures RefCount(list', other) == RefCount(list, other)
    {
      var i := IndexOf(list, other);
      IndexIs(list', other, if i < |list| then i else |list'|);
    }
  }

  function Predecessor(list: BlockList, i: nat): Option<ImageName>
    requires i < |list|
  {
    if i == 0 then None else Some(list[i - 1].image)
  }

  lemma RemoveAtWellFormed(list: BlockList, k: nat)
    requires WellFormed(list) && k < |list|
    ensures WellFormed(RemoveAt(list, k))
    ensures forall i :: 0 <= i < |list| - 1 ==> RemoveAt(list, k)[i].image != list[k].image
  {
    var list' := RemoveAt(list, k);
    forall i, j | 0 <= i < j < |list'|
      ensures list'[i].image != list'[j].image
    {
      var i', j' := if i < k then i else i + 1, if j < k then j else j + 1;
      assert list'[i] == list[i'] && list'[j] == list[j'];
    }
  }

  lemma WithoutWellFormed(list: BlockList, image: ImageName)
    requires WellFormed(list) && IndexOf(list, image) < |list|
    ensures WellFormed(Without(list, image))
    ensures IndexOf(Without(list, image), image) == |list| - 1
  {
    hide WellFormed;
    RemoveAtWellFormed(list, IndexOf(list, image));
    IndexIs(Without(list, image), image, |list| - 1);
  }

  /** Removing an entry forgets its count and no other. */
  lemma WithoutCounts(list: BlockList, image: ImageName, other: ImageName)
    requires WellFormed(list) && IndexOf(list, image) < |list|
    ensures RefCount(Without(list, image), other) == if other == image then 0 else RefCount(list, other)
  {
    var k, i := IndexOf(list, image), IndexOf(list, other);
    assert i < |list| && i != k ==> RemoveAt(list, k)[if i < k then i else i - 1] == list[i];
    if other == image {
      WithoutWellFormed(list, image);
    } else if i < |list| {
      IndexIs(Without(list, image), other, if i < k then i else i - 1);
    } else {
      IndexIs(Without(list, image), other, |list| - 1);
    }
  }

  lemma PutBack(list: BlockList, k: nat)
    requires k < |list|
    ensures RemoveAt(list, k)[..k] + [list[k]] + RemoveAt(list, k)[k..] == list
  {
  }

  /** The predecessor of a removed entry is still where it was. */
  lemma PredecessorStays(list: BlockList, k: nat)
    requires WellFormed(list) && 0 < k < |list|
    ensures IndexOf(RemoveAt(list, k), list[k - 1].image) == k - 1
  {
    hide RemoveAt, IndexOf;
    var list' := RemoveAt(list, k);
    assert list'[k - 1] == list[k - 1];
    forall j | 0 <= j < k - 1
      ensures list'[j].image != list[k - 1].image
    {
      assert list'[j] == list[j];
    }
    IndexIs(list', list[k - 1].image, k - 1);
  }

  /** An entry put back after its old predecessor is back at its old place. */
  lemma WithoutUndone(list: BlockList, image: ImageName)
    requires WellFormed(list) && IndexOf(list, image) < |list|
    ensures var i := IndexOf(list, image);
            InsertAfter(Without(list, image), list[i], Predecessor(list, i)) == list
  {
    hide WellFormed, RemoveAt, IndexOf;
    var k := IndexOf(list, image);
    PutBack(list, k);
    if k > 0 {
      PredecessorStays(list, k);
    } else {
      assert RemoveAt(list, k)[..k] + [list[k]] + RemoveAt(list, k)[k..] == [list[k]] + RemoveAt(list, k);
    }
  }

  // ----- The list and WFP together -----

  lemma MirrorsAppend(list: BlockList, blocks: map<ImageName, TunnelAddresses>, entry: BlockEntry)
    requires Mirrors(list, blocks) && IndexOf(list, entry.image) == |list|
    ensures Mirrors(list + [entry], blocks[entry.image := entry.addresses])
  {
    var list' := list + [entry];
    assert list'[|list|] == entry;
    assert forall i :: 0 <= i < |list| ==> list'[i] == list[i];
    assert Images(list') == Images(list) + {entry.image} by {
      forall image | image in Images(list) ensures image in Images(list') {
        var i :| 0 <= i < |list| && list[i].image == image;
        assert list'[i].image == image;
      }
      assert entry.image in Images(list');
    }
  }

  lemma ImagesRemoveAt(list: BlockList, k: nat)
    requires WellFormed(list) && k < |list|
    ensures Images(RemoveAt(list, k)) == Images(list) - {list[k].image}
  {
    var list' := RemoveAt(list, k);
    forall other | other in Images(list) - {list[k].image}
      ensures other in Images(list')
    {
      var i :| 0 <= i < |list| && list[i].image == other;
      assert list'[if i < k then i else i - 1].image == other;
    }
  }

  lemma MirrorsWithout(list: BlockList, blocks: map<ImageName, TunnelAddresses>, image: ImageName)
    requires WellFormed(list) && Mirrors(list, blocks) && IndexOf(list, image) < |list|
    ensures Mirrors(Without(list, image), blocks - {image})
  {
    hide Images, WellFormed;
    var k := IndexOf(list, image);
    ImagesRemoveAt(list, k);
    RemoveAtWellFormed(list, k);
    var list' := RemoveAt(list, k);
    forall i | 0 <= i < |list'|
      ensures list'[i].image != image && list'[i].image in blocks && blocks[list'[i].image] == list'[i].addresses
    {
      assert list'[i] == list[if i < k then i else i + 1];
    }
  }

  lemma MirrorsSameImages(list: BlockList, list': BlockList, blocks: map<ImageName, TunnelAddresses>)
    requires Mirrors(list, blocks) && |list'| == |list|
    requires forall i :: 0 <= i < |list| ==> list'[i].image == list[i].image && list'[i].addresses == list[i].addresses
    ensures Mirrors(list', blocks)
  {
    assert Images(list') == Images(list) by {
      forall image | image in Images(list) ensures image in Images(list') {
        var i :| 0 <= i < |list| && list[i].image == image;
        assert list'[i].image == image;
      }
    }
  }

  lemma MirrorsRebind(list: BlockList, blocks: map<ImageName, TunnelAddresses>, i: nat, addresses: TunnelAddresses)
    requires WellFormed(list) && Mirrors(list, blocks) && i < |list|
    ensures var image := list[i].image;
            Mirrors(list[i := list[i].(addresses := addresses)], (blocks - {image})[image := addresses])
  {
    var list' := list[i := list[i].(addresses := addresses)];
    forall other | other in Images(list) ensures other in Images(list') {
      var j :| 0 <= j < |list| && list[j].image == other;
      assert list'[j].image == other;
    }
    assert list[i].image in Images(list);
  }

  // ----- Each change to the list, with the record that takes it back -----

  lemma UndoOne(record: UndoRecord, records: seq<UndoRecord>, list: BlockList, list': BlockList)
    requires Undo(record, list') == list
    ensures UndoAll([record] + records, list') == UndoAll(records, list)
  {
    assert ([record] + records)[1..] == records;
  }

  lemma CountStep(list: BlockList, image: ImageName, delta: int, blocks: map<ImageName, TunnelAddresses>)
    requires WellFormed(list) && Mirrors(list, blocks)
    requires IndexOf(list, image) < |list|
    requires delta == 1 || RefCount(list, image) + delta >= 1
    ensures var list' := AddToRefCount(list, image, delta);
            && WellFormed(list') && Mirrors(list', blocks)
            && (delta == 1 ==> Undo(DecrementRefCount(image), list') == list)
            && (delta == -1 ==> Undo(IncrementRefCount(image), list') == list)
  {
    hide Mirrors;
    AddToRefCountUndone(list, image, delta);
    MirrorsSameImages(list, AddToRefCount(list, image, delta), blocks);
  }

  lemma AppendStep(list: BlockList, entry: BlockEntry, blocks: map<ImageName, TunnelAddresses>)
    requires WellFormed(list) && Mirrors(list, blocks)
    requires IndexOf(list, entry.image) == |list| && entry.refCount >= 1
    ensures WellFormed(list + [entry]) && Mirrors(list + [entry], blocks[entry.image := entry.addresses])
    ensures Undo(RemoveEntry(entry.image), list + [entry]) == list
  {
    AppendEffect(list, entry);
    MirrorsAppend(list, blocks, entry);
  }

  lemma WithoutStep(list: BlockList, image: ImageName, blocks: map<ImageName, TunnelAddresses>)
    requires WellFormed(list) && Mirrors(list, blocks) && IndexOf(list, image) < |list|
    ensures var i := IndexOf(list, image);
            && WellFormed(Without(list, image)) && Mirrors(Without(list, image), blocks - {image})
            && Undo(AddEntry(list[i], Predecessor(list, i)), Without(list, image)) == list
  {
    WithoutWellFormed(list, image);
    MirrorsWithout(list, blocks, image);
    WithoutUndone(list, image);
  }

  lemma ReboundWellFormed(list: BlockList, addresses: TunnelAddresses, n: nat)
    requires WellFormed(list) && n <= |list|
    ensures WellFormed(ReboundPrefix(list, addresses, n))
  {
  }

  /** One round of UpdateFilters: the entry's filters are removed and new ones added. */
  lemma RebindStep(list: BlockList, addresses: TunnelAddresses, i: nat, blocks: map<ImageName, TunnelAddresses>)
    requires WellFormed(list) && i < |list|
    requires Mirrors(ReboundPrefix(list, addresses, i), blocks)
    ensures Mirrors(ReboundPrefix(list, addresses, i + 1), (blocks - {list[i].image})[list[i].image := addresses])
  {
    hide WellFormed, Mirrors;
    var mixed := ReboundPrefix(list, addresses, i);
    ReboundWellFormed(list, addresses, i);
    assert mixed[i] == list[i];
    MirrorsRebind(mixed, blocks, i, addresses);
    assert mixed[i := mixed[i].(addresses := addresses)] == ReboundPrefix(list, addresses, i + 1);
  }

  /** Dropping the first entry together with its filters. */
  lemma DropFirst(list: BlockList, i: nat, blocks: map<ImageName, TunnelAddresses>)
    requires WellFormed(list) && i < |list| && Mirrors(list[i..], blocks)
    ensures Mirrors(list[i + 1..], blocks - {list[i].image})
  {
    var rest := list[i..];
    IndexIs(rest, list[i].image, 0);
    MirrorsWithout(rest, blocks, list[i].image);
    assert Without(rest, list[i].image) == list[i + 1..];
  }

  // ----- What the operations make of the list -----

  function Registered(list: BlockList, image: ImageName, addresses: TunnelAddresses): BlockList {
    if IndexOf(list, image) < |list| then AddToRefCount(list, image, 1)
    else list + [BlockEntry(image, 1, addresses)]
  }

  function Unregistered(list: BlockList, image: ImageName): BlockList {
    if RefCount(list, image) > 1 then AddToRefCount(list, image, -1) else Without(list, image)
  }

  /** Registering keeps the list well formed and its filters on the same tunnel addresses. */
  lemma RegisteredWellFormed(list: BlockList, image: ImageName, addresses: TunnelAddresses)
    requires WellFormed(list)
    ensures WellFormed(Registered(list, image, addresses))
    ensures AllBoundTo(list, addresses) ==> AllBoundTo(Registered(list, image, addresses), addresses)
  {
  }

  /** Registering an image raises its count by one and no other. */
  lemma RegisteredCount(list: BlockList, image: ImageName, addresses: TunnelAddresses, other: ImageName)
    ensures RefCount(Registered(list, image, addresses), other)
            == RefCount(list, other) + if other == image then 1 else 0
  {
    if IndexOf(list, image) < |list| {
      AddToRefCountUndone(list, image, 1);
    } else {
      AppendEffect(list, BlockEntry(image, 1, addresses));
    }
  }

  /** Unregistering a listed image keeps the list well formed and its filters on the same tunnel addresses. */
  lemma UnregisteredWellFormed(list: BlockList, image: ImageName, addresses: TunnelAddresses)
    requires WellFormed(list) && IndexOf(list, image) < |list|
    ensures WellFormed(Unregistered(list, image))
    ensures AllBoundTo(list, addresses) ==> AllBoundTo(Unregistered(list, image), addresses)
  {
    if RefCount(list, image) <= 1 {
      hide WellFormed;
      WithoutWellFormed(list, image);
    }
  }

  /** Unregistering a listed image lowers its count by one and no other. */
  lemma UnregisteredCount(list: BlockList, image: ImageName, other: ImageName)
    requires WellFormed(list) && IndexOf(list, image) < |list|
    ensures RefCount(Unregistered(list, image), other) == RefCount(list, other) - if other == image then 1 else 0
  {
    if RefCount(list, image) > 1 {
      AddToRefCountUndone(list, image, -1);
    } else {
      WithoutCounts(list, image, other);
    }
  }

  // ----- The subsystem -----

  class AppFilters {
    const wfp: Engine
    var blocked: BlockList
    /** Undo records of the current transaction, most recent first. */
    var records: seq<UndoRecord>

    constructor (wfp: Engine)
      ensures this.wfp == wfp && blocked == [] && records == []
    {
      this.wfp := wfp;
      blocked, records := [], [];
    }

    /** The list that aborting the current transaction would restore. */
    ghost function Base(): BlockList
      reads this
    {
      UndoAll(records, blocked)
    }

    ghost predicate Valid()
      reads this
    {
      WellFormed(blocked) && WellFormed(Base())
    }

    ghost predicate Consistent()
      reads this, wfp
    {
      Mirrors(blocked, wfp.filters.blocks)
    }

    /** Pushes an undo record; the allocation may fail. */
    method PushTransactionEvent(record: UndoRecord) returns (ok: bool)
      modifies this`records, wfp.meter`faults
      ensures records == if ok then [record] + old(records) else old(records)
      ensures wfp.meter.faults == old(wfp.meter.faults) + if ok then 0 else 1
    {
      ok := wfp.meter.Attempt();
      if ok {
        records := [record] + records;
      }
    }

    method TransactionBegin() returns (ok: bool)
      ensures ok <==> records == []
    {
      ok := records == [];
    }

    method TransactionCommit()
      modifies this`records
      ensures records == []
    {
      records := [];
    }

    /** Steps back through the undo records. */
    method TransactionAbort()
      modifies this
      ensures records == [] && blocked == old(Base())
    {
      while records != []
        invariant Base() == old(Base())
        decreases |records|
      {
        var record := records[0];
        records := records[1..];
        match record {
          case IncrementRefCount(image) => blocked := AddToRefCount(blocked, image, 1);
          case DecrementRefCount(image) => blocked := AddToRefCount(blocked, image, -1);
          case AddEntry(entry, mockHead) => blocked := InsertAfter(blocked, entry, mockHead);
          case RemoveEntry(image) => blocked := Without(blocked, image);
          case SwapLists(previous) => blocked := previous;
        }
      }
    }

    method RegisterFilterBlockAppTunnelTraffic(image: ImageName, addresses: TunnelAddresses) returns (ok: bool)
      requires Valid() && Consistent() && wfp.open
      modifies this, wfp`filters, wfp.meter`faults
      ensures Valid() && Base() == old(Base())
      ensures wfp.filters.generic == old(wfp.filters.generic) || !ok
      ensures ok ==> Consistent() && blocked == Registered(old(blocked), image, addresses)
      ensures wfp.meter.faults >= old(wfp.meter.faults)
                                  + if ok || addresses == TunnelAddresses(None, None) then 0 else 1
    {
      hide Undo, UndoAll, WellFormed, Mirrors;
      if addresses == TunnelAddresses(None, None) {
        return false;
      }
      var i := IndexOf(blocked, image);
      if i < |blocked| {
        ok := PushTransactionEvent(DecrementRefCount(image));
        if ok {
          CountStep(blocked, image, 1, wfp.filters.blocks);
          blocked := blocked[i := blocked[i].(refCount := blocked[i].refCount + 1)];
          UndoOne(records[0], old(records), old(blocked), blocked);
        }
        return;
      }
      ok := AddBlockFiltersCreateEntry(image, addresses);
    }

    method AddBlockFiltersCreateEntry(image: ImageName, addresses: TunnelAddresses) returns (ok: bool)
      requires Valid() && Consistent() && wfp.open
      requires IndexOf(blocked, image) == |blocked|
      modifies this, wfp`filters, wfp.meter`faults
      ensures Valid() && Base() == old(Base())
      ensures wfp.filters.generic == old(wfp.filters.generic) || !ok
      ensures ok ==> Consistent() && blocked == old(blocked) + [BlockEntry(image, 1, addresses)]
      ensures wfp.meter.faults >= old(wfp.meter.faults) + if ok then 0 else 1
    {
      hide Undo, UndoAll, WellFormed, Mirrors;
      ok := wfp.AddBlockFilters(image, addresses);
      if !ok {
        return;
      }
      ok := PushTransactionEvent(RemoveEntry(image));
      if ok {
        var entry := BlockEntry(image, 1, addresses);
        AppendStep(blocked, entry, old(wfp.filters.blocks));
        blocked := blocked + [entry];
        UndoOne(records[0], old(records), old(blocked), blocked);
      }
    }

    method RemoveFilterBlockAppTunnelTraffic(image: ImageName) returns (ok: bool)
      requires Valid() && Consistent() && wfp.open
      modifies this, wfp`filters, wfp.meter`faults
      ensures Valid() && Base() == old(Base())
      ensures wfp.filters.generic == old(wfp.filters.generic) || !ok
      ensures ok ==> IndexOf(old(blocked), image) < |old(blocked)|
      ensures ok ==> Consistent() && blocked == Unregistered(old(blocked), image)
      ensures wfp.meter.faults >= old(wfp.meter.faults)
                                  + if ok || IndexOf(old(blocked), image) == |old(blocked)| then 0 else 1
    {
      hide Undo, UndoAll, WellFormed, Mirrors;
      var i := IndexOf(blocked, image);
      if i == |blocked| {
        return false;
      }
      if blocked[i].refCount > 1 {
        ok := PushTransactionEvent(IncrementRefCount(image));
        if ok {
          CountStep(blocked, image, -1, wfp.filters.blocks);
          blocked := blocked[i := blocked[i].(refCount := blocked[i].refCount - 1)];
          UndoOne(records[0], old(records), old(blocked), blocked);
        }
        return;
      }
      ok := wfp.RemoveBlockFilters(image);
      if !ok {
        return;
      }
      ok := PushTransactionEvent(AddEntry(blocked[i], Predecessor(blocked, i)));
      if ok {
        WithoutStep(blocked, image, old(wfp.filters.blocks));
        blocked := blocked[..i] + blocked[i + 1..];
        UndoOne(records[0], old(records), old(blocked), blocked);
      }
    }

    /** Removes every filter and forgets every image. */
    method Reset() returns (ok: bool)
      requires Valid() && Consistent() && wfp.open
      modifies this, wfp`filters, wfp.meter`faults
      ensures Valid() && Base() == old(Base())
      ensures wfp.filters.generic == old(wfp.filters.generic) || !ok
      ensures ok ==> Consistent() && blocked == []
      ensures wfp.meter.faults >= old(wfp.meter.faults) + if ok then 0 else 1
    {
      if blocked == [] {
        return true;
      }
      for i := 0 to |blocked|
        invariant blocked == old(blocked) && records == old(records)
        invariant wfp.filters.generic == old(wfp.filters.generic) && wfp.meter.faults >= old(wfp.meter.faults)
        invariant Mirrors(blocked[i..], wfp.filters.blocks)
      {
        DropFirst(blocked, i, wfp.filters.blocks);
        ok := wfp.RemoveBlockFilters(blocked[i].image);
        if !ok {
          return;
        }
      }
      ok := PushTransactionEvent(SwapLists(blocked));
      if ok {
        blocked := [];
        UndoOne(records[0], old(records), old(blocked), blocked);
      }
    }

    /** Rewrites every filter to be conditioned on new tunnel addresses. */
    method UpdateFilters(addresses: TunnelAddresses) returns (ok: bool)
      requires Valid() && Consistent() && wfp.open
      modifies this, wfp`filters, wfp.meter`faults
      ensures Valid() && Base() == old(Base())
      ensures wfp.filters.generic == old(wfp.filters.generic) || !ok
      ensures ok ==> Consistent() && blocked == Rebound(old(blocked), addresses)
      ensures wfp.meter.faults >= old(wfp.meter.faults) + if ok then 0 else 1
    {
      hide UndoAll, WellFormed, Mirrors;
      if blocked == [] {
        return true;
      }
      var newList: BlockList := [];
      assert ReboundPrefix(blocked, addresses, 0) == blocked;
      for i := 0 to |blocked|
        invariant blocked == old(blocked) && records == old(records)
        invariant wfp.filters.generic == old(wfp.filters.generic) && wfp.meter.faults >= old(wfp.meter.faults)
        invariant newList == ReboundPrefix(blocked, addresses, i)[..i]
        invariant Mirrors(ReboundPrefix(blocked, addresses, i), wfp.filters.blocks)
      {
        RebindStep(blocked, addresses, i, wfp.filters.blocks);
        ok := wfp.RemoveBlockFilters(blocked[i].image);
        if !ok {
          return;
        }
        ok := wfp.AddBlockFilters(blocked[i].image, addresses);
        if !ok {
          return;
        }
        newList := newList + [blocked[i].(addresses := addresses)];
      }
      assert newList == Rebound(blocked, addresses);
      ReboundWellFormed(blocked, addresses, |blocked|);
      ok := PushTransactionEvent(SwapLists(blocked));
      if ok {
        blocked := newList;
        UndoOne(records[0], old(records), old(blocked), blocked);
      }
    }
  }
}
