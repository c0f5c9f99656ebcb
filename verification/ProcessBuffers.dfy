/** The process list that user mode compiles, packs and sends, and that fills the process registry. */
module ProcessBuffers {
  import opened SplitTypes
  import opened Ancestry
  import opened WireFormat
  import opened Packing
  import opened DriverSteps
  import DriverRuns
  import ConfigurationBuffers

  /** Process ids and creation times as user mode sees them. */
  type Dword = d: int | 0 <= d < 0x1_0000_0000
  type FileTime = t: int | 0 <= t < SIZE_T_LIMIT

  datatype ProcessInfo = ProcessInfo(pid: Dword, parent: Dword, creationTime: FileTime, devicePath: Buffer)

  // ----- Recycled process ids -----

  /** The processes found, by id. */
  type Snapshot = map<Dword, ProcessInfo>

  /** A parent that is listed, has a known creation time, and is older than the process. */
  predicate PlausibleParent(processes: Snapshot, process: ProcessInfo) {
    && process.parent in processes
    && processes[process.parent].creationTime != 0
    && processes[process.parent].creationTime < process.creationTime
  }

  /** The process with its parent link cleared unless the parent is plausible. */
  function Unrecycled(processes: Snapshot, process: ProcessInfo): ProcessInfo {
    if PlausibleParent(processes, process) then process else process.(parent := 0)
  }

  /** Clears the parent links that stem from recycled process ids, in place and in any order. */
  method ClearRecycledParents(processes: Snapshot) returns (cleared: Snapshot)
    ensures cleared.Keys == processes.Keys
    ensures forall p :: p in processes ==> cleared[p] == Unrecycled(processes, processes[p])
  {
    cleared := processes;
    var todo := processes.Keys;
    while todo != {}
      invariant cleared.Keys == processes.Keys && todo <= processes.Keys
      invariant forall p :: p in processes ==>
                  cleared[p] == if p in todo then processes[p] else Unrecycled(processes, processes[p])
    {
      var p :| p in todo;
      var process := cleared[p];
      assert PlausibleParent(cleared, process) == PlausibleParent(processes, process);
      if !PlausibleParent(cleared, process) {
        cleared := cleared[p := process.(parent := 0)];
      }
      todo := todo - {p};
    }
  }

  /** The registry that a list of processes with distinct ids gives rise to. */
  ghost predicate Describes(processes: Snapshot, r: Registry) {
    && (forall p :: p in r <==> p in processes)
    && (forall p :: p in processes ==> p in r && r[p].parent == processes[p].parent)
  }

  /** A link survives if it leads to a listed process that was created strictly earlier, at a time that is
      known, and no other link does. Nothing else changes. */
  ghost predicate LinkSettled(processes: Snapshot, cleared: Snapshot, p: Dword)
    requires p in processes && p in cleared
  {
    && cleared[p] == processes[p].(parent := cleared[p].parent)
    && var parent := processes[p].parent;
       if parent in processes && 0 < processes[parent].creationTime < processes[p].creationTime
       then cleared[p].parent == parent
       else cleared[p].parent == 0
  }

  lemma UnrecycledLinks(processes: Snapshot, cleared: Snapshot)
    requires cleared.Keys == processes.Keys
    requires forall p :: p in processes ==> cleared[p] == Unrecycled(processes, processes[p])
    ensures forall p :: p in processes ==> LinkSettled(processes, cleared, p)
  {
  }

  /** Every link leads to a listed process that was created strictly earlier. */
  ghost predicate LeadToOlder(processes: Snapshot, r: Registry) {
    forall p :: p in r ==>
      && p in processes
      && (r[p].parent != NO_PROCESS ==>
            && r[p].parent in r && r[p].parent in processes
            && processes[r[p].parent].creationTime < processes[p].creationTime)
  }

  lemma OlderForest(processes: Snapshot, r: Registry)
    requires LeadToOlder(processes, r)
    ensures Forest(r)
  {
    var rank: map<Pid, nat> := map p | p in r :: processes[p].creationTime;
    assert Ranks(rank, r);
  }

  /** After the pass, every parent link leads to a listed process that was created strictly earlier.
      The parent links of the registry therefore form a forest, and every ancestry walk ends. */
  lemma UnrecycledForest(processes: Snapshot, cleared: Snapshot, r: Registry)
    requires cleared.Keys == processes.Keys
    requires forall p :: p in processes ==> cleared[p] == Unrecycled(processes, processes[p])
    requires Describes(cleared, r)
    ensures forall p :: p in processes ==> LinkSettled(processes, cleared, p)
    ensures LeadToOlder(processes, r) && Forest(r)
  {
    hide Unrecycled, Forest, Acyclic;
    UnrecycledLinks(processes, cleared);
    forall p | p in r
      ensures p in processes
      ensures r[p].parent != NO_PROCESS ==>
                && r[p].parent in r && r[p].parent in processes
                && processes[r[p].parent].creationTime < processes[p].creationTime
    {
      assert LinkSettled(processes, cleared, p);
    }
    OlderForest(processes, r);
  }

  // ----- Packing -----

  const PADDING: Buffer := [0, 0, 0, 0, 0, 0]

  function ProcessBytes(pid: nat, parent: nat, offset: nat, length: nat): (bytes: Buffer)
    ensures |bytes| == PROCESSES.entrySize
  {
    Encode(pid, 8) + Encode(parent, 8) + Encode(offset, 8) + Encode(length, 2) + PADDING
  }

  lemma EntryReadsBack(b: Buffer, j: nat, pid: nat, parent: nat, offset: nat, length: nat)
    requires HasEntry(PROCESSES, b, j)
    requires EntryBytes(PROCESSES, b, j) == ProcessBytes(pid, parent, offset, length)
    requires pid < SIZE_T_LIMIT && parent < SIZE_T_LIMIT && offset < SIZE_T_LIMIT && length < USHORT_LIMIT
    ensures PidAt(b, j) == pid && ParentAt(b, j) == parent
    ensures StringOffset(PROCESSES, b, j) == offset && StringLength(PROCESSES, b, j) == length
  {
    hide EntryAt, Word, Decode, Encode;
    WordSizes();
    var at := EntryAt(PROCESSES, j);
    var e0, e1, e2, e3 := Encode(pid, 8), Encode(parent, 8), Encode(offset, 8), Encode(length, 2);
    assert ProcessBytes(pid, parent, offset, length) == [] + e0 + (e1 + e2 + e3 + PADDING);
    PartOf(b, at, [], e0, e1 + e2 + e3 + PADDING);
    assert ProcessBytes(pid, parent, offset, length) == e0 + e1 + (e2 + e3 + PADDING);
    PartOf(b, at, e0, e1, e2 + e3 + PADDING);
    assert ProcessBytes(pid, parent, offset, length) == (e0 + e1) + e2 + (e3 + PADDING);
    PartOf(b, at, e0 + e1, e2, e3 + PADDING);
    PartOf(b, at, e0 + e1 + e2, e3, PADDING);
    WordOf(b, at, 8, pid);
    WordOf(b, at + 8, 8, parent);
    WordOf(b, at + 16, 8, offset);
    WordOf(b, at + 24, 2, length);
  }

  function Paths(processes: seq<ProcessInfo>): (paths: seq<Buffer>)
    ensures |paths| == |processes|
    ensures forall i {:trigger paths[i]} :: 0 <= i < |paths| ==> paths[i] == processes[i].devicePath
  {
    seq(|processes|, i requires 0 <= i < |processes| => processes[i].devicePath)
  }

  /** The entry that is written for a process. A process without a path points nowhere. */
  function EntryFor(processes: seq<ProcessInfo>, j: nat): Buffer
    requires j < |processes|
  {
    var p := processes[j];
    ProcessBytes(p.pid, p.parent, if p.devicePath == [] then 0 else Offset(Paths(processes), j),
                 |p.devicePath| % USHORT_LIMIT)
  }

  function Table(processes: seq<ProcessInfo>, n: nat): (table: seq<Buffer>)
    requires n <= |processes|
    ensures |table| == n
    ensures forall j {:trigger table[j]} :: 0 <= j < n ==> table[j] == EntryFor(processes, j)
  {
    seq(n, j requires 0 <= j < n => EntryFor(processes, j))
  }

  /** Entry `j` of the buffer describes process `j`, with its path cut to 16 bits of length. */
  ghost predicate HoldsAt(b: Buffer, processes: seq<ProcessInfo>, j: nat)
    requires |b| >= HEADER_SIZE && j < |processes|
  {
    && HasEntry(PROCESSES, b, j) && StringInside(PROCESSES, b, j)
    && PidAt(b, j) == processes[j].pid && ParentAt(b, j) == processes[j].parent
    && StringOf(PROCESSES, b, j) == processes[j].devicePath[..|processes[j].devicePath| % USHORT_LIMIT]
  }

  /** A buffer that holds exactly the given processes. It is accepted by the driver exactly when their
      paths are not all empty. */
  ghost predicate Holds(b: Buffer, processes: seq<ProcessInfo>) {
    && |b| == PackedLength(PROCESSES, Paths(processes))
    && NumEntries(b) == |processes| && TotalLength(b) == |b|
    && (WellFormed(PROCESSES, b) <==> Offset(Paths(processes), |processes|) > 0)
    && forall j: nat :: j < |processes| ==> HoldsAt(b, processes, j)
  }

  /** A finished buffer holds its processes. */
  lemma FinishedHolds(b: Buffer, processes: seq<ProcessInfo>)
    requires Filled(PROCESSES, b, Table(processes, |processes|), Paths(processes))
    requires |b| == PackedLength(PROCESSES, Paths(processes)) < SIZE_T_LIMIT
    requires b[..HEADER_SIZE] == HeaderBytes(|processes|, |b|)
    ensures Holds(b, processes)
  {
    hide EntryAt, EntryBytes, NameBytes, StringOf, Word, ProcessBytes;
    var paths := Paths(processes);
    EntryAtProduct(PROCESSES, |processes|);
    HeaderWords(b, |processes|, |b|);
    forall j: nat | j < |processes|
      ensures HasEntry(PROCESSES, b, j) && PointsTo(PROCESSES, b, paths, j)
      ensures PidAt(b, j) == processes[j].pid && ParentAt(b, j) == processes[j].parent
    {
      EntryFits(PROCESSES, paths, j);
      EntryReadsBack(b, j, processes[j].pid, processes[j].parent,
                     if processes[j].devicePath == [] then 0 else Offset(paths, j),
                     |processes[j].devicePath| % USHORT_LIMIT);
    }
    PackedReadsBack(PROCESSES, b, Table(processes, |processes|), paths);
    forall j: nat | j < |processes|
      ensures HoldsAt(b, processes, j)
    {
      assert StringRead(PROCESSES, b, paths, j);
    }
  }

  /** Writes the entry of one process, and its path if it has one. */
  method SerializeProcess(a: array<Byte>, entry: nat, stringDest: nat, stringOffset: nat, process: ProcessInfo)
    requires entry + PROCESSES.entrySize <= stringDest && stringDest + |process.devicePath| <= a.Length
    modifies a
    ensures var path := process.devicePath;
            a[..] == Overwrite(Overwrite(old(a[..]), entry,
                                         ProcessBytes(process.pid, process.parent,
                                                      if path == [] then 0 else stringOffset,
                                                      |path| % USHORT_LIMIT)),
                               stringDest, path)
  {
    hide Encode, Overwrite, ProcessBytes;
    var path := process.devicePath;
    if path == [] {
      WriteBytes(a, entry, ProcessBytes(process.pid, process.parent, 0, 0));
      OverwriteNothing(a[..], stringDest);
    } else {
      WriteBytes(a, entry, ProcessBytes(process.pid, process.parent, stringOffset, |path| % USHORT_LIMIT));
      WriteBytes(a, stringDest, path);
    }
  }

  /** Packs a list of processes; an empty list is refused. */
  method PackageProcessInfo(processes: seq<ProcessInfo>) returns (result: Option<Buffer>)
    requires PackedLength(PROCESSES, Paths(processes)) < SIZE_T_LIMIT
    ensures result.None? <==> processes == []
    ensures result.Some? ==> Holds(result.value, processes)
  {
    hide EntryAt, Overwrite, Filled, Encode, ProcessBytes, Holds, Paths;
    if processes == [] {
      return None;
    }
    ghost var paths := Paths(processes);
    var stringBufferLength := 0;
    for i := 0 to |processes|
      invariant stringBufferLength == Offset(paths, i)
    {
      stringBufferLength := stringBufferLength + |processes[i].devicePath|;
    }
    var stringBuffer := EntryAt(PROCESSES, |processes|);
    var a := new Byte[stringBuffer + stringBufferLength](_ => 0);
    var entry, stringOffset := HEADER_SIZE, 0;
    EntryAtProduct(PROCESSES, 0);
    FilledNone(PROCESSES, a[..], paths);
    assert Table(processes, 0) == [];
    for i := 0 to |processes|
      invariant entry == EntryAt(PROCESSES, i) && stringOffset == Offset(paths, i)
      invariant Filled(PROCESSES, a[..], Table(processes, i), paths)
    {
      PackStep(a[..], processes, i);
      SerializeProcess(a, entry, stringBuffer + stringOffset, stringOffset, processes[i]);
      entry, stringOffset := entry + PROCESSES.entrySize, stringOffset + |processes[i].devicePath|;
    }
    FilledHeader(PROCESSES, a[..], Table(processes, |processes|), paths, HeaderBytes(|processes|, a.Length));
    WriteBytes(a, 0, HeaderBytes(|processes|, a.Length));
    FinishedHolds(a[..], processes);
    result := Some(a[..]);
  }

  lemma PackStep(b: Buffer, processes: seq<ProcessInfo>, i: nat)
    requires i < |processes| && Filled(PROCESSES, b, Table(processes, i), Paths(processes))
    ensures EntryAt(PROCESSES, i) + PROCESSES.entrySize == EntryAt(PROCESSES, i + 1)
            <= EntryAt(PROCESSES, |processes|)
    ensures EntryAt(PROCESSES, |processes|) + Offset(Paths(processes), i) + |processes[i].devicePath| <= |b|
    ensures |EntryFor(processes, i)| == PROCESSES.entrySize
    ensures var b' := Overwrite(Overwrite(b, EntryAt(PROCESSES, i), EntryFor(processes, i)),
                                EntryAt(PROCESSES, |processes|) + Offset(Paths(processes), i), processes[i].devicePath);
            Filled(PROCESSES, b', Table(processes, i + 1), Paths(processes))
  {
    hide EntryAt, Overwrite, Filled, Offset, ProcessBytes;
    EntryFits(PROCESSES, Paths(processes), i);
    FilledStep(PROCESSES, b, Table(processes, i), Paths(processes), EntryFor(processes, i));
    assert Table(processes, i + 1) == Table(processes, i) + [EntryFor(processes, i)];
  }

  // ----- Round trip -----

  /** What the driver loads from a packed list is the list: ids, parents and folded paths. */
  lemma ProcessRoundTrip(fold: CaseFolding, processes: seq<ProcessInfo>, b: Buffer, r: Registry)
    requires Holds(b, processes)
    requires forall i :: 0 <= i < |processes| ==> |processes[i].devicePath| < USHORT_LIMIT
    ensures WellFormed(PROCESSES, b) <==> exists i :: 0 <= i < |processes| && processes[i].devicePath != []
    ensures WellFormed(PROCESSES, b) && Loaded(fold, b, NumEntries(b), r) ==>
              && (forall i :: 0 <= i < |processes| ==>
                    && processes[i].pid in r
                    && r[processes[i].pid]
                       == FreshEntry(processes[i].parent, FoldName(fold, processes[i].devicePath), Off))
              && (forall p :: p in r ==> exists i :: 0 <= i < |processes| && processes[i].pid == p)
  {
    hide WellFormed, HoldsAt, Offset;
    var paths := Paths(processes);
    if i :| 0 <= i < |processes| && processes[i].devicePath != [] {
      assert paths[i] != [];
      SomePath(paths, i);
    } else {
      ConfigurationBuffers.NoStrings(paths, |processes|);
    }
    if WellFormed(PROCESSES, b) && Loaded(fold, b, NumEntries(b), r) {
      forall i | 0 <= i < |processes|
        ensures HasEntry(PROCESSES, b, i) && PidAt(b, i) == processes[i].pid
        ensures DiscoveredEntry(fold, b, i)
                == FreshEntry(processes[i].parent, FoldName(fold, processes[i].devicePath), Off)
      {
        LoadedBack(fold, processes, b, i);
      }
    }
  }

  lemma SomePath(paths: seq<Buffer>, i: nat)
    requires i < |paths| && paths[i] != []
    ensures Offset(paths, |paths|) > 0
  {
    OffsetMonotonic(paths, i + 1, |paths|);
  }

  lemma LoadedBack(fold: CaseFolding, processes: seq<ProcessInfo>, b: Buffer, i: nat)
    requires Holds(b, processes) && WellFormed(PROCESSES, b) && i < |processes|
    requires |processes[i].devicePath| < USHORT_LIMIT
    ensures HasEntry(PROCESSES, b, i) && PidAt(b, i) == processes[i].pid
    ensures DiscoveredEntry(fold, b, i) == FreshEntry(processes[i].parent, FoldName(fold, processes[i].devicePath), Off)
  {
    hide EntryAt, Word, StringInside, StringOf, WellFormed;
    assert HoldsAt(b, processes, i);
    var path := processes[i].devicePath;
    assert path[..|path| % USHORT_LIMIT] == path;
    assert StringOf(PROCESSES, b, i) == path;
  }

  /** The list has exactly the processes of the snapshot, each under its own id. */
  ghost predicate Lists(processes: seq<ProcessInfo>, snapshot: Snapshot) {
    && (forall i :: 0 <= i < |processes| ==>
          processes[i].pid in snapshot && snapshot[processes[i].pid] == processes[i])
    && (forall p :: p in snapshot ==> exists i :: 0 <= i < |processes| && processes[i].pid == p)
  }

  /** What user mode sends is what the driver asks for: whatever the processes of the system, the list
      that remains after clearing recycled parents is loaded as a forest. */
  lemma PayloadIsAdmissible(fold: CaseFolding, snapshot: Snapshot, cleared: Snapshot,
                            processes: seq<ProcessInfo>, b: Buffer, ok: bool, s: State)
    requires cleared.Keys == snapshot.Keys
    requires forall p :: p in snapshot ==> cleared[p] == Unrecycled(snapshot, snapshot[p])
    requires Lists(processes, cleared) && Holds(b, processes)
    requires forall i :: 0 <= i < |processes| ==> |processes[i].devicePath| < USHORT_LIMIT
    ensures DriverRuns.Admissible(fold, Serve(RegisterProcesses(b), ok), s)
  {
    hide WellFormed, Holds, Loaded, Acyclic;
    forall r | WellFormed(PROCESSES, b) && HoldsMany(b, processes) && Loaded(fold, b, NumEntries(b), r)
      ensures Acyclic(r)
    {
      ProcessRoundTrip(fold, processes, b, r);
      UnrecycledForest(snapshot, cleared, r);
    }
    HeldCount(b, processes);
  }

  ghost predicate HoldsMany(b: Buffer, processes: seq<ProcessInfo>) {
    |b| >= HEADER_SIZE && NumEntries(b) == |processes|
  }

  lemma HeldCount(b: Buffer, processes: seq<ProcessInfo>)
    requires Holds(b, processes)
    ensures HoldsMany(b, processes)
  {
  }
}
