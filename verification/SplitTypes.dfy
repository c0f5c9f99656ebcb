/** The driver's plain data: names, split settings, registry entries, addresses and events. */
module SplitTypes {

  datatype Option<+T> = None | Some(value: T)

  type Byte = b: int | 0 <= b < 256

  /** A device path as the bytes of its UTF-16 code units. */
  type ImageName = seq<Byte>

  type Pid = nat

  /** A parent id of zero means that there is no parent. */
  const NO_PROCESS: Pid := 0

  // ----- Split settings -----

  datatype SplitStatus = OnByConfig | OnByInheritance | Off | HybridByConfig

  predicate SplittingEnabled(status: SplitStatus) {
    status == OnByConfig || status == OnByInheritance
  }

  predicate HybridEnabled(status: SplitStatus) {
    status == HybridByConfig
  }

  datatype Settings = Settings(split: SplitStatus, hasFirewallState: bool)

  const SETTINGS_OFF := Settings(Off, false)

  // ----- Process registry -----

  datatype Entry = Entry(
    parent: Pid,
    image: ImageName,
    settings: Settings,
    target: Settings,
    previous: Settings
  )

  /** The process registry, keyed by process id. */
  type Registry = map<Pid, Entry>

  /** What InitializeEntry makes of a process with the given (lower-case) image. */
  function FreshEntry(parent: Pid, image: ImageName, split: SplitStatus): Entry {
    Entry(parent, image, Settings(split, false), SETTINGS_OFF, SETTINGS_OFF)
  }

  // ----- Registered images (the stored configuration) -----

  type Flags = f: int | 0 <= f < 0x1_0000

  /** ST_CONFIGURATION_ENTRY_FLAG_HYBRID is the lowest bit of the flags. */
  predicate IsHybrid(flags: Flags) {
    flags % 2 == 1
  }

  /** The system's character tables: names are stored in lower case, but compared in upper case when
      a caller's spelling is looked up. */
  datatype CaseFolding = CaseFolding(lower: ImageName -> ImageName, upper: ImageName -> ImageName)

  datatype ImageEntry = ImageEntry(name: ImageName, flags: Flags)

  /** A set of registered images, in insertion order. */
  type ImageSet = seq<ImageEntry>

  /** The flags stored with a name, found by scanning from the head of the list. */
  function Lookup(images: ImageSet, name: ImageName): (flags: Option<Flags>)
    ensures flags.Some? ==> ImageEntry(name, flags.value) in images
    ensures flags.None? ==> forall i :: 0 <= i < |images| ==> images[i].name != name
  {
    LookupFrom(images, name, 0)
  }

  function LookupFrom(images: ImageSet, name: ImageName, start: nat): (flags: Option<Flags>)
    requires start <= |images|
    ensures flags.Some? ==> ImageEntry(name, flags.value) in images
    ensures flags.None? ==> forall i :: start <= i < |images| ==> images[i].name != name
    decreases |images| - start
  {
    if start == |images| then None
    else if images[start].name == name then Some(images[start].flags)
    else LookupFrom(images, name, start + 1)
  }

  // ----- IP addresses -----

  type Ipv4 = a: seq<Byte> | |a| == 4 witness [0, 0, 0, 0]
  type Ipv6 = a: seq<Byte> | |a| == 16 witness seq(16, _ => 0)

  datatype IpAddresses = IpAddresses(
    tunnelV4: Ipv4,
    internetV4: Ipv4,
    tunnelV6: Ipv6,
    internetV6: Ipv6
  )

  const IPV4_ANY: Ipv4 := [0, 0, 0, 0]
  const IPV6_ANY: Ipv6 := [0, 0, 0, 0, 0, 0, 0, 0, 0, 0, 0, 0, 0, 0, 0, 0]
  const NO_ADDRESSES := IpAddresses(IPV4_ANY, IPV4_ANY, IPV6_ANY, IPV6_ANY)

  /** An address is usable when some byte of it is non-zero. */
  predicate IsSet(address: seq<Byte>): (usable: bool)
    ensures usable <==> address != seq(|address|, _ => 0)
  {
    exists i :: 0 <= i < |address| && address[i] != 0
  }

  predicate VpnActive(ips: IpAddresses) {
    IsSet(ips.tunnelV4) || IsSet(ips.tunnelV6)
  }

  // ----- Events for user mode -----

  datatype Reason = ByConfig | Arriving(byConfig: bool) | Departing

  datatype Event =
    | StartSplitting(pid: Pid, reason: Reason, image: ImageName)
    | StopSplitting(pid: Pid, reason: Reason, image: ImageName)
    | StartSplittingError(pid: Pid, image: ImageName)
    | StopSplittingError(pid: Pid, image: ImageName)
    | ErrorMessage
}
