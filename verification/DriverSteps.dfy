/**
 The driver as a state machine: its state between requests, and what each request, process
 arrival and process departure may do to it. Every fallible call may fail at any time.
 */
module DriverSteps {
  import opened SplitTypes
  import opened Ancestry
  import opened Propagation
  import opened Conservation
  import opened EventLog
  import opened AppFilters
  import opened Firewall
  import W = WireFormat

  // ----- State -----

  datatype Phase = Started | Initialized | Ready | Engaged | Zombie

  datatype Subsystem = Eventing | ProcessBroker | RegisteredImages | ProcessRegistry | FirewallContext | ProcessMgmt

  const ALL_SUBSYSTEMS := {Eventing, ProcessBroker, RegisteredImages, ProcessRegistry, FirewallContext, ProcessMgmt}

  /** All image sets that exist, by identity, and how many were ever created and torn down. */
  datatype ImagePool = ImagePool(live: map<nat, ImageSet>, created: nat, tornDown: nat) {
    function Create(images: ImageSet): ImagePool {
      ImagePool(live[created := images], created + 1, tornDown)
    }

    function TearDown(id: nat): ImagePool
      requires id in live
    {
      ImagePool(live - {id}, created, tornDown + 1)
    }
  }

  /** `leaked` counts the registrations in the firewall that departed processes left behind. */
  datatype State = State(
    phase: Phase,
    ips: IpAddresses,
    pool: ImagePool,
    instance: Option<nat>,
    registry: Registry,
    fw: FwView,
    log: Log,
    leaked: multiset<ImageName>,
    subsystems: set<Subsystem>
  )

  predicate HasInstance(s: State) {
    s.instance.Some? && s.instance.value in s.pool.live
  }

  /** The stored configuration. */
  function Configuration(s: State): ImageSet
    requires HasInstance(s)
  {
    s.pool.live[s.instance.value]
  }

  const INITIAL_STATE :=
    State(Started, NO_ADDRESSES, ImagePool(map[], 0, 0), None, map[], FW_OFF, [], multiset{}, {})

  // ----- Synchronization of the process registry -----

  ghost predicate SameButTargets(r: Registry, r': Registry) {
    r'.Keys == r.Keys && forall p :: p in r ==> r'[p] == r[p].(target := r'[p].target)
  }

  /** The registrations of an image in excess of the processes that account for them. */
  function Surplus(fw: FwView, r: Registry, image: ImageName): int {
    RefCount(fw.blocked, image) - Users(r, image)
  }

  /** The log grew by at most `most` error messages and by the announcements of all changes of settings. */
  ghost predicate Announced(s: State, s': State, most: nat) {
    s.registry.Keys == s'.registry.Keys && AnnouncedChanges(s.log, s'.log, s.registry, s'.registry, most)
  }

  /** All or nothing: either everything reflects the targets, or only unused targets have changed. A
      failure is reported by no more than one error message, and leaving behind the filters that force
      reauthorization by no more than two. */
  ghost predicate SyncStep(s: State, s': State, ok: bool, forceAleReauthorization: bool)
    requires HasInstance(s)
  {
    && s' == s.(registry := s'.registry, fw := s'.fw, log := s'.log)
    && if ok then
         && s'.registry == Synced(s.registry, Configuration(s))
         && Committed(s'.fw) && s'.fw.addresses == s.fw.addresses
         && (forall image :: Surplus(s'.fw, s'.registry, image) == Surplus(s.fw, s.registry, image))
         && Announced(s, s', if forceAleReauthorization then 2 else 0)
       else
         && SameButTargets(s.registry, s'.registry)
         && s'.fw == s.fw
         && Complains(s.log, s'.log, 1)
  }

  // ----- Entering and leaving the engaged state -----

  /** On failure, disabling splitting again may also fail and leave it enabled. */
  ghost predicate EngageStep(s: State, ips: IpAddresses, s': State, ok: bool)
    requires HasInstance(s)
  {
    if ok then
      && s.fw == FW_OFF && DetermineSplittingMode(ips).Some?
      && s'.phase == Engaged
      && SyncStep(s.(fw := FwView(Some(ips), []), phase := Engaged), s', true, false)
    else
      && s' == s.(registry := s'.registry, fw := s'.fw, log := s'.log)
      && SameButTargets(s.registry, s'.registry)
      && Complains(s.log, s'.log, 2)
      && (s'.fw == s.fw
          || (s.fw == FW_OFF && DetermineSplittingMode(ips).Some? && s'.fw == FwView(Some(ips), [])))
  }

  function Cleared(r: Registry): Registry {
    map p | p in r :: Entry(r[p].parent, r[p].image, SETTINGS_OFF, SETTINGS_OFF, r[p].settings)
  }

  ghost predicate LeaveStep(s: State, s': State, ok: bool) {
    if ok then
      && s' == s.(phase := Ready, registry := Cleared(s.registry), fw := FW_OFF, log := s'.log, leaked := multiset{})
      && Announced(s, s', 0)
    else
      s' == s.(log := s'.log) && Complains(s.log, s'.log, 1)
  }

  // ----- IOCTL_ST_INITIALIZE and IOCTL_ST_RESET -----

  /** A failed initialization has undone whatever it had done. */
  ghost predicate InitializeStep(s: State, s': State, ok: bool) {
    if ok then
      s' == State(Initialized, s.ips, s.pool.Create([]), Some(s.pool.created), map[], FW_OFF, [], multiset{},
                  ALL_SUBSYSTEMS)
    else
      && s' == s.(pool := s'.pool)
      && (s'.pool == s.pool || s'.pool == s.pool.Create([]).TearDown(s.pool.created))
  }

  function ResetState(s: State): State
    requires HasInstance(s)
  {
    INITIAL_STATE.(pool := s.pool.TearDown(s.instance.value))
  }

  /** Callouts that cannot be unregistered, or splitting that cannot be disabled, make a zombie. */
  ghost predicate ResetStep(s: State, s': State, ok: bool) {
    match s.phase
    case Started => ok && s' == s
    case Zombie => !ok && s' == s
    case _ =>
      if ok then
        && HasInstance(s) && s' == ResetState(s)
        && (s.phase != Engaged ==> s.fw.addresses.None?)
      else
        && s'.phase == Zombie
        && s'.subsystems == s.subsystems - {ProcessMgmt} - (if s'.fw.addresses.None? then {FirewallContext} else {})
        && var s1 := s'.(phase := s.phase, subsystems := s.subsystems);
           if s.phase == Engaged then LeaveStep(s, s1, false) || LeaveStep(s, s1.(phase := Ready), true)
           else s1 == s
  }

  // ----- IOCTL_ST_REGISTER_PROCESSES -----

  /** A non-empty name as the driver stores it. */
  function FoldName(fold: CaseFolding, name: ImageName): ImageName {
    if name == [] then [] else fold.lower(name)
  }

  function PidAt(b: W.Buffer, i: nat): Pid
    requires W.HasEntry(W.PROCESSES, b, i)
  {
    W.Word(b, W.EntryAt(W.PROCESSES, i), 8)
  }

  function ParentAt(b: W.Buffer, i: nat): Pid
    requires W.HasEntry(W.PROCESSES, b, i)
  {
    W.Word(b, W.EntryAt(W.PROCESSES, i) + 8, 8)
  }

  function DiscoveredEntry(fold: CaseFolding, b: W.Buffer, i: nat): Entry
    requires W.WellFormed(W.PROCESSES, b) && i < W.NumEntries(b)
  {
    FreshEntry(ParentAt(b, i), FoldName(fold, W.StringOf(W.PROCESSES, b, i)), Off)
  }

  /** The registry holds exactly the first `n` processes of the buffer, none of them twice. */
  ghost predicate Loaded(fold: CaseFolding, b: W.Buffer, n: nat, r: Registry)
    requires W.WellFormed(W.PROCESSES, b) && n <= W.NumEntries(b)
  {
    && (forall i, j :: 0 <= i < j < n ==> PidAt(b, i) != PidAt(b, j))
    && (forall i :: 0 <= i < n ==> PidAt(b, i) in r && r[PidAt(b, i)] == DiscoveredEntry(fold, b, i))
    && (forall p :: p in r ==> exists i :: 0 <= i < n && PidAt(b, i) == p)
  }

  ghost predicate RegisterProcessesStep(fold: CaseFolding, b: W.Buffer, s: State, s': State, ok: bool) {
    if ok then
      && W.WellFormed(W.PROCESSES, b) && Loaded(fold, b, W.NumEntries(b), s'.registry)
      && s' == s.(phase := Ready, registry := s'.registry)
    else
      s' == s.(registry := map[])
  }

  // ----- IOCTL_ST_REGISTER_IP_ADDRESSES -----

  ghost predicate RegisterIpAddressesStep(ips: IpAddresses, s: State, s': State, ok: bool)
    requires HasInstance(s)
  {
    match s.phase
    case Ready =>
      if Configuration(s) == [] || !VpnActive(ips) then ok && s' == s.(ips := ips)
      else if ok then s'.ips == ips && EngageStep(s, ips, s'.(ips := s.ips), true)
      else EngageStep(s, ips, s', false)
    case Engaged =>
      if !VpnActive(ips) then
        if ok then s'.ips == ips && LeaveStep(s, s'.(ips := s.ips), true) else LeaveStep(s, s', false)
      else if ok then
        && DetermineSplittingMode(ips).Some?
        && s' == s.(ips := ips, fw := FwView(Some(ips), Rebound(s.fw.blocked, ActiveTunnel(ips))))
      else
        s' == s.(log := s'.log) && Complains(s.log, s'.log, 1)
    case _ => false
  }

  // ----- IOCTL_ST_SET_CONFIGURATION and IOCTL_ST_CLEAR_CONFIGURATION -----

  datatype RawEntry = RawEntry(name: ImageName, flags: Flags)

  function FlagsAt(b: W.Buffer, i: nat): (flags: Flags)
    requires W.HasEntry(W.CONFIGURATION, b, i)
  {
    var at := W.EntryAt(W.CONFIGURATION, i) + 10;
    W.WordSizes();
    W.DecodeBound(b[at..at + 2]);
    W.Word(b, at, 2)
  }

  function ConfigurationEntry(b: W.Buffer, i: nat): RawEntry
    requires W.WellFormed(W.CONFIGURATION, b) && i < W.NumEntries(b)
  {
    RawEntry(W.StringOf(W.CONFIGURATION, b, i), FlagsAt(b, i))
  }

  /** registeredimage::FindEntry: a stored name that differs in case only. */
  predicate HasImage(fold: CaseFolding, images: ImageSet, name: ImageName) {
    exists i :: 0 <= i < |images| && fold.upper(images[i].name) == fold.upper(name)
  }

  /** registeredimage::AddEntry: duplicates are dropped, whatever their flags. */
  function AddImage(fold: CaseFolding, images: ImageSet, e: RawEntry): ImageSet {
    if HasImage(fold, images, e.name) then images
    else images + [ImageEntry(FoldName(fold, e.name), e.flags)]
  }

  /** The image set made from the first `n` entries of a buffer. */
  function ImagesOf(fold: CaseFolding, b: W.Buffer, n: nat): ImageSet
    requires W.WellFormed(W.CONFIGURATION, b) && n <= W.NumEntries(b)
  {
    if n == 0 then [] else AddImage(fold, ImagesOf(fold, b, n - 1), ConfigurationEntry(b, n - 1))
  }

  /** A new configuration replaces the old one, unless preparing or realizing it fails. */
  ghost predicate SetConfigurationStep(fold: CaseFolding, b: W.Buffer, s: State, s': State, ok: bool)
    requires HasInstance(s)
  {
    || (!ok && s' == s)
    || (!ok && s' == s.(pool := s.pool.Create([]).TearDown(s.pool.created)))
    || (&& W.WellFormed(W.CONFIGURATION, b) && W.NumEntries(b) > 0
        && ReplaceConfigurationStep(ImagesOf(fold, b, W.NumEntries(b)), s, s', ok))
  }

  ghost predicate ReplaceConfigurationStep(images: ImageSet, s: State, s': State, ok: bool)
    requires HasInstance(s)
  {
    var id, pool := s.pool.created, s.pool.Create(images);
    var s1 := s.(pool := pool, instance := Some(id));
    && s'.instance == (if ok then Some(id) else s.instance)
    && s'.pool == (if ok then pool.TearDown(s.instance.value) else pool.TearDown(id))
    && var s2 := s'.(pool := pool, instance := Some(id));
       match s.phase
       case Ready => if VpnActive(s.ips) then EngageStep(s1, s.ips, s2, ok) else ok && s2 == s1
       case Engaged => SyncStep(s1, s2, ok, true)
       case _ => false
  }

  function Emptied(s: State): State
    requires HasInstance(s)
  {
    s.(pool := s.pool.(live := s.pool.live[s.instance.value := []]))
  }

  ghost predicate ClearConfigurationStep(s: State, s': State, ok: bool)
    requires HasInstance(s)
  {
    if s.phase == Engaged then
      if ok then
        var s1 := s'.(pool := s.pool);
        LeaveStep(s, s1, true) && s' == Emptied(s1)
      else
        LeaveStep(s, s', false)
    else
      ok && s' == Emptied(s)
  }

  // ----- Arriving and departing processes -----

  /** The status that a process arrives with. */
  function StatusOnArrival(s: State, parent: Pid, image: ImageName): SplitStatus
    requires HasInstance(s)
  {
    if s.phase == Engaged then ArrivalStatus(s.registry, Configuration(s), parent, image) else Off
  }

  /** An event is due for every process that does not arrive as OFF, which includes hybrid ones. */
  function ArrivalEvents(p: Pid, image: ImageName, status: SplitStatus): Log {
    if status == Off then [] else [StartSplitting(p, Arriving(status != OnByInheritance), image)]
  }

  /** A failure to add an entry is reported, and also that its splitting cannot start. */
  function AddEntryErrorEvents(p: Pid, image: ImageName, emitSplittingEvent: bool): Log {
    if emitSplittingEvent then [ErrorMessage, StartSplittingError(p, image)] else [ErrorMessage]
  }

  /** ValidateCollision: the entry found is the process that is arriving. */
  predicate SameProcess(e: Entry, parent: Pid, image: ImageName) {
    e.parent == parent && e.image == image
  }

  /** `added` and `announced` tell whether the entry was added, and whether there was memory for
      the name in the event. `image` is the folded name. */
  predicate ArrivalStep(p: Pid, parent: Pid, image: ImageName, s: State, s': State, added: bool, announced: bool)
    requires HasInstance(s)
  {
    var status := StatusOnArrival(s, parent, image);
    var due := announced && status != Off;
    if added then
      && p !in s.registry
      && s' == s.(registry := s.registry[p := FreshEntry(parent, image, status)],
                  log := s.log + if due then ArrivalEvents(p, image, status) else [])
    else
      || s' == s
      || (&& !(p in s.registry && SameProcess(s.registry[p], parent, image))
          && s' == s.(log := s.log + AddEntryErrorEvents(p, image, due)))
  }

  /** `released` tells whether the firewall could be told about the departure. */
  ghost predicate DepartureStep(p: Pid, s: State, s': State, released: bool) {
    if p !in s.registry then s' == s
    else
      var e := s.registry[p];
      var gone := s.(registry := Removed(s.registry, p));
      if e.settings.hasFirewallState then
        if released then
          && IndexOf(s.fw.blocked, e.image) < |s.fw.blocked|
          && s' == gone.(fw := s.fw.(blocked := Unregistered(s.fw.blocked, e.image)),
                         log := s.log + [StopSplitting(p, Departing, e.image)])
        else
          && s' == gone.(log := s'.log, leaked := s.leaked + multiset{e.image})
          && s'.log != [] && s'.log[|s'.log| - 1] == StopSplittingError(p, e.image)
          && Complains(s.log, s'.log[..|s'.log| - 1], 1)
      else if SplittingEnabled(e.settings.split) then
        s' == gone.(log := s.log + [StopSplitting(p, Departing, e.image)])
      else
        s' == gone
  }

  // ----- The dispatcher -----

  datatype Request =
    | Initialize
    | RegisterProcesses(buffer: W.Buffer)
    | RegisterIpAddresses(ips: IpAddresses)
    | SetConfiguration(buffer: W.Buffer)
    | ClearConfiguration
    | Query
    | Reset

  /** Which requests are served in which state. */
  predicate Served(phase: Phase, request: Request) {
    match request
    case Initialize => phase == Started
    case RegisterProcesses(_) => phase == Initialized
    case Reset => true
    case _ => phase == Ready || phase == Engaged
  }

  ghost predicate RequestStep(fold: CaseFolding, request: Request, s: State, s': State, ok: bool) {
    if !Served(s.phase, request) then !ok && s' == s
    else
      match request
      case Initialize => InitializeStep(s, s', ok)
      case RegisterProcesses(b) => RegisterProcessesStep(fold, b, s, s', ok)
      case RegisterIpAddresses(ips) => HasInstance(s) && RegisterIpAddressesStep(ips, s, s', ok)
      case SetConfiguration(b) => HasInstance(s) && SetConfigurationStep(fold, b, s, s', ok)
      case ClearConfiguration => HasInstance(s) && ClearConfigurationStep(s, s', ok)
      case Query => s' == s
      case Reset => ResetStep(s, s', ok)
  }

  /** Processes come and go once the registry is loaded, and until process management is torn down. What
      the driver ignores are requests that are too large, and process events at any other time. */
  datatype Step =
    | Serve(request: Request, ok: bool)
    | Arrive(pid: Pid, parent: Pid, image: ImageName, added: bool, announced: bool)
    | Depart(pid: Pid, released: bool)
    | Ignore

  ghost predicate Next(fold: CaseFolding, step: Step, s: State, s': State) {
    match step
    case Serve(request, ok) => RequestStep(fold, request, s, s', ok)
    case Arrive(p, parent, image, added, announced) =>
      (s.phase == Ready || s.phase == Engaged) && HasInstance(s)
      && ArrivalStep(p, parent, image, s, s', added, announced)
    case Depart(p, released) =>
      (s.phase == Ready || s.phase == Engaged) && DepartureStep(p, s, s', released)
    case Ignore => s' == s
  }
}
