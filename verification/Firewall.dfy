/**
 The firewall subsystem: splitting mode, WFP transactions and process-specific filters. Each operation
 also reports how many error messages it has sent to user mode, in `errors`.
 */
module Firewall {
  import opened SplitTypes
  import opened WfpEngine
  import opened AppFilters

  // ----- Splitting modes -----

  /** The mode number for the addresses at hand, if they allow any splitting at all. */
  function DetermineSplittingMode(ips: IpAddresses): Option<int> {
    var internetV4, tunnelV4 := IsSet(ips.internetV4), IsSet(ips.tunnelV4);
    var internetV6, tunnelV6 := IsSet(ips.internetV6), IsSet(ips.tunnelV6);
    if internetV4 && tunnelV4 && internetV6 && tunnelV6 then Some(1)
    else if internetV4 && tunnelV4 && !internetV6 && !tunnelV6 then Some(2)
    else if internetV4 && tunnelV4 && internetV6 && !tunnelV6 then Some(3)
    else if internetV4 && tunnelV4 && !internetV6 && tunnelV6 then Some(4)
    else if !internetV4 && !tunnelV4 && internetV6 && tunnelV6 then Some(5)
    else if internetV4 && !tunnelV4 && internetV6 && tunnelV6 then Some(6)
    else if !internetV4 && tunnelV4 && internetV6 && tunnelV6 then Some(7)
    else if !internetV4 && tunnelV4 && internetV6 && !tunnelV6 then Some(8)
    else if internetV4 && !tunnelV4 && !internetV6 && tunnelV6 then Some(9)
    else None
  }

  /** The tunnel addresses that a mode makes use of. */
  function SelectTunnelAddresses(ips: IpAddresses, mode: int): Option<TunnelAddresses> {
    if mode in {1, 4, 7} then Some(TunnelAddresses(Some(ips.tunnelV4), Some(ips.tunnelV6)))
    else if mode in {2, 3, 8} then Some(TunnelAddresses(Some(ips.tunnelV4), None))
    else if mode in {5, 6, 9} then Some(TunnelAddresses(None, Some(ips.tunnelV6)))
    else None
  }

  const NO_FAMILY_FILTERS_V4: FamilyFilters<Ipv4> := FamilyFilters(false, false, None, None)
  const NO_FAMILY_FILTERS_V6: FamilyFilters<Ipv6> := FamilyFilters(false, false, None, None)

  /** RegisterFiltersForModeTx: the filters that go with a mode. */
  function FiltersForMode(ips: IpAddresses, mode: int): Option<GenericFilters> {
    var excludeV4 := FamilyFilters(true, true, Some(Some(ips.tunnelV4)), Some(ips.tunnelV4));
    var excludeV6 := FamilyFilters(true, true, Some(Some(ips.tunnelV6)), Some(ips.tunnelV6));
    var permitV4, permitV6 := NO_FAMILY_FILTERS_V4.(permitNonTunnel := Some(None)),
                              NO_FAMILY_FILTERS_V6.(permitNonTunnel := Some(None));
    var blockV4, blockV6 := NO_FAMILY_FILTERS_V4.(blockTunnel := Some(ips.tunnelV4)),
                            NO_FAMILY_FILTERS_V6.(blockTunnel := Some(ips.tunnelV6));
    if mode == 1 then Some(GenericFilters(excludeV4, excludeV6))
    else if mode == 2 then Some(GenericFilters(excludeV4, NO_FAMILY_FILTERS_V6))
    else if mode == 3 then Some(GenericFilters(excludeV4, permitV6))
    else if mode == 4 then Some(GenericFilters(excludeV4, blockV6))
    else if mode == 5 then Some(GenericFilters(NO_FAMILY_FILTERS_V4, excludeV6))
    else if mode == 6 then Some(GenericFilters(permitV4, excludeV6))
    else if mode == 7 then Some(GenericFilters(blockV4, excludeV6))
    else if mode == 8 then Some(GenericFilters(blockV4, permitV6))
    else if mode == 9 then Some(GenericFilters(permitV4, blockV6))
    else None
  }

  /** The filters that one address family needs, whatever the other one has. */
  function FiltersFor<A(==)>(internet: seq<Byte>, tunnel: seq<Byte>, address: A): FamilyFilters<A> {
    var redirect := IsSet(internet) && IsSet(tunnel);
    var tunnelAddress := if IsSet(tunnel) then Some(address) else None;
    FamilyFilters(redirect, redirect, if IsSet(internet) then Some(tunnelAddress) else None, tunnelAddress)
  }

  /** Traffic is redirected in a family with both addresses, blocked on a tunnel address and permitted
      outside of it given an internet address: nine modes, but one rule for each family. */
  lemma ModeFilters(ips: IpAddresses)
    requires DetermineSplittingMode(ips).Some?
    ensures FiltersForMode(ips, DetermineSplittingMode(ips).value)
            == Some(GenericFilters(FiltersFor(ips.internetV4, ips.tunnelV4, ips.tunnelV4),
                                   FiltersFor(ips.internetV6, ips.tunnelV6, ips.tunnelV6)))
  {
  }

  /** The tunnel addresses that are set. */
  function ActiveTunnel(ips: IpAddresses): TunnelAddresses {
    TunnelAddresses(if IsSet(ips.tunnelV4) then Some(ips.tunnelV4) else None,
                    if IsSet(ips.tunnelV6) then Some(ips.tunnelV6) else None)
  }

  /** Splitting needs an active tunnel and an internet connection, and nothing else. */
  lemma ModeExists(ips: IpAddresses)
    ensures DetermineSplittingMode(ips).Some?
            <==> VpnActive(ips) && (IsSet(ips.internetV4) || IsSet(ips.internetV6))
  {
  }

  /** Whatever the mode, the addresses it selects are those that are set. There is at least one. */
  lemma ModeSelectsActiveTunnel(ips: IpAddresses)
    requires DetermineSplittingMode(ips).Some?
    ensures SelectTunnelAddresses(ips, DetermineSplittingMode(ips).value) == Some(ActiveTunnel(ips))
    ensures ActiveTunnel(ips) != TunnelAddresses(None, None)
  {
  }

  // ----- The subsystem -----

  /** The committed state: the addresses that splitting is enabled for, and the blocked images. */
  datatype FwView = FwView(addresses: Option<IpAddresses>, blocked: BlockList)

  const FW_OFF := FwView(None, [])

  /** What every committed state satisfies. */
  ghost predicate Committed(fw: FwView) {
    && WellFormed(fw.blocked)
    && match fw.addresses
       case None => fw.blocked == []
       case Some(ips) => DetermineSplittingMode(ips).Some? && AllBoundTo(fw.blocked, ActiveTunnel(ips))
  }

  class Firewall {
    const wfp: Engine
    const app: AppFilters
    var splittingEnabled: bool
    var transactionActive: bool
    var ips: IpAddresses
    var mode: int

    /** What WFP has to hold in order to agree with the list of blocked images. */
    ghost predicate Agrees(filters: Filters, blocked: BlockList)
      reads this
    {
      && Mirrors(blocked, filters.blocks)
      && filters.generic == (if splittingEnabled then FiltersForMode(ips, mode) else None)
      && (splittingEnabled ==> AllBoundTo(blocked, ActiveTunnel(ips)))
    }

    /** The changes of the transaction so far are complete, both in WFP and in the list. */
    ghost predicate Clean()
      reads this, wfp, app
    {
      Agrees(wfp.filters, app.blocked)
    }

    ghost predicate Valid()
      reads this, wfp, app
    {
      && app.wfp == wfp && app.Valid()
      && wfp.open == transactionActive
      && (splittingEnabled ==> DetermineSplittingMode(ips) == Some(mode))
      && (!splittingEnabled ==> !transactionActive && app.blocked == [])
      && (transactionActive ==> Agrees(wfp.saved, app.Base()))
      && (!transactionActive ==> app.records == [] && Clean())
    }

    ghost predicate Idle()
      reads this, wfp, app
    {
      Valid() && !transactionActive
    }

    /** The committed state; a transaction in progress does not show. */
    ghost function View(): FwView
      reads this, app
    {
      FwView(if splittingEnabled then Some(ips) else None, app.Base())
    }

    constructor (meter: Meter)
      ensures Idle() && View() == FW_OFF && wfp.meter == meter
      ensures fresh(wfp) && fresh(app)
    {
      var engine := new Engine(meter);
      wfp := engine;
      app := new AppFilters(engine);
      splittingEnabled, transactionActive := false, false;
      ips, mode := NO_ADDRESSES, 0;
    }

    /** While splitting is enabled, WFP has the filters that both address families need, and those that
        the list of blocked images accounts for. */
    lemma FiltersInstalled()
      requires Idle() && splittingEnabled
      ensures wfp.filters.generic == Some(GenericFilters(FiltersFor(ips.internetV4, ips.tunnelV4, ips.tunnelV4),
                                                         FiltersFor(ips.internetV6, ips.tunnelV6, ips.tunnelV6)))
      ensures Mirrors(app.blocked, wfp.filters.blocks)
    {
      ModeFilters(ips);
    }

    lemma ViewCommitted()
      requires Idle()
      ensures Committed(View())
    {
    }

    /** WfpTransactionBegin: a failure is reported to user mode. */
    method WfpTransactionBegin() returns (ok: bool, errors: nat)
      requires !wfp.open
      modifies wfp, wfp.meter
      ensures wfp.open == ok && wfp.filters == old(wfp.filters)
      ensures ok ==> wfp.saved == wfp.filters && wfp.savedDummies == wfp.dummies
      ensures wfp.reauthorizations == old(wfp.reauthorizations) && wfp.dummies == old(wfp.dummies)
      ensures errors == wfp.meter.due - old(wfp.meter.due) == if ok then 0 else 1
      ensures wfp.meter.faults == old(wfp.meter.faults) + if ok then 0 else 1
    {
      ok := wfp.Begin();
      errors := if ok then 0 else 1;
    }

    method WfpTransactionCommit() returns (ok: bool, errors: nat)
      requires wfp.open
      modifies wfp, wfp.meter
      ensures wfp.open == !ok && wfp.filters == old(wfp.filters) && wfp.saved == old(wfp.saved)
      ensures wfp.dummies == old(wfp.dummies) && wfp.savedDummies == old(wfp.savedDummies)
      ensures wfp.reauthorizations == old(wfp.reauthorizations)
                                      + if ok && wfp.dummies > wfp.savedDummies then 1 else 0
      ensures errors == if ok then 0 else 1
      ensures wfp.meter.due == old(wfp.meter.due) + if ok then wfp.dummies - wfp.savedDummies else 1
      ensures wfp.meter.faults == old(wfp.meter.faults) + if ok then 0 else 1
    {
      ok := wfp.Commit();
      errors := if ok then 0 else 1;
    }

    method EnableSplitting(addresses: IpAddresses) returns (ok: bool, errors: nat)
      requires Idle()
      modifies this, wfp, wfp.meter
      ensures Idle()
      ensures errors <= if ok then 0 else 1
      ensures errors == wfp.meter.due - old(wfp.meter.due)
      ensures wfp.meter.faults >= old(wfp.meter.faults)
                                  + if ok || old(splittingEnabled) || DetermineSplittingMode(addresses).None? then 0
                                    else 1
      ensures ok ==> old(View()) == FW_OFF && DetermineSplittingMode(addresses).Some?
      ensures View() == if ok then FwView(Some(addresses), []) else old(View())
    {
      if splittingEnabled || transactionActive {
        return false, 0;
      }
      ips := addresses;
      var determined := DetermineSplittingMode(ips);
      if determined == None {
        return false, 0;
      }
      mode := determined.value;
      ok, errors := WfpTransactionBegin();
      if !ok {
        return;
      }
      ok := wfp.SetGenericFilters(FiltersForMode(ips, mode));
      if ok {
        ok, errors := WfpTransactionCommit();
      }
      if ok {
        splittingEnabled := true;
      } else {
        wfp.Abort();
      }
    }

    method TransactionBegin() returns (ok: bool, errors: nat)
      requires Idle()
      modifies this, wfp, wfp.meter
      ensures errors <= if ok then 0 else 1
      ensures errors == wfp.meter.due - old(wfp.meter.due)
      ensures wfp.meter.faults >= old(wfp.meter.faults) + if ok || !old(splittingEnabled) then 0 else 1
      ensures Valid() && transactionActive == ok
      ensures View() == old(View()) && app.blocked == View().blocked
      ensures ok ==> Clean() && splittingEnabled && wfp.savedDummies == wfp.dummies
      ensures wfp.reauthorizations == old(wfp.reauthorizations)
    {
      if !splittingEnabled {
        return false, 0;
      }
      ok, errors := WfpTransactionBegin();
      if !ok {
        return;
      }
      ok := app.TransactionBegin();
      transactionActive := ok;
    }

    /** Removes the dummy filters again, in a transaction of its own. */
    method RemoveAleReauthorizationFilters() returns (ok: bool, errors: nat)
      requires !wfp.open && wfp.dummies > 0
      modifies wfp, wfp.meter
      ensures !wfp.open && wfp.filters == old(wfp.filters) && wfp.reauthorizations == old(wfp.reauthorizations)
      ensures wfp.dummies == old(wfp.dummies) - if ok then 1 else 0
      ensures errors <= if ok then 0 else 1
      ensures wfp.meter.due == old(wfp.meter.due) + errors - if ok then 1 else 0
      ensures wfp.meter.faults >= old(wfp.meter.faults) + if ok then 0 else 1
    {
      ok, errors := WfpTransactionBegin();
      if !ok {
        return;
      }
      ok := wfp.RemoveDummyFilters();
      if ok {
        ok, errors := WfpTransactionCommit();
      }
      if !ok {
        wfp.Abort();
      }
    }

    /** Commits to WFP and forgets the undo records. With `forceAleReauthorization`, dummy filters
        are added before and removed after that, so that all connections are authorized anew. Only adding
        them can make the commit fail. */
    method TransactionCommit(forceAleReauthorization: bool := false) returns (ok: bool, errors: nat)
      requires Valid() && transactionActive && wfp.savedDummies == wfp.dummies
      modifies this`transactionActive, wfp, wfp.meter, app`records
      ensures errors <= if !ok then 1 else if forceAleReauthorization then 2 else 0
      ensures errors == wfp.meter.due - old(wfp.meter.due)
      ensures wfp.meter.faults >= old(wfp.meter.faults) + if ok then 0 else 1
      ensures ok ==>
                wfp.reauthorizations == old(wfp.reauthorizations) + if forceAleReauthorization then 1 else 0
      ensures transactionActive == wfp.open == !ok
      ensures wfp.filters == old(wfp.filters)
      ensures ok ==> app.records == []
      ensures !ok ==> Valid() && View() == old(View())
      ensures ok && old(Clean()) ==> Idle() && View() == old(View()).(blocked := app.blocked)
    {
      errors := 0;
      if forceAleReauthorization {
        ok := wfp.AddDummyFilters();
        if !ok {
          return;
        }
      }
      ok, errors := WfpTransactionCommit();
      if !ok {
        return;
      }
      app.TransactionCommit();
      transactionActive := false;
      if forceAleReauthorization {
        var removed;
        removed, errors := RemoveAleReauthorizationFilters();
        if !removed {
          errors := errors + 1;
        }
      }
    }

    method TransactionAbort()
      requires Valid() && transactionActive
      modifies this`transactionActive, wfp, app
      ensures Idle() && View() == old(View())
    {
      wfp.Abort();
      app.TransactionAbort();
      transactionActive := false;
    }

    method DisableSplitting() returns (ok: bool, errors: nat)
      requires Idle()
      modifies this, wfp, wfp.meter, app
      ensures Idle()
      ensures errors <= if ok then 0 else 1
      ensures errors == wfp.meter.due - old(wfp.meter.due)
      ensures wfp.meter.faults >= old(wfp.meter.faults) + if ok || !old(splittingEnabled) then 0 else 1
      ensures View() == if ok then FW_OFF else old(View())
    {
      hide WellFormed, AllBoundTo, DetermineSplittingMode, ActiveTunnel, Undo;
      if !splittingEnabled {
        return false, 0;
      }
      ok, errors := TransactionBegin();
      if !ok {
        return;
      }
      ok := wfp.SetGenericFilters(None);
      if ok {
        ok := app.Reset();
      }
      if ok {
        ok, errors := TransactionCommit();
      }
      if !ok {
        TransactionAbort();
        return;
      }
      splittingEnabled := false;
    }

    /** Moves every filter to new addresses, all at once. */
    method RegisterUpdatedIpAddresses(addresses: IpAddresses) returns (ok: bool, errors: nat)
      requires Idle()
      modifies this, wfp, wfp.meter, app
      ensures Idle()
      ensures errors <= if ok then 0 else 1
      ensures errors == wfp.meter.due - old(wfp.meter.due)
      ensures wfp.meter.faults >= old(wfp.meter.faults) + if ok || DetermineSplittingMode(addresses).None? then 0 else 1
      ensures !ok ==> View() == old(View())
      ensures ok && old(splittingEnabled) ==>
                && DetermineSplittingMode(addresses).Some?
                && View() == FwView(Some(addresses), Rebound(old(View()).blocked, ActiveTunnel(addresses)))
      ensures ok && !old(splittingEnabled) ==> View() == old(View())
    {
      hide WellFormed, Mirrors, DetermineSplittingMode, SelectTunnelAddresses, ActiveTunnel, FiltersForMode;
      if !splittingEnabled {
        return true, 0;
      }
      var newMode := DetermineSplittingMode(addresses);
      if newMode == None {
        return false, 0;
      }
      ok, errors := TransactionBegin();
      if !ok {
        return;
      }
      ok := wfp.SetGenericFilters(None);
      if ok {
        ok := wfp.SetGenericFilters(FiltersForMode(addresses, newMode.value));
      }
      if ok {
        var tunnel := SelectTunnelAddresses(addresses, newMode.value);
        ModeSelectsActiveTunnel(addresses);
        if tunnel == None {
          ok := false;
        } else {
          ok := app.UpdateFilters(tunnel.value);
        }
      }
      if ok {
        ok, errors := TransactionCommit();
      }
      if !ok {
        TransactionAbort();
        return;
      }
      ips, mode := addresses, newMode.value;
    }

    method RegisterAppBecomingSplit(image: ImageName) returns (ok: bool)
      requires Valid() && transactionActive && Clean()
      modifies wfp`filters, wfp.meter`faults, app
      ensures Valid() && View() == old(View())
      ensures ok ==> Clean() && app.blocked == Registered(old(app.blocked), image, ActiveTunnel(ips))
      ensures wfp.meter.faults >= old(wfp.meter.faults) + if ok then 0 else 1
    {
      var tunnel := SelectTunnelAddresses(ips, mode);
      ModeSelectsActiveTunnel(ips);
      if tunnel == None {
        return false;
      }
      ok := app.RegisterFilterBlockAppTunnelTraffic(image, tunnel.value);
      RegisteredWellFormed(old(app.blocked), image, ActiveTunnel(ips));
    }

    method RegisterAppBecomingUnsplit(image: ImageName) returns (ok: bool)
      requires Valid() && transactionActive && Clean()
      modifies wfp`filters, wfp.meter`faults, app
      ensures Valid() && View() == old(View())
      ensures ok ==> IndexOf(old(app.blocked), image) < |old(app.blocked)|
      ensures ok ==> Clean() && app.blocked == Unregistered(old(app.blocked), image)
      ensures wfp.meter.faults >= old(wfp.meter.faults)
                                  + if ok || IndexOf(old(app.blocked), image) == |old(app.blocked)| then 0 else 1
    {
      ok := app.RemoveFilterBlockAppTunnelTraffic(image);
      if ok {
        UnregisteredWellFormed(old(app.blocked), image, ActiveTunnel(ips));
      }
    }

    /** Refuses while splitting is enabled. Otherwise the subsystem is gone, but its callouts may
        turn out to be impossible to unregister. */
    method TearDown() returns (ok: bool)
      requires Idle()
      modifies wfp.meter`faults
      ensures Idle() && wfp.meter.faults == old(wfp.meter.faults) + if ok || splittingEnabled then 0 else 1
      ensures ok ==> !splittingEnabled
      ensures !splittingEnabled ==> View() == FW_OFF
    {
      if splittingEnabled {
        return false;
      }
      ok := wfp.meter.Attempt();
    }
  }
}
