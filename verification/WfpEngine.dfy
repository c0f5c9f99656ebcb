/** The Windows Filtering Platform as the driver sees it: a transactional store of filters. */
module WfpEngine {
  import opened SplitTypes

  /** The tunnel addresses that the blocking filters of one image are conditioned on. */
  datatype TunnelAddresses = TunnelAddresses(v4: Option<Ipv4>, v6: Option<Ipv6>)

  /** The filters of one address family. Permitting traffic outside the tunnel can be conditioned on the
      tunnel's address, if there is one. */
  datatype FamilyFilters<A> = FamilyFilters(
    bindRedirect: bool,
    connectRedirect: bool,
    permitNonTunnel: Option<Option<A>>,
    blockTunnel: Option<A>
  )

  datatype GenericFilters = GenericFilters(v4: FamilyFilters<Ipv4>, v6: FamilyFilters<Ipv6>)

  /** `generic` are the filters of a splitting mode, and `blocks` those of single images. */
  datatype Filters = Filters(generic: Option<GenericFilters>, blocks: map<ImageName, TunnelAddresses>)

  const NO_FILTERS := Filters(None, map[])

  /** Counts the calls that fail. An operation that does not achieve what it is asked for has to show for
      it that the count has grown. */
  class Meter {
    ghost var faults: nat

    /** How many error messages are called for: one for each failed attempt to begin or commit a transaction,
        and one for each set of dummy filters that is left behind. */
    ghost var due: int

    constructor ()
      ensures faults == 0 && due == 0
    {
      faults, due := 0, 0;
    }

    /** A call whose outcome is not up to the driver, here and wherever else memory or WFP is involved. */
    method Attempt() returns (ok: bool)
      modifies this`faults
      ensures faults == old(faults) + if ok then 0 else 1
    {
      ok := *;
      if !ok {
        faults := faults + 1;
      }
    }
  }

  /** A WFP session. Every call except Abort may fail. A call that fails inside a transaction may
      leave any filters behind; only aborting the transaction brings back the saved ones. */
  class Engine {
    var filters: Filters
    var saved: Filters
    var open: bool
    const meter: Meter

    /** Dummy filters match no traffic, and are no part of `filters`. They come in sets of one for each
        direction and address family. */
    var dummies: nat
    var savedDummies: nat

    /** How often a commit has put dummy filters in place, and so made WFP authorize all connections anew. */
    ghost var reauthorizations: nat

    constructor (meter: Meter)
      ensures filters == NO_FILTERS && !open && this.meter == meter
    {
      filters, saved, open := NO_FILTERS, NO_FILTERS, false;
      dummies, savedDummies := 0, 0;
      this.meter := meter;
    }

    method Begin() returns (ok: bool)
      requires !open
      modifies this, meter
      ensures open == ok
      ensures filters == old(filters)
      ensures ok ==> saved == filters && savedDummies == dummies
      ensures reauthorizations == old(reauthorizations) && dummies == old(dummies)
      ensures meter.due == old(meter.due) + if ok then 0 else 1
      ensures meter.faults == old(meter.faults) + if ok then 0 else 1
    {
      ok := meter.Attempt();
      if ok {
        saved, savedDummies, open := filters, dummies, true;
      } else {
        meter.due := meter.due + 1;
      }
    }

    method Commit() returns (ok: bool)
      requires open
      modifies this, meter
      ensures open == !ok
      ensures filters == old(filters) && saved == old(saved)
      ensures dummies == old(dummies) && savedDummies == old(savedDummies)
      ensures reauthorizations == old(reauthorizations) + if ok && dummies > savedDummies then 1 else 0
      ensures meter.due == old(meter.due) + if ok then dummies - savedDummies else 1
      ensures meter.faults == old(meter.faults) + if ok then 0 else 1
    {
      ok := meter.Attempt();
      open := !ok;
      if ok && dummies > savedDummies {
        reauthorizations := reauthorizations + 1;
      }
      meter.due := meter.due + if ok then dummies - savedDummies else 1;
    }

    method Abort()
      requires open
      modifies this`filters, this`dummies, this`open
      ensures !open && filters == old(saved) && dummies == old(savedDummies)
    {
      filters, dummies, open := saved, savedDummies, false;
    }

    method AddDummyFilters() returns (ok: bool)
      requires open
      modifies this`dummies, meter`faults
      ensures ok ==> dummies == old(dummies) + 1
      ensures meter.faults == old(meter.faults) + if ok then 0 else 1
    {
      ok := meter.Attempt();
      if ok {
        dummies := dummies + 1;
      } else {
        dummies := *;
      }
    }

    method RemoveDummyFilters() returns (ok: bool)
      requires open && dummies > 0
      modifies this`dummies, meter`faults
      ensures ok ==> dummies == old(dummies) - 1
      ensures meter.faults == old(meter.faults) + if ok then 0 else 1
    {
      ok := meter.Attempt();
      if ok {
        dummies := dummies - 1;
      } else {
        dummies := *;
      }
    }

    /** Adds the inbound and outbound blocking filters of an image. */
    method AddBlockFilters(image: ImageName, addresses: TunnelAddresses) returns (ok: bool)
      requires open
      modifies this`filters, meter`faults
      ensures ok ==> filters == old(filters).(blocks := old(filters).blocks[image := addresses])
      ensures meter.faults == old(meter.faults) + if ok then 0 else 1
    {
      ok := meter.Attempt();
      if ok {
        filters := filters.(blocks := filters.blocks[image := addresses]);
      } else {
        filters := *;
      }
    }

    method RemoveBlockFilters(image: ImageName) returns (ok: bool)
      requires open
      modifies this`filters, meter`faults
      ensures ok ==> filters == old(filters).(blocks := old(filters).blocks - {image})
      ensures meter.faults == old(meter.faults) + if ok then 0 else 1
    {
      ok := meter.Attempt();
      if ok {
        filters := filters.(blocks := filters.blocks - {image});
      } else {
        filters := *;
      }
    }

    /** Installs the filters of a splitting mode, or removes them. */
    method SetGenericFilters(generic: Option<GenericFilters>) returns (ok: bool)
      requires open
      modifies this`filters, meter`faults
      ensures ok ==> filters == old(filters).(generic := generic)
      ensures meter.faults == old(meter.faults) + if ok then 0 else 1
    {
      ok := meter.Attempt();
      if ok {
        filters := filters.(generic := generic);
      } else {
        filters := *;
      }
    }
  }
}
