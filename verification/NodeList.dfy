/** The node list that the app shows: the grouped gateways, filtered, labelled and sorted. */
module NodeList {
  import opened StableSort
  import opened Gateways

  // ----- Selection -----

  datatype SelectedNode = Random | OfCountry(code: string) | OfRegion(name: string) | OfGateway(id: string)

  datatype SelectedKind = EntryAndExit | Entry | Exit | NotSelected

  function IsSelectedNodeType(node: SelectedNode, entry: SelectedNode, exit: SelectedNode): (kind: SelectedKind)
    requires node != Random
    ensures kind == NotSelected <==> entry != node && exit != node
    ensures kind == Exit <==> entry != node && exit == node
    ensures kind == Entry <==> entry == node && (exit != node || !node.OfCountry?)
  {
    if node.OfCountry? && node == entry && node == exit then EntryAndExit
    else if node == entry then Entry
    else if node == exit then Exit
    else NotSelected
  }

  // ----- What comes in, what is shown -----

  /** A list cached by an older version can hold something that is not an array of regions. */
  datatype CachedRegions = Regions(regions: seq<Region>) | OldShape

  datatype CachedCountry = CachedCountry(
    country: Country,
    regions: CachedRegions,
    gateways: seq<Gateway>,
    kind: GatewayType,
    quic: bool
  )

  datatype UiGateway = UiGateway(gateway: Gateway, isSelected: SelectedKind)

  datatype UiRegion = UiRegion(
    name: string,
    country: Country,
    gateways: seq<UiGateway>,
    kind: GatewayType,
    quic: bool,
    isSelected: SelectedKind
  )

  datatype UiCountry = UiCountry(country: Country, isSelected: SelectedKind)

  datatype UiGatewaysByCountry = UiGatewaysByCountry(
    country: UiCountry,
    regions: seq<UiRegion>,
    gateways: seq<UiGateway>,
    kind: GatewayType,
    isSelected: SelectedKind,
    i18n: string
  )

  /** What the user has selected and asked for. `countryName` gives the empty string for a code
      that has no translation. */
  datatype View = View(
    selectedEntry: SelectedNode,
    selectedExit: SelectedNode,
    quicFilter: bool,
    countryName: string -> string
  ) {
    function Kind(node: SelectedNode): SelectedKind
      requires node != Random
    {
      IsSelectedNodeType(node, selectedEntry, selectedExit)
    }

    function ToUi(g: Gateway): UiGateway {
      UiGateway(g, Kind(OfGateway(g.id)))
    }

    function Passes(): Gateway -> bool {
      (g: Gateway) => !quicFilter || g.quic
    }

    function Label(country: Country): string {
      if countryName(country.code) != "" then countryName(country.code) else country.name
    }
  }

  function AllToUi(view: View, gateways: seq<Gateway>): seq<UiGateway> {
    seq(|gateways|, i requires 0 <= i < |gateways| => view.ToUi(gateways[i]))
  }

  /** The gateways that pass the filter, in order. */
  function Shown(view: View, gateways: seq<Gateway>): seq<UiGateway> {
    AllToUi(view, Filter(view.Passes(), gateways))
  }

  /** The region if it has a gateway to show. */
  function ShownRegion(view: View, region: Region): seq<UiRegion> {
    var gateways := Shown(view, region.gateways);
    if gateways == [] then []
    else [UiRegion(region.name, region.country, gateways, region.kind, region.quic, view.Kind(OfRegion(region.name)))]
  }

  function ShownRegions(view: View, regions: seq<Region>): seq<UiRegion> {
    if regions == [] then []
    else ShownRegions(view, regions[..|regions| - 1]) + ShownRegion(view, regions[|regions| - 1])
  }

  /** The country if it has a gateway to show; its quic flag plays no part. */
  function ShownCountry(view: View, c: CachedCountry): seq<UiGatewaysByCountry> {
    var gateways := Shown(view, c.gateways);
    if gateways == [] then []
    else
      var kind := view.Kind(OfCountry(c.country.code));
      var regions := if c.regions.Regions? then ShownRegions(view, c.regions.regions) else [];
      [UiGatewaysByCountry(UiCountry(c.country, kind), regions, gateways, c.kind, kind, view.Label(c.country))]
  }

  /** The list under the plain filter, before it is sorted. */
  function ShownCountries(view: View, list: seq<CachedCountry>): seq<UiGatewaysByCountry> {
    if list == [] then []
    else ShownCountries(view, list[..|list| - 1]) + ShownCountry(view, list[|list| - 1])
  }

  /** The list that leaves out unmarked countries without a look at their gateways. */
  function MarkedCountries(view: View, list: seq<CachedCountry>): seq<UiGatewaysByCountry> {
    if list == [] then []
    else
      var last := list[|list| - 1];
      MarkedCountries(view, list[..|list| - 1])
      + if view.quicFilter && !last.quic then [] else ShownCountry(view, last)
  }

  function LabelOrder(labelLe: (string, string) -> bool): (UiGatewaysByCountry, UiGatewaysByCountry) -> bool {
    (a: UiGatewaysByCountry, b: UiGatewaysByCountry) => labelLe(a.i18n, b.i18n)
  }

  // ----- gatewaysToUi, regionsToUi and buildNodeList -----

  lemma ShownSnoc(view: View, gateways: seq<Gateway>, g: Gateway)
    ensures Shown(view, gateways + [g])
            == Shown(view, gateways) + if view.Passes()(g) then [view.ToUi(g)] else []
  {
    FilterAppend(view.Passes(), gateways, [g]);
    assert [g][1..] == [];
  }

  lemma ShownNothing(view: View)
    ensures Shown(view, []) == []
  {
  }

  method GatewaysToUi(gateways: seq<Gateway>, view: View) returns (ui: seq<UiGateway>)
    ensures ui == Shown(view, gateways)
  {
    hide Filter;
    ui := [];
    ShownNothing(view);
    for i := 0 to |gateways|
      invariant ui == Shown(view, gateways[..i])
    {
      var gw := gateways[i];
      assert gateways[..i + 1] == gateways[..i] + [gw];
      ShownSnoc(view, gateways[..i], gw);
      if view.quicFilter && !gw.quic {
        continue;
      }
      ui := ui + [UiGateway(gw, view.Kind(OfGateway(gw.id)))];
    }
    assert gateways[..|gateways|] == gateways;
  }

  method RegionsToUi(regions: seq<Region>, view: View) returns (ui: seq<UiRegion>)
    ensures ui == ShownRegions(view, regions)
  {
    hide Shown;
    ui := [];
    for i := 0 to |regions|
      invariant ui == ShownRegions(view, regions[..i])
    {
      var region := regions[i];
      assert regions[..i + 1][..i] == regions[..i];
      var gateways := GatewaysToUi(region.gateways, view);
      if |gateways| == 0 {
        continue;
      }
      ui := ui + [UiRegion(region.name, region.country, gateways, region.kind, region.quic,
                           view.Kind(OfRegion(region.name)))];
    }
    assert regions[..|regions|] == regions;
  }

  method BuildNodeList(list: seq<CachedCountry>, view: View, labelLe: (string, string) -> bool)
    returns (ui: seq<UiGatewaysByCountry>)
    ensures ui == Sort(LabelOrder(labelLe), MarkedCountries(view, list))
  {
    hide Shown, ShownRegions, Sort;
    ui := [];
    for i := 0 to |list|
      invariant ui == MarkedCountries(view, list[..i])
    {
      var c := list[i];
      assert list[..i + 1][..i] == list[..i];
      if view.quicFilter && !c.quic {
        continue;
      }
      var gateways := GatewaysToUi(c.gateways, view);
      if |gateways| == 0 {
        continue;
      }
      var country := UiCountry(c.country, view.Kind(OfCountry(c.country.code)));
      var regions := [];
      if c.regions.Regions? {
        regions := RegionsToUi(c.regions.regions, view);
      }
      var i18n := view.countryName(c.country.code);
      if i18n == "" {
        i18n := c.country.name;
      }
      ui := ui + [UiGatewaysByCountry(country, regions, gateways, c.kind, country.isSelected, i18n)];
    }
    assert list[..|list|] == list;
    ui := Sort(LabelOrder(labelLe), ui);
  }

  // ----- The shortcut -----

  lemma ShowsSomething(view: View, gateways: seq<Gateway>)
    ensures Shown(view, gateways) != [] <==> if view.quicFilter then AnyQuic(gateways) else gateways != []
  {
    var passed := Filter(view.Passes(), gateways);
    if passed != [] {
      FilterMember(view.Passes(), gateways, passed[0]);
      var i :| 0 <= i < |gateways| && gateways[i] == passed[0];
      assert gateways[i].quic || !view.quicFilter;
    }
    if i :| 0 <= i < |gateways| && view.Passes()(gateways[i]) {
      FilterMember(view.Passes(), gateways, gateways[i]);
    }
  }

  /** No country hides a quic gateway behind a flag that is not set. */
  ghost predicate FlagsSuffice(list: seq<CachedCountry>) {
    forall i :: 0 <= i < |list| && AnyQuic(list[i].gateways) ==> list[i].quic
  }

  /** The shortcut never shows more than the plain filter, and shows the same exactly if the flags suffice. */
  lemma {:induction false} ShortcutAgrees(view: View, list: seq<CachedCountry>)
    ensures |MarkedCountries(view, list)| <= |ShownCountries(view, list)|
    ensures MarkedCountries(view, list) == ShownCountries(view, list)
            <==> (view.quicFilter ==> FlagsSuffice(list))
    ensures MarkedCountries(view, list) != ShownCountries(view, list)
            ==> |MarkedCountries(view, list)| < |ShownCountries(view, list)|
  {
    hide Shown, AnyQuic, ShownRegions;
    if list != [] {
      var init, last := list[..|list| - 1], list[|list| - 1];
      ShortcutAgrees(view, init);
      ShowsSomething(view, last.gateways);
      if FlagsSuffice(list) {
        assert forall i :: 0 <= i < |init| ==> init[i] == list[i];
        assert FlagsSuffice(init);
      } else if FlagsSuffice(init) {
        var i :| 0 <= i < |list| && AnyQuic(list[i].gateways) && !list[i].quic;
        assert i < |init| ==> init[i] == list[i];
      }
    }
  }

  // ----- Every gateway that passes is shown once -----

  lemma {:induction false} AllToUiCount(view: View, gateways: seq<Gateway>, u: UiGateway)
    ensures multiset(AllToUi(view, gateways))[u]
            == if u == view.ToUi(u.gateway) then multiset(gateways)[u.gateway] else 0
  {
    if gateways != [] {
      var n := |gateways| - 1;
      AllToUiCount(view, gateways[..n], u);
      assert gateways == gateways[..n] + [gateways[n]];
      assert AllToUi(view, gateways) == AllToUi(view, gateways[..n]) + [view.ToUi(gateways[n])];
    }
  }

  lemma ShownPermutes(view: View, s: seq<Gateway>, t: seq<Gateway>)
    requires multiset(s) == multiset(t)
    ensures multiset(Shown(view, s)) == multiset(Shown(view, t))
  {
    forall u
      ensures multiset(Shown(view, s))[u] == multiset(Shown(view, t))[u]
    {
      AllToUiCount(view, Filter(view.Passes(), s), u);
      AllToUiCount(view, Filter(view.Passes(), t), u);
      FilterCount(view.Passes(), s, u.gateway);
      FilterCount(view.Passes(), t, u.gateway);
    }
  }

  lemma ShownAppend(view: View, s: seq<Gateway>, t: seq<Gateway>)
    ensures Shown(view, s + t) == Shown(view, s) + Shown(view, t)
  {
    FilterAppend(view.Passes(), s, t);
  }

  function InRegions(regions: seq<UiRegion>): seq<UiGateway> {
    if regions == [] then [] else InRegions(regions[..|regions| - 1]) + regions[|regions| - 1].gateways
  }

  lemma InRegionsSnoc(view: View, shown: seq<UiRegion>, region: Region)
    ensures InRegions(shown + ShownRegion(view, region)) == InRegions(shown) + Shown(view, region.gateways)
  {
    hide Shown;
    if Shown(view, region.gateways) == [] {
      assert shown + ShownRegion(view, region) == shown;
    } else {
      assert (shown + ShownRegion(view, region))[..|shown|] == shown;
    }
  }

  lemma {:induction false} RegionsShowTheirs(view: View, regions: seq<Region>)
    ensures InRegions(ShownRegions(view, regions)) == Shown(view, Concat(RegionLists(regions)))
  {
    hide Shown;
    if regions == [] {
      ShownNothing(view);
    } else {
      var n := |regions| - 1;
      RegionsShowTheirs(view, regions[..n]);
      assert RegionLists(regions)[..n] == RegionLists(regions[..n]);
      ShownAppend(view, Concat(RegionLists(regions[..n])), regions[n].gateways);
      InRegionsSnoc(view, ShownRegions(view, regions[..n]), regions[n]);
    }
  }

  /** The regions of a country share its gateways out among them. */
  ghost predicate Partitioned(c: CachedCountry) {
    c.regions.Regions? ==> multiset(Concat(RegionLists(c.regions.regions))) == multiset(c.gateways)
  }

  lemma ShownCountryPartitioned(view: View, c: CachedCountry, ui: UiGatewaysByCountry)
    requires Partitioned(c) && c.regions.Regions? && ui in ShownCountry(view, c)
    ensures multiset(InRegions(ui.regions)) == multiset(ui.gateways)
  {
    hide Shown, ShownRegions, InRegions;
    RegionsShowTheirs(view, c.regions.regions);
    ShownPermutes(view, Concat(RegionLists(c.regions.regions)), c.gateways);
  }

  function InCountries(countries: seq<UiGatewaysByCountry>): seq<UiGateway> {
    if countries == [] then [] else countries[0].gateways + InCountries(countries[1..])
  }

  lemma {:induction false} InCountriesAppend(s: seq<UiGatewaysByCountry>, t: seq<UiGatewaysByCountry>)
    ensures InCountries(s + t) == InCountries(s) + InCountries(t)
  {
    if s == [] {
      assert s + t == t;
    } else {
      InCountriesAppend(s[1..], t);
      assert (s + t)[1..] == s[1..] + t;
      Regroup(s[0].gateways, InCountries(s[1..]), InCountries(t));
    }
  }

  lemma {:induction false} InsertInCountries(le: (UiGatewaysByCountry, UiGatewaysByCountry) -> bool,
                                             x: UiGatewaysByCountry, s: seq<UiGatewaysByCountry>)
    ensures multiset(InCountries(Insert(le, x, s))) == multiset(x.gateways) + multiset(InCountries(s))
  {
    if s == [] || le(x, s[0]) {
      assert ([x] + s)[1..] == s;
    } else {
      InsertInCountries(le, x, s[1..]);
    }
  }

  lemma {:induction false} SortInCountries(le: (UiGatewaysByCountry, UiGatewaysByCountry) -> bool,
                                           s: seq<UiGatewaysByCountry>)
    ensures multiset(InCountries(Sort(le, s))) == multiset(InCountries(s))
  {
    if s != [] {
      SortInCountries(le, s[1..]);
      InsertInCountries(le, s[0], Sort(le, s[1..]));
    }
  }

  function CachedLists(list: seq<CachedCountry>): seq<seq<Gateway>> {
    seq(|list|, i requires 0 <= i < |list| => list[i].gateways)
  }

  lemma {:induction false} CountriesShowTheirs(view: View, list: seq<CachedCountry>)
    ensures InCountries(ShownCountries(view, list)) == Shown(view, Concat(CachedLists(list)))
  {
    hide Shown, ShownRegions;
    if list == [] {
      ShownNothing(view);
    } else {
      var n := |list| - 1;
      CountriesShowTheirs(view, list[..n]);
      assert CachedLists(list)[..n] == CachedLists(list[..n]);
      ShownAppend(view, Concat(CachedLists(list[..n])), list[n].gateways);
      InCountriesAppend(ShownCountries(view, list[..n]), ShownCountry(view, list[n]));
    }
  }

  lemma {:induction false} ShownCountryOf(view: View, list: seq<CachedCountry>, ui: UiGatewaysByCountry)
    ensures ui in ShownCountries(view, list) <==> exists i :: 0 <= i < |list| && ui in ShownCountry(view, list[i])
  {
    hide ShownCountry;
    if list != [] {
      var n := |list| - 1;
      ShownCountryOf(view, list[..n], ui);
      assert forall i :: 0 <= i < n ==> list[..n][i] == list[i];
    }
  }

  // ----- From the backend's gateways to the screen -----

  function Cached(list: seq<GatewaysByCountry>): seq<CachedCountry> {
    seq(|list|, i requires 0 <= i < |list| =>
      CachedCountry(list[i].country, Regions(list[i].regions), list[i].gateways, list[i].kind, list[i].quic))
  }

  /** From the fetched gateways to the list on the screen: the shortcut loses nothing, each gateway that
      passes the filter is shown once under the countries, and once more under the country's regions. */
  lemma EachGatewayShownOnce(gateways: seq<Gateway>, kind: GatewayType, nameLe: (string, string) -> bool,
                             list: seq<GatewaysByCountry>, view: View, labelLe: (string, string) -> bool,
                             ui: seq<UiGatewaysByCountry>)
    requires Listed(list, gateways, kind, nameLe)
    requires ui == Sort(LabelOrder(labelLe), MarkedCountries(view, Cached(list)))
    ensures ui == Sort(LabelOrder(labelLe), ShownCountries(view, Cached(list)))
    ensures multiset(InCountries(ui)) == multiset(Shown(view, gateways))
    ensures forall i :: 0 <= i < |ui| ==> multiset(InRegions(ui[i].regions)) == multiset(ui[i].gateways)
  {
    hide Listed, Shown, AnyQuic, Sort, InRegions, InCountries, ShownCountries, MarkedCountries, ShownCountry, Concat;
    var cached := Cached(list);
    ListedExactQuic(list, gateways, kind, nameLe);
    ShortcutAgrees(view, cached);
    var shown := ShownCountries(view, cached);
    SortInCountries(LabelOrder(labelLe), shown);
    CountriesShowTheirs(view, cached);
    assert CachedLists(cached) == CountryLists(list);
    CountriesPermute(list, gateways, kind, nameLe);
    ShownPermutes(view, Concat(CountryLists(list)), gateways);
    SortKeeps(LabelOrder(labelLe), shown);
    forall i | 0 <= i < |ui|
      ensures multiset(InRegions(ui[i].regions)) == multiset(ui[i].gateways)
    {
      assert ui[i] in shown;
      ShownCountryOf(view, cached, ui[i]);
      var c :| 0 <= c < |cached| && ui[i] in ShownCountry(view, cached[c]);
      RegionsPermute(list, gateways, kind, nameLe, c);
      ShownCountryPartitioned(view, cached[c], ui[i]);
    }
  }

  // ----- What the screen says -----

  /** The mark on a node: both hops can be seen on a country only, and otherwise entry hides exit. */
  predicate Marked(view: View, node: SelectedNode, kind: SelectedKind) {
    match kind
    case EntryAndExit => node.OfCountry? && view.selectedEntry == node && view.selectedExit == node
    case Entry => view.selectedEntry == node && !(node.OfCountry? && view.selectedExit == node)
    case Exit => view.selectedExit == node && view.selectedEntry != node
    case NotSelected => view.selectedEntry != node && view.selectedExit != node
  }

  predicate GatewayTruthful(view: View, gateways: seq<Gateway>, u: UiGateway) {
    && u.gateway in gateways && (view.quicFilter ==> u.gateway.quic)
    && Marked(view, OfGateway(u.gateway.id), u.isSelected)
  }

  predicate RegionTruthful(view: View, region: Region, u: UiRegion) {
    && u.name == region.name && u.country == region.country && u.kind == region.kind && u.quic == region.quic
    && Marked(view, OfRegion(region.name), u.isSelected)
    && u.gateways != [] && forall i :: 0 <= i < |u.gateways| ==> GatewayTruthful(view, region.gateways, u.gateways[i])
  }

  /** A country bears the name that the translations have for it, if any. */
  predicate CountryTruthful(view: View, c: CachedCountry, u: UiGatewaysByCountry) {
    && u.country.country == c.country && u.kind == c.kind
    && Marked(view, OfCountry(c.country.code), u.isSelected) && u.country.isSelected == u.isSelected
    && (u.i18n == view.countryName(c.country.code) || u.i18n == c.country.name)
    && (u.i18n != view.countryName(c.country.code) ==> view.countryName(c.country.code) == "")
    && (u.i18n == "" ==> c.country.name == "")
    && u.gateways != [] && forall i :: 0 <= i < |u.gateways| ==> GatewayTruthful(view, c.gateways, u.gateways[i])
  }

  lemma ShownTruthful(view: View, gateways: seq<Gateway>)
    ensures forall i :: 0 <= i < |Shown(view, gateways)| ==> GatewayTruthful(view, gateways, Shown(view, gateways)[i])
  {
    hide Filter;
    var passed := Filter(view.Passes(), gateways);
    forall i | 0 <= i < |Shown(view, gateways)|
      ensures GatewayTruthful(view, gateways, Shown(view, gateways)[i])
    {
      FilterMember(view.Passes(), gateways, passed[i]);
    }
  }

  lemma {:induction false} RegionsTruthful(view: View, regions: seq<Region>, u: UiRegion)
    requires u in ShownRegions(view, regions)
    ensures exists i :: 0 <= i < |regions| && RegionTruthful(view, regions[i], u)
  {
    hide Shown;
    var n := |regions| - 1;
    if u in ShownRegions(view, regions[..n]) {
      RegionsTruthful(view, regions[..n], u);
      var i :| 0 <= i < n && RegionTruthful(view, regions[..n][i], u);
      assert RegionTruthful(view, regions[i], u);
    } else {
      ShownTruthful(view, regions[n].gateways);
      assert RegionTruthful(view, regions[n], u);
    }
  }

  lemma CountryShown(view: View, c: CachedCountry, u: UiGatewaysByCountry)
    requires u in ShownCountry(view, c)
    ensures CountryTruthful(view, c, u)
    ensures forall r :: r in u.regions ==>
              && c.regions.Regions?
              && exists i :: 0 <= i < |c.regions.regions| && RegionTruthful(view, c.regions.regions[i], r)
  {
    hide Shown, ShownRegions, RegionTruthful;
    ShownTruthful(view, c.gateways);
    forall r | r in u.regions
      ensures c.regions.Regions?
      ensures exists i :: 0 <= i < |c.regions.regions| && RegionTruthful(view, c.regions.regions[i], r)
    {
      RegionsTruthful(view, c.regions.regions, r);
    }
  }

  /** Whatever the screen shows is there: each country, region and gateway with its own data and the right
      mark, in the order of the labels. */
  lemma ScreenTruthful(view: View, list: seq<CachedCountry>, labelLe: (string, string) -> bool,
                       ui: seq<UiGatewaysByCountry>)
    requires TotalPreorder(labelLe) && ui == Sort(LabelOrder(labelLe), ShownCountries(view, list))
    ensures forall i, j :: 0 <= i < j < |ui| ==> labelLe(ui[i].i18n, ui[j].i18n)
    ensures forall u :: u in ui ==> exists i :: 0 <= i < |list| && CountryTruthful(view, list[i], u)
    ensures forall u, r :: u in ui && r in u.regions ==>
              exists i, j :: && 0 <= i < |list| && list[i].regions.Regions? && CountryTruthful(view, list[i], u)
                             && 0 <= j < |list[i].regions.regions|
                             && RegionTruthful(view, list[i].regions.regions[j], r)
  {
    hide ShownCountries, ShownCountry, Sort, CountryTruthful, RegionTruthful, TotalPreorder;
    SortKeeps(LabelOrder(labelLe), ShownCountries(view, list));
    LabelsOrder(labelLe);
    SortSorted(LabelOrder(labelLe), ShownCountries(view, list));
    forall i, j | 0 <= i < j < |ui|
      ensures labelLe(ui[i].i18n, ui[j].i18n)
    {
      assert LabelOrder(labelLe)(ui[i], ui[j]);
    }
    forall u | u in ui
      ensures exists i :: 0 <= i < |list| && CountryTruthful(view, list[i], u)
      ensures forall r :: r in u.regions ==>
                exists i, j :: && 0 <= i < |list| && list[i].regions.Regions? && CountryTruthful(view, list[i], u)
                               && 0 <= j < |list[i].regions.regions|
                               && RegionTruthful(view, list[i].regions.regions[j], r)
    {
      ShownCountryOf(view, list, u);
      var i :| 0 <= i < |list| && u in ShownCountry(view, list[i]);
      CountryShown(view, list[i], u);
    }
  }

  lemma LabelsOrder(labelLe: (string, string) -> bool)
    requires TotalPreorder(labelLe)
    ensures TotalPreorder(LabelOrder(labelLe))
  {
    forall a: UiGatewaysByCountry, b: UiGatewaysByCountry
      ensures LabelOrder(labelLe)(a, b) || LabelOrder(labelLe)(b, a)
    {
      assert labelLe(a.i18n, b.i18n) || labelLe(b.i18n, a.i18n);
    }
    forall a: UiGatewaysByCountry, b: UiGatewaysByCountry, c: UiGatewaysByCountry
      | LabelOrder(labelLe)(a, b) && LabelOrder(labelLe)(b, c)
      ensures LabelOrder(labelLe)(a, c)
    {
      assert labelLe(a.i18n, b.i18n) && labelLe(b.i18n, c.i18n);
    }
  }
}
