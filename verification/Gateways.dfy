/** Gateways by country and by region, as the app's backend hands them out. */
module Gateways {
  import opened StableSort

  datatype GatewayType = MxEntry | MxExit | Wg

  datatype Score = Offline | Low | Medium | High

  datatype Country = Country(name: string, code: string)

  datatype Gateway = Gateway(
    id: string,
    kind: GatewayType,
    name: string,
    country: Country,
    region: string,
    mxScore: Score,
    wgScore: Score,
    quic: bool
  )

  datatype Region = Region(name: string, country: Country, gateways: seq<Gateway>, kind: GatewayType, quic: bool)

  datatype GatewaysByCountry = GatewaysByCountry(
    country: Country,
    regions: seq<Region>,
    gateways: seq<Gateway>,
    kind: GatewayType,
    quic: bool
  )

  // ----- Members of a group -----

  datatype Field = ByCountryCode | ByRegion

  function Key(field: Field, g: Gateway): string {
    match field
    case ByCountryCode => g.country.code
    case ByRegion => g.region
  }

  function HasKey(field: Field, key: string): Gateway -> bool {
    (g: Gateway) => Key(field, g) == key
  }

  /** The gateways with the given key, in order. */
  function Members(field: Field, key: string, gateways: seq<Gateway>): seq<Gateway> {
    Filter(HasKey(field, key), gateways)
  }

  /** Whether there is a gateway that is quic compatible. */
  predicate AnyQuic(gateways: seq<Gateway>) {
    exists i :: 0 <= i < |gateways| && gateways[i].quic
  }

  lemma MembersSnoc(field: Field, key: string, gateways: seq<Gateway>, g: Gateway)
    ensures Members(field, key, gateways + [g])
            == Members(field, key, gateways) + if Key(field, g) == key then [g] else []
  {
    FilterAppend(HasKey(field, key), gateways, [g]);
    assert [g][1..] == [];
  }

  lemma MembersKeys(field: Field, key: string, gateways: seq<Gateway>)
    ensures forall i :: 0 <= i < |Members(field, key, gateways)| ==>
              Key(field, Members(field, key, gateways)[i]) == key && Members(field, key, gateways)[i] in gateways
  {
    var members := Members(field, key, gateways);
    forall i | 0 <= i < |members|
      ensures Key(field, members[i]) == key && members[i] in gateways
    {
      FilterMember(HasKey(field, key), gateways, members[i]);
    }
  }

  lemma {:induction false} NoMembers(field: Field, key: string, gateways: seq<Gateway>)
    requires forall i :: 0 <= i < |gateways| ==> Key(field, gateways[i]) != key
    ensures Members(field, key, gateways) == []
  {
    if gateways != [] {
      NoMembers(field, key, gateways[1..]);
    }
  }

  // ----- Sorting by performance -----

  function Rank(score: Score): nat {
    match score
    case Offline => 0
    case Low => 1
    case Medium => 2
    case High => 3
  }

  /** sort_by_perf: best score first. Which score counts is up to the first operand. */
  predicate PerfBefore(a: Gateway, b: Gateway) {
    match a.kind
    case Wg => Rank(a.wgScore) >= Rank(b.wgScore)
    case _ => Rank(a.mxScore) >= Rank(b.mxScore)
  }

  function SortByPerf(gateways: seq<Gateway>): seq<Gateway> {
    Sort(PerfBefore, gateways)
  }

  ghost predicate OfKind(gateways: seq<Gateway>, kind: GatewayType) {
    forall i :: 0 <= i < |gateways| ==> gateways[i].kind == kind
  }

  // ----- Groups -----

  function CountryGroup(gateways: seq<Gateway>, code: string, kind: GatewayType): GatewaysByCountry
    requires Members(ByCountryCode, code, gateways) != []
  {
    var members := Members(ByCountryCode, code, gateways);
    GatewaysByCountry(members[0].country, [], members, kind, AnyQuic(members))
  }

  function RegionGroup(country: Country, gateways: seq<Gateway>, name: string, kind: GatewayType): Region
    requires Members(ByRegion, name, gateways) != []
  {
    var members := Members(ByRegion, name, gateways);
    Region(name, country, members, kind, AnyQuic(members))
  }

  /** Each key of the gateways, and nothing else, leads to the group of the gateways with that key. */
  ghost predicate CountriesFolded(m: map<string, GatewaysByCountry>, gateways: seq<Gateway>, kind: GatewayType) {
    && (forall i :: 0 <= i < |gateways| ==> gateways[i].country.code in m)
    && (forall code :: code in m ==>
          && Members(ByCountryCode, code, gateways) != []
          && m[code] == CountryGroup(gateways, code, kind))
  }

  ghost predicate RegionsFolded(m: map<string, Region>, country: Country, gateways: seq<Gateway>, kind: GatewayType) {
    && (forall i :: 0 <= i < |gateways| ==> gateways[i].region in m)
    && (forall name :: name in m ==>
          && Members(ByRegion, name, gateways) != []
          && m[name] == RegionGroup(country, gateways, name, kind))
  }

  lemma AnyQuicSnoc(gateways: seq<Gateway>, g: Gateway)
    ensures AnyQuic(gateways + [g]) <==> AnyQuic(gateways) || g.quic
  {
    var longer := gateways + [g];
    if g.quic {
      assert longer[|gateways|].quic;
    }
    if i :| 0 <= i < |gateways| && gateways[i].quic {
      assert longer[i].quic;
    }
  }

  /** A group with one more gateway: the first one makes the group, and any quic one marks it. */
  lemma CountryGroupSnoc(gateways: seq<Gateway>, g: Gateway, kind: GatewayType)
    ensures var code := g.country.code;
            var members := Members(ByCountryCode, code, gateways);
            && Members(ByCountryCode, code, gateways + [g]) == members + [g]
            && CountryGroup(gateways + [g], code, kind)
               == if members == [] then GatewaysByCountry(g.country, [], [g], kind, g.quic)
                  else var c := CountryGroup(gateways, code, kind);
                       c.(gateways := c.gateways + [g], quic := c.quic || g.quic)
  {
    MembersSnoc(ByCountryCode, g.country.code, gateways, g);
    AnyQuicSnoc(Members(ByCountryCode, g.country.code, gateways), g);
  }

  lemma CountriesFoldedStep(m: map<string, GatewaysByCountry>, gateways: seq<Gateway>, g: Gateway, kind: GatewayType)
    requires CountriesFolded(m, gateways, kind)
    requires Members(ByCountryCode, g.country.code, gateways + [g]) != []
    ensures CountriesFolded(m[g.country.code := CountryGroup(gateways + [g], g.country.code, kind)],
                            gateways + [g], kind)
    ensures g.country.code !in m ==> Members(ByCountryCode, g.country.code, gateways) == []
  {
    hide Members, AnyQuic;
    if g.country.code !in m {
      NoMembers(ByCountryCode, g.country.code, gateways);
    }
    forall code | code in m && code != g.country.code
      ensures Members(ByCountryCode, code, gateways + [g]) == Members(ByCountryCode, code, gateways)
    {
      MembersSnoc(ByCountryCode, code, gateways, g);
    }
  }

  /** The fold of group_by_country, before its values are sorted. */
  method FoldCountries(gateways: seq<Gateway>, kind: GatewayType) returns (m: map<string, GatewaysByCountry>)
    ensures CountriesFolded(m, gateways, kind)
  {
    hide Members, AnyQuic;
    m := map[];
    for i := 0 to |gateways|
      invariant CountriesFolded(m, gateways[..i], kind)
    {
      var g := gateways[i];
      var code := g.country.code;
      assert gateways[..i + 1] == gateways[..i] + [g];
      CountryGroupSnoc(gateways[..i], g, kind);
      CountriesFoldedStep(m, gateways[..i], g, kind);
      if code in m {
        var c := m[code];
        c := c.(gateways := c.gateways + [g]);
        if g.quic {
          c := c.(quic := true);
        }
        m := m[code := c];
      } else {
        m := m[code := GatewaysByCountry(g.country, [], [g], kind, g.quic)];
      }
    }
    assert gateways[..|gateways|] == gateways;
  }

  lemma RegionGroupSnoc(country: Country, gateways: seq<Gateway>, g: Gateway, kind: GatewayType)
    ensures var members := Members(ByRegion, g.region, gateways);
            && Members(ByRegion, g.region, gateways + [g]) == members + [g]
            && RegionGroup(country, gateways + [g], g.region, kind)
               == if members == [] then Region(g.region, country, [g], kind, g.quic)
                  else var r := RegionGroup(country, gateways, g.region, kind);
                       r.(gateways := r.gateways + [g], quic := r.quic || g.quic)
  {
    MembersSnoc(ByRegion, g.region, gateways, g);
    AnyQuicSnoc(Members(ByRegion, g.region, gateways), g);
  }

  lemma RegionsFoldedStep(m: map<string, Region>, country: Country, gateways: seq<Gateway>, g: Gateway,
                          kind: GatewayType)
    requires RegionsFolded(m, country, gateways, kind)
    requires Members(ByRegion, g.region, gateways + [g]) != []
    ensures RegionsFolded(m[g.region := RegionGroup(country, gateways + [g], g.region, kind)], country,
                          gateways + [g], kind)
    ensures g.region !in m ==> Members(ByRegion, g.region, gateways) == []
  {
    hide Members, AnyQuic;
    if g.region !in m {
      NoMembers(ByRegion, g.region, gateways);
    }
    forall name | name in m && name != g.region
      ensures Members(ByRegion, name, gateways + [g]) == Members(ByRegion, name, gateways)
    {
      MembersSnoc(ByRegion, name, gateways, g);
    }
  }

  /** The fold of group_by_region for one country. */
  method FoldRegions(country: Country, gateways: seq<Gateway>, kind: GatewayType) returns (m: map<string, Region>)
    ensures RegionsFolded(m, country, gateways, kind)
  {
    hide Members, AnyQuic;
    m := map[];
    for i := 0 to |gateways|
      invariant RegionsFolded(m, country, gateways[..i], kind)
    {
      var g := gateways[i];
      assert gateways[..i + 1] == gateways[..i] + [g];
      RegionGroupSnoc(country, gateways[..i], g, kind);
      RegionsFoldedStep(m, country, gateways[..i], g, kind);
      if g.region in m {
        var r := m[g.region];
        r := r.(gateways := r.gateways + [g]);
        if g.quic {
          r := r.(quic := true);
        }
        m := m[g.region := r];
      } else {
        m := m[g.region := Region(g.region, country, [g], kind, g.quic)];
      }
    }
    assert gateways[..|gateways|] == gateways;
  }

  // ----- Values of a map, sorted -----

  /** All values of the map, each once, in an order that is not specified. */
  method IntoValues<V(==)>(m: map<string, V>) returns (values: seq<V>)
    requires forall k, k' :: k in m && k' in m && m[k] == m[k'] ==> k == k'
    ensures forall v :: v in values <==> v in m.Values
    ensures forall i, j :: 0 <= i < j < |values| ==> values[i] != values[j]
  {
    values := [];
    var todo := m.Keys;
    while todo != {}
      invariant todo <= m.Keys
      invariant forall v :: v in values <==> exists k :: k in m && k !in todo && m[k] == v
      invariant forall i, j :: 0 <= i < j < |values| ==> values[i] != values[j]
    {
      var k :| k in todo;
      assert m[k] !in values;
      values := values + [m[k]];
      todo := todo - {k};
    }
  }

  // ----- group_by_country, group_by_region and sort_countries_gw -----

  function CountryOrder(nameLe: (string, string) -> bool): (GatewaysByCountry, GatewaysByCountry) -> bool {
    (a: GatewaysByCountry, b: GatewaysByCountry) => nameLe(a.country.name, b.country.name)
  }

  function RegionOrder(nameLe: (string, string) -> bool): (Region, Region) -> bool {
    (a: Region, b: Region) => nameLe(a.name, b.name)
  }

  lemma OrdersByName(nameLe: (string, string) -> bool)
    requires TotalPreorder(nameLe)
    ensures TotalPreorder(CountryOrder(nameLe)) && TotalPreorder(RegionOrder(nameLe))
  {
    forall a: GatewaysByCountry, b: GatewaysByCountry
      ensures CountryOrder(nameLe)(a, b) || CountryOrder(nameLe)(b, a)
    {
      assert nameLe(a.country.name, b.country.name) || nameLe(b.country.name, a.country.name);
    }
    forall a: Region, b: Region
      ensures RegionOrder(nameLe)(a, b) || RegionOrder(nameLe)(b, a)
    {
      assert nameLe(a.name, b.name) || nameLe(b.name, a.name);
    }
    forall a: GatewaysByCountry, b: GatewaysByCountry, c: GatewaysByCountry
      | CountryOrder(nameLe)(a, b) && CountryOrder(nameLe)(b, c)
      ensures CountryOrder(nameLe)(a, c)
    {
      assert nameLe(a.country.name, b.country.name) && nameLe(b.country.name, c.country.name);
    }
    forall a: Region, b: Region, c: Region | RegionOrder(nameLe)(a, b) && RegionOrder(nameLe)(b, c)
      ensures RegionOrder(nameLe)(a, c)
    {
      assert nameLe(a.name, b.name) && nameLe(b.name, c.name);
    }
  }

  /** One group for each country code that occurs, in the order of country names. */
  ghost predicate CountryGroups(groups: seq<GatewaysByCountry>, gateways: seq<Gateway>, kind: GatewayType,
                                nameLe: (string, string) -> bool) {
    && (forall i :: 0 <= i < |groups| ==>
          && Members(ByCountryCode, groups[i].country.code, gateways) != []
          && groups[i] == CountryGroup(gateways, groups[i].country.code, kind))
    && (forall i, j :: 0 <= i < j < |groups| ==> groups[i].country.code != groups[j].country.code)
    && (forall g :: g in gateways ==> exists i :: 0 <= i < |groups| && groups[i].country.code == g.country.code)
    && Sorted(CountryOrder(nameLe), groups)
  }

  /** One region for each region name that occurs, in the order of names and each sorted by performance. */
  ghost predicate RegionGroups(regions: seq<Region>, country: Country, gateways: seq<Gateway>, kind: GatewayType,
                               nameLe: (string, string) -> bool) {
    && (forall i :: 0 <= i < |regions| ==>
          var members := Members(ByRegion, regions[i].name, gateways);
          members != [] && regions[i] == Region(regions[i].name, country, SortByPerf(members), kind, AnyQuic(members)))
    && (forall i, j :: 0 <= i < j < |regions| ==> regions[i].name != regions[j].name)
    && (forall g :: g in gateways ==> exists i :: 0 <= i < |regions| && regions[i].name == g.region)
    && Sorted(RegionOrder(nameLe), regions)
  }

  lemma FoldedCodes(m: map<string, GatewaysByCountry>, gateways: seq<Gateway>, kind: GatewayType)
    requires CountriesFolded(m, gateways, kind)
    ensures forall code :: code in m ==> m[code].country.code == code
  {
    hide Members, AnyQuic;
    forall code | code in m
      ensures m[code].country.code == code
    {
      MembersKeys(ByCountryCode, code, gateways);
    }
  }

  method GroupByCountry(gateways: seq<Gateway>, kind: GatewayType, nameLe: (string, string) -> bool)
    returns (groups: seq<GatewaysByCountry>)
    requires TotalPreorder(nameLe)
    ensures CountryGroups(groups, gateways, kind, nameLe)
  {
    hide Members, AnyQuic, Sort, TotalPreorder;
    var m := FoldCountries(gateways, kind);
    FoldedCodes(m, gateways, kind);
    var values := IntoValues(m);
    groups := Sort(CountryOrder(nameLe), values);
    SortKeeps(CountryOrder(nameLe), values);
    OrdersByName(nameLe);
    SortSorted(CountryOrder(nameLe), values);
    forall i | 0 <= i < |groups|
      ensures groups[i].country.code in m && groups[i] == m[groups[i].country.code]
    {
      assert groups[i] in groups;
    }
    forall g | g in gateways
      ensures exists i :: 0 <= i < |groups| && groups[i].country.code == g.country.code
    {
      assert m[g.country.code] in groups;
    }
  }

  /** The regions of the fold, put into order: each name that occurs once. */
  ghost predicate RegionsInOrder(sorted: seq<Region>, m: map<string, Region>, nameLe: (string, string) -> bool) {
    && (forall i :: 0 <= i < |sorted| ==> sorted[i].name in m && sorted[i] == m[sorted[i].name])
    && (forall i, j :: 0 <= i < j < |sorted| ==> sorted[i].name != sorted[j].name)
    && (forall name :: name in m ==> m[name] in sorted)
    && Sorted(RegionOrder(nameLe), sorted)
  }

  lemma SortedRegions(m: map<string, Region>, values: seq<Region>, nameLe: (string, string) -> bool)
    requires TotalPreorder(nameLe)
    requires forall name :: name in m ==> m[name].name == name
    requires forall v :: v in values <==> v in m.Values
    requires forall i, j :: 0 <= i < j < |values| ==> values[i] != values[j]
    ensures RegionsInOrder(Sort(RegionOrder(nameLe), values), m, nameLe)
  {
    hide Sort, TotalPreorder;
    var sorted := Sort(RegionOrder(nameLe), values);
    OrdersByName(nameLe);
    SortKeeps(RegionOrder(nameLe), values);
    SortSorted(RegionOrder(nameLe), values);
    forall i | 0 <= i < |sorted|
      ensures sorted[i].name in m && sorted[i] == m[sorted[i].name]
    {
      assert sorted[i] in sorted;
    }
  }

  lemma RegionGroupsFromFold(regions: seq<Region>, sorted: seq<Region>, m: map<string, Region>, country: Country,
                             gateways: seq<Gateway>, kind: GatewayType, nameLe: (string, string) -> bool)
    requires RegionsFolded(m, country, gateways, kind) && RegionsInOrder(sorted, m, nameLe)
    requires |regions| == |sorted|
    requires forall j :: 0 <= j < |sorted| ==> regions[j] == sorted[j].(gateways := SortByPerf(sorted[j].gateways))
    ensures RegionGroups(regions, country, gateways, kind, nameLe)
  {
    hide Members, AnyQuic, SortByPerf;
    forall g | g in gateways
      ensures exists i :: 0 <= i < |regions| && regions[i].name == g.region
    {
      assert m[g.region] in sorted;
      var i :| 0 <= i < |sorted| && sorted[i] == m[g.region];
      assert regions[i].name == g.region;
    }
  }

  method RegionsOf(country: Country, gateways: seq<Gateway>, kind: GatewayType, nameLe: (string, string) -> bool)
    returns (regions: seq<Region>)
    requires TotalPreorder(nameLe)
    ensures RegionGroups(regions, country, gateways, kind, nameLe)
  {
    hide Members, AnyQuic, Sort, TotalPreorder, RegionsInOrder, RegionGroups;
    var m := FoldRegions(country, gateways, kind);
    var values := IntoValues(m);
    var sorted := Sort(RegionOrder(nameLe), values);
    SortedRegions(m, values, nameLe);
    regions := [];
    for i := 0 to |sorted|
      invariant |regions| == i
      invariant forall j :: 0 <= j < i ==> regions[j] == sorted[j].(gateways := SortByPerf(sorted[j].gateways))
    {
      regions := regions + [sorted[i].(gateways := SortByPerf(sorted[i].gateways))];
    }
    RegionGroupsFromFold(regions, sorted, m, country, gateways, kind, nameLe);
  }

  method GroupByRegion(countries: seq<GatewaysByCountry>, kind: GatewayType, nameLe: (string, string) -> bool)
    returns (r: seq<GatewaysByCountry>)
    requires TotalPreorder(nameLe)
    ensures |r| == |countries|
    ensures forall i :: 0 <= i < |r| ==>
              && r[i] == countries[i].(regions := r[i].regions)
              && RegionGroups(r[i].regions, countries[i].country, countries[i].gateways, kind, nameLe)
  {
    hide RegionGroups;
    r := [];
    for i := 0 to |countries|
      invariant |r| == i
      invariant forall j :: 0 <= j < i ==>
                  && r[j] == countries[j].(regions := r[j].regions)
                  && RegionGroups(r[j].regions, countries[j].country, countries[j].gateways, kind, nameLe)
    {
      var byRegion := RegionsOf(countries[i].country, countries[i].gateways, kind, nameLe);
      r := r + [countries[i].(regions := byRegion)];
    }
  }

  method SortCountriesGw(countries: seq<GatewaysByCountry>) returns (r: seq<GatewaysByCountry>)
    ensures |r| == |countries|
    ensures forall i :: 0 <= i < |r| ==> r[i] == countries[i].(gateways := SortByPerf(countries[i].gateways))
  {
    r := countries;
    for i := 0 to |countries|
      invariant |r| == |countries|
      invariant forall j :: 0 <= j < |r| ==>
                  r[j] == if j < i then countries[j].(gateways := SortByPerf(countries[j].gateways)) else countries[j]
    {
      r := r[i := r[i].(gateways := SortByPerf(r[i].gateways))];
    }
  }

  /** A country of the final list. */
  ghost predicate ListedCountry(c: GatewaysByCountry, gateways: seq<Gateway>, kind: GatewayType,
                                nameLe: (string, string) -> bool) {
    var members := Members(ByCountryCode, c.country.code, gateways);
    && members != []
    && c == GatewaysByCountry(members[0].country, c.regions, SortByPerf(members), kind, AnyQuic(members))
    && RegionGroups(c.regions, c.country, members, kind, nameLe)
  }

  /** The list that get_gateways returns: each country code that occurs once, in the order of names. */
  ghost predicate Listed(list: seq<GatewaysByCountry>, gateways: seq<Gateway>, kind: GatewayType,
                         nameLe: (string, string) -> bool) {
    && (forall i :: 0 <= i < |list| ==> ListedCountry(list[i], gateways, kind, nameLe))
    && (forall i, j :: 0 <= i < j < |list| ==> list[i].country.code != list[j].country.code)
    && (forall g :: g in gateways ==> exists i :: 0 <= i < |list| && list[i].country.code == g.country.code)
    && Sorted(CountryOrder(nameLe), list)
  }

  lemma ListedFromGroups(list: seq<GatewaysByCountry>, groups: seq<GatewaysByCountry>, gateways: seq<Gateway>,
                         kind: GatewayType, nameLe: (string, string) -> bool)
    requires CountryGroups(groups, gateways, kind, nameLe) && |list| == |groups|
    requires forall i :: 0 <= i < |list| ==>
               && list[i] == groups[i].(regions := list[i].regions, gateways := SortByPerf(groups[i].gateways))
               && RegionGroups(list[i].regions, groups[i].country, groups[i].gateways, kind, nameLe)
    ensures Listed(list, gateways, kind, nameLe)
  {
    hide Members, AnyQuic, SortByPerf, RegionGroups;
    forall g | g in gateways
      ensures exists i :: 0 <= i < |list| && list[i].country.code == g.country.code
    {
      var i :| 0 <= i < |groups| && groups[i].country.code == g.country.code;
      assert list[i].country.code == g.country.code;
    }
  }

  method GetGateways(gateways: seq<Gateway>, kind: GatewayType, nameLe: (string, string) -> bool)
    returns (list: seq<GatewaysByCountry>)
    requires TotalPreorder(nameLe)
    ensures Listed(list, gateways, kind, nameLe)
  {
    hide CountryGroups, RegionGroups, Listed, SortByPerf, TotalPreorder;
    var groups := GroupByCountry(gateways, kind, nameLe);
    var withRegions := GroupByRegion(groups, kind, nameLe);
    list := SortCountriesGw(withRegions);
    ListedFromGroups(list, groups, gateways, kind, nameLe);
  }

  // ----- What the list promises -----

  function ScoreOf(kind: GatewayType, g: Gateway): nat {
    match kind
    case Wg => Rank(g.wgScore)
    case _ => Rank(g.mxScore)
  }

  function BestFirst(kind: GatewayType): (Gateway, Gateway) -> bool {
    (a: Gateway, b: Gateway) => ScoreOf(kind, a) >= ScoreOf(kind, b)
  }

  /** On gateways of one kind the comparison is an order, and so the sort is the only stable one. */
  lemma SortByPerfStable(gateways: seq<Gateway>, kind: GatewayType)
    requires OfKind(gateways, kind)
    ensures TotalPreorder(BestFirst(kind)) && SortByPerf(gateways) == Sort(BestFirst(kind), gateways)
    ensures Sorted(BestFirst(kind), SortByPerf(gateways))
    ensures forall g :: Equals(BestFirst(kind), g, SortByPerf(gateways)) == Equals(BestFirst(kind), g, gateways)
  {
    SortAgrees(PerfBefore, BestFirst(kind), gateways);
    SortSorted(BestFirst(kind), gateways);
    forall g
      ensures Equals(BestFirst(kind), g, Sort(BestFirst(kind), gateways)) == Equals(BestFirst(kind), g, gateways)
    {
      SortStable(BestFirst(kind), gateways, g);
    }
  }

  predicate BetterScore(a: Score, b: Score) {
    match a
    case High => b == Medium || b == Low || b == Offline
    case Medium => b == Low || b == Offline
    case Low => b == Offline
    case Offline => false
  }

  /** WireGuard gateways compare by their own score, all others by that of the mixnet. */
  predicate Better(kind: GatewayType, a: Gateway, b: Gateway) {
    if kind == Wg then BetterScore(a.wgScore, b.wgScore) else BetterScore(a.mxScore, b.mxScore)
  }

  /** No gateway comes before one that is better. */
  predicate BestComeFirst(kind: GatewayType, gateways: seq<Gateway>) {
    forall i, j :: 0 <= i < j < |gateways| ==> !Better(kind, gateways[j], gateways[i])
  }

  lemma SortByPerfBestFirst(gateways: seq<Gateway>, kind: GatewayType)
    requires OfKind(gateways, kind)
    ensures BestComeFirst(kind, SortByPerf(gateways))
  {
    hide SortByPerf;
    SortByPerfStable(gateways, kind);
    var sorted := SortByPerf(gateways);
    forall i, j | 0 <= i < j < |sorted|
      ensures !Better(kind, sorted[j], sorted[i])
    {
      assert BestFirst(kind)(sorted[i], sorted[j]);
    }
  }

  lemma MembersOfKind(field: Field, key: string, gateways: seq<Gateway>, kind: GatewayType)
    requires OfKind(gateways, kind)
    ensures OfKind(Members(field, key, gateways), kind)
  {
    hide Filter;
    MembersKeys(field, key, gateways);
  }

  lemma SortByPerfMembers(field: Field, key: string, gateways: seq<Gateway>, kind: GatewayType)
    requires OfKind(gateways, kind)
    ensures SortByPerf(Members(field, key, gateways)) == Members(field, key, SortByPerf(gateways))
  {
    SortByPerfStable(gateways, kind);
    MembersOfKind(field, key, gateways, kind);
    SortByPerfStable(Members(field, key, gateways), kind);
    FilterCommutesWithSort(BestFirst(kind), HasKey(field, key), gateways);
  }

  /** Each region's list is its country's list without the gateways of other regions: same gateways,
      same order, though the two are built and sorted apart. */
  lemma RegionsFilterCountries(list: seq<GatewaysByCountry>, gateways: seq<Gateway>, kind: GatewayType,
                               nameLe: (string, string) -> bool, i: nat, j: nat)
    requires OfKind(gateways, kind) && Listed(list, gateways, kind, nameLe)
    requires i < |list| && j < |list[i].regions|
    ensures list[i].regions[j].gateways == Members(ByRegion, list[i].regions[j].name, list[i].gateways)
    ensures list[i].gateways == Members(ByCountryCode, list[i].country.code, SortByPerf(gateways))
  {
    hide Members, AnyQuic, SortByPerf;
    var code := list[i].country.code;
    var ofCountry := Members(ByCountryCode, code, gateways);
    MembersOfKind(ByCountryCode, code, gateways, kind);
    SortByPerfMembers(ByRegion, list[i].regions[j].name, ofCountry, kind);
    SortByPerfMembers(ByCountryCode, code, gateways, kind);
  }

  /** Every list that is shown, of a country or of a region, puts the best gateways first. */
  lemma ListedBestFirst(list: seq<GatewaysByCountry>, gateways: seq<Gateway>, kind: GatewayType,
                        nameLe: (string, string) -> bool)
    requires OfKind(gateways, kind) && Listed(list, gateways, kind, nameLe)
    ensures forall i :: 0 <= i < |list| ==>
              && BestComeFirst(kind, list[i].gateways)
              && forall j :: 0 <= j < |list[i].regions| ==> BestComeFirst(kind, list[i].regions[j].gateways)
  {
    hide Members, AnyQuic, SortByPerf, BestComeFirst, OfKind;
    forall i | 0 <= i < |list|
      ensures BestComeFirst(kind, list[i].gateways)
      ensures forall j :: 0 <= j < |list[i].regions| ==> BestComeFirst(kind, list[i].regions[j].gateways)
    {
      var ofCountry := Members(ByCountryCode, list[i].country.code, gateways);
      MembersOfKind(ByCountryCode, list[i].country.code, gateways, kind);
      SortByPerfBestFirst(ofCountry, kind);
      forall j | 0 <= j < |list[i].regions|
        ensures BestComeFirst(kind, list[i].regions[j].gateways)
      {
        MembersOfKind(ByRegion, list[i].regions[j].name, ofCountry, kind);
        SortByPerfBestFirst(Members(ByRegion, list[i].regions[j].name, ofCountry), kind);
      }
    }
  }

  /** The first gateway with this code. */
  predicate FirstWithCode(gateways: seq<Gateway>, code: string, first: nat) {
    && first < |gateways| && gateways[first].country.code == code
    && forall k :: 0 <= k < first ==> gateways[k].country.code != code
  }

  lemma {:induction false} FirstMember(gateways: seq<Gateway>, code: string) returns (first: nat)
    requires Members(ByCountryCode, code, gateways) != []
    ensures FirstWithCode(gateways, code, first) && gateways[first] == Members(ByCountryCode, code, gateways)[0]
  {
    if gateways[0].country.code == code {
      first := 0;
    } else {
      var k := FirstMember(gateways[1..], code);
      first := k + 1;
      forall i | 0 <= i < first
        ensures gateways[i].country.code != code
      {
        assert i > 0 ==> gateways[i] == gateways[1..][i - 1];
      }
    }
  }

  /** A region belongs to its country, and holds whatever belongs there. */
  ghost predicate RegionInPlace(r: Region, country: Country, gateways: seq<Gateway>, kind: GatewayType) {
    && r.kind == kind && r.country == country && r.gateways != []
    && forall g :: g in r.gateways <==> g in gateways && g.country.code == country.code && g.region == r.name
  }

  /** A country is described by its first gateway. It holds whatever belongs there, and so do its regions. */
  ghost predicate InPlace(c: GatewaysByCountry, gateways: seq<Gateway>, kind: GatewayType) {
    && c.kind == kind && c.gateways != []
    && (exists first: nat :: FirstWithCode(gateways, c.country.code, first) && c.country == gateways[first].country)
    && (forall g :: g in c.gateways <==> g in gateways && g.country.code == c.country.code)
    && forall j :: 0 <= j < |c.regions| ==> RegionInPlace(c.regions[j], c.country, gateways, kind)
  }

  lemma SortedMembers(field: Field, key: string, gateways: seq<Gateway>)
    ensures |SortByPerf(Members(field, key, gateways))| == |Members(field, key, gateways)|
    ensures forall g :: g in Members(field, key, gateways) <==> g in gateways && Key(field, g) == key
    ensures forall g :: g in SortByPerf(Members(field, key, gateways)) <==> g in gateways && Key(field, g) == key
  {
    hide Sort, Filter;
    SortKeeps(PerfBefore, Members(field, key, gateways));
    forall g {
      FilterMember(HasKey(field, key), gateways, g);
    }
  }

  lemma RegionsInPlace(c: GatewaysByCountry, gateways: seq<Gateway>, kind: GatewayType,
                       nameLe: (string, string) -> bool, j: nat)
    requires ListedCountry(c, gateways, kind, nameLe) && j < |c.regions|
    ensures RegionInPlace(c.regions[j], c.country, gateways, kind)
  {
    hide Members, AnyQuic, SortByPerf;
    SortedMembers(ByCountryCode, c.country.code, gateways);
    SortedMembers(ByRegion, c.regions[j].name, Members(ByCountryCode, c.country.code, gateways));
  }

  lemma ListedInPlace(list: seq<GatewaysByCountry>, gateways: seq<Gateway>, kind: GatewayType,
                      nameLe: (string, string) -> bool, i: nat)
    requires Listed(list, gateways, kind, nameLe) && i < |list|
    ensures InPlace(list[i], gateways, kind)
  {
    hide Members, AnyQuic, SortByPerf, RegionGroups, RegionInPlace;
    var c := list[i];
    var first := FirstMember(gateways, c.country.code);
    assert FirstWithCode(gateways, c.country.code, first) && c.country == gateways[first].country;
    SortedMembers(ByCountryCode, c.country.code, gateways);
    forall j | 0 <= j < |c.regions| {
      RegionsInPlace(c, gateways, kind, nameLe, j);
    }
  }

  /** Countries and regions are in the order of their names. */
  lemma ListedByName(list: seq<GatewaysByCountry>, gateways: seq<Gateway>, kind: GatewayType,
                     nameLe: (string, string) -> bool)
    requires Listed(list, gateways, kind, nameLe)
    ensures forall i, j :: 0 <= i < j < |list| ==> nameLe(list[i].country.name, list[j].country.name)
    ensures forall i :: 0 <= i < |list| ==>
              forall j, k :: 0 <= j < k < |list[i].regions| ==>
                nameLe(list[i].regions[j].name, list[i].regions[k].name)
  {
    hide Members, AnyQuic, SortByPerf;
    forall i, j | 0 <= i < j < |list|
      ensures nameLe(list[i].country.name, list[j].country.name)
    {
      assert CountryOrder(nameLe)(list[i], list[j]);
    }
    forall i, j, k | 0 <= i < |list| && 0 <= j < k < |list[i].regions|
      ensures nameLe(list[i].regions[j].name, list[i].regions[k].name)
    {
      assert RegionOrder(nameLe)(list[i].regions[j], list[i].regions[k]);
    }
  }

  lemma SortByPerfKeeps(gateways: seq<Gateway>)
    ensures multiset(SortByPerf(gateways)) == multiset(gateways)
    ensures AnyQuic(SortByPerf(gateways)) <==> AnyQuic(gateways)
  {
    SortMultiset(PerfBefore, gateways);
    SortKeeps(PerfBefore, gateways);
    if i :| 0 <= i < |gateways| && gateways[i].quic {
      assert gateways[i] in SortByPerf(gateways);
    }
    if i :| 0 <= i < |gateways| && SortByPerf(gateways)[i].quic {
      assert SortByPerf(gateways)[i] in gateways;
    }
  }

  /** A group is marked quic if and only if it lists a quic gateway. */
  ghost predicate ExactQuic(list: seq<GatewaysByCountry>) {
    forall i :: 0 <= i < |list| ==>
      && (list[i].quic <==> AnyQuic(list[i].gateways))
      && forall j :: 0 <= j < |list[i].regions| ==>
           (list[i].regions[j].quic <==> AnyQuic(list[i].regions[j].gateways))
  }

  lemma ListedExactQuic(list: seq<GatewaysByCountry>, gateways: seq<Gateway>, kind: GatewayType,
                        nameLe: (string, string) -> bool)
    requires Listed(list, gateways, kind, nameLe)
    ensures ExactQuic(list)
  {
    hide Members, AnyQuic, SortByPerf;
    forall i | 0 <= i < |list|
      ensures list[i].quic <==> AnyQuic(list[i].gateways)
      ensures forall j :: 0 <= j < |list[i].regions| ==>
                (list[i].regions[j].quic <==> AnyQuic(list[i].regions[j].gateways))
    {
      var ofCountry := Members(ByCountryCode, list[i].country.code, gateways);
      SortByPerfKeeps(ofCountry);
      forall j | 0 <= j < |list[i].regions|
        ensures list[i].regions[j].quic <==> AnyQuic(list[i].regions[j].gateways)
      {
        SortByPerfKeeps(Members(ByRegion, list[i].regions[j].name, ofCountry));
      }
    }
  }

  // ----- Nothing is lost, nothing is listed twice -----

  function Concat<T>(parts: seq<seq<T>>): seq<T> {
    if parts == [] then [] else Concat(parts[..|parts| - 1]) + parts[|parts| - 1]
  }

  lemma {:induction false} ConcatCount(field: Field, keys: seq<string>, parts: seq<seq<Gateway>>,
                                       gateways: seq<Gateway>, g: Gateway)
    requires |keys| == |parts|
    requires forall i, j :: 0 <= i < j < |keys| ==> keys[i] != keys[j]
    requires forall i :: 0 <= i < |keys| ==> multiset(parts[i]) == multiset(Members(field, keys[i], gateways))
    ensures multiset(Concat(parts))[g] == if Key(field, g) in keys then multiset(gateways)[g] else 0
  {
    hide Filter;
    if keys != [] {
      var n := |keys| - 1;
      ConcatCount(field, keys[..n], parts[..n], gateways, g);
      FilterCount(HasKey(field, keys[n]), gateways, g);
      assert keys == keys[..n] + [keys[n]];
    }
  }

  lemma ConcatPermutes(field: Field, keys: seq<string>, parts: seq<seq<Gateway>>, gateways: seq<Gateway>)
    requires |keys| == |parts|
    requires forall i, j :: 0 <= i < j < |keys| ==> keys[i] != keys[j]
    requires forall i :: 0 <= i < |keys| ==> multiset(parts[i]) == multiset(Members(field, keys[i], gateways))
    requires forall g :: g in gateways ==> Key(field, g) in keys
    ensures multiset(Concat(parts)) == multiset(gateways)
  {
    hide Members, Concat;
    forall g
      ensures multiset(Concat(parts))[g] == multiset(gateways)[g]
    {
      ConcatCount(field, keys, parts, gateways, g);
      if g !in gateways {
        assert g !in multiset(gateways);
      }
    }
  }

  function CountryLists(list: seq<GatewaysByCountry>): seq<seq<Gateway>> {
    seq(|list|, i requires 0 <= i < |list| => list[i].gateways)
  }

  function RegionLists(regions: seq<Region>): seq<seq<Gateway>> {
    seq(|regions|, i requires 0 <= i < |regions| => regions[i].gateways)
  }

  lemma CountriesPermute(list: seq<GatewaysByCountry>, gateways: seq<Gateway>, kind: GatewayType,
                         nameLe: (string, string) -> bool)
    requires Listed(list, gateways, kind, nameLe)
    ensures multiset(Concat(CountryLists(list))) == multiset(gateways)
  {
    hide Members, AnyQuic, SortByPerf, Concat, RegionGroups;
    var codes := seq(|list|, i requires 0 <= i < |list| => list[i].country.code);
    forall i | 0 <= i < |list|
      ensures multiset(CountryLists(list)[i]) == multiset(Members(ByCountryCode, codes[i], gateways))
    {
      SortByPerfKeeps(Members(ByCountryCode, codes[i], gateways));
    }
    forall g | g in gateways
      ensures g.country.code in codes
    {
      var i :| 0 <= i < |list| && list[i].country.code == g.country.code;
      assert codes[i] == g.country.code;
    }
    ConcatPermutes(ByCountryCode, codes, CountryLists(list), gateways);
  }

  lemma RegionsPermute(list: seq<GatewaysByCountry>, gateways: seq<Gateway>, kind: GatewayType,
                       nameLe: (string, string) -> bool, c: nat)
    requires Listed(list, gateways, kind, nameLe) && c < |list|
    ensures multiset(Concat(RegionLists(list[c].regions))) == multiset(list[c].gateways)
  {
    hide Members, AnyQuic, SortByPerf, Concat;
    var regions, ofCountry := list[c].regions, Members(ByCountryCode, list[c].country.code, gateways);
    SortByPerfKeeps(ofCountry);
    var names := seq(|regions|, i requires 0 <= i < |regions| => regions[i].name);
    forall i | 0 <= i < |regions|
      ensures multiset(RegionLists(regions)[i]) == multiset(Members(ByRegion, names[i], ofCountry))
    {
      SortByPerfKeeps(Members(ByRegion, names[i], ofCountry));
    }
    forall g | g in ofCountry
      ensures g.region in names
    {
      var i :| 0 <= i < |regions| && regions[i].name == g.region;
      assert names[i] == g.region;
    }
    ConcatPermutes(ByRegion, names, RegionLists(regions), ofCountry);
  }
}
