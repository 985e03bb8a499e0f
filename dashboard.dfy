/** The dashboard's statistics, recomputed from a full snapshot of both
    tables: vehicle count, km of the active vehicles, cost of the
    completed maintenances of the last 30 days, and two count-by-key
    groupings (maintenances by service type, vehicles by status). */
module Dashboard {
  import opened Wrappers
  import opened Fleet
  import opened Seqs

  const CostWindowDays := 30
  const ActiveColor := "#22c55e"
  const InMaintenanceColor := "#f59e0b"
  const InactiveColor := "#ef4444"
  const DefaultColor := "#6b7280"

  datatype StatusSlice = StatusSlice(status: string, count: nat, color: string)

  datatype Stats = Stats(
    totalVehicles: nat,
    totalKm: int,
    maintenanceCost: int,
    maintenancesByType: seq<Group<string>>,
    vehiclesByStatus: seq<StatusSlice>)

  const InitialStats := Stats(0, 0, 0, [], [])

  predicate IsActive(v: Vehicle)
  {
    v.status == Active
  }

  /** The maintenance query's `.eq("status", "Concluído")` and
      `.gte("service_date", thirtyDaysAgo)`; a null date never compares. */
  predicate InCostWindow(m: Maintenance, today: int)
  {
    m.status == Completed && m.serviceDate.Some? && m.serviceDate.value >= today - CostWindowDays
  }

  function CostWindow(today: int): Maintenance -> bool
  {
    m => InCostWindow(m, today)
  }

  /** The rows the cost and the type grouping are computed over; a failed
      query (`maintenances?.`) contributes no rows. */
  function CountedMaintenances(result: Option<seq<Maintenance>>, today: int): (r: seq<Maintenance>)
    ensures result.None? ==> r == []
    ensures result.Some? ==> IsSubseq(r, result.value)
    ensures result.Some? ==> forall m :: m in r <==>
      m in result.value && m.status == Completed && m.serviceDate.Some? && today - 30 <= m.serviceDate.value
    ensures result.Some? ==>
      forall m :: multiset(r)[m] == if InCostWindow(m, today) then multiset(result.value)[m] else 0
  {
    match result
    case None => []
    case Some(table) => Filter(table, CostWindow(today))
  }

  /** `parseFloat(m.cost) || 0`, in cents. */
  function CostOrZero(m: Maintenance): int
  {
    m.costCents.GetOr(0)
  }

  /** The km total: only active vehicles contribute, a missing km as 0. */
  function TotalKm(vs: seq<Vehicle>): (r: int)
    ensures r == SumWhere(vs, IsActive, KmOrZero)
  {
    SumFilter(vs, IsActive, KmOrZero);
    Sum(Filter(vs, IsActive), KmOrZero)
  }

  predicate HasCost(m: Maintenance)
  {
    m.costCents.Some?
  }

  /** The cost total: a row without a cost contributes nothing. */
  function MaintenanceCost(counted: seq<Maintenance>): (r: int)
    ensures r == SumWhere(counted, HasCost, CostOrZero)
  {
    SumSkipsZeros(counted, HasCost, CostOrZero);
    Sum(counted, CostOrZero)
  }

  /** The cost is the sum over the completed maintenances of the last 30
      days of the table, a missing cost as 0. */
  lemma {:induction false} CostWindowOnly(table: seq<Maintenance>, today: int)
    ensures MaintenanceCost(CountedMaintenances(Some(table), today))
         == SumWhere(table, CostWindow(today), CostOrZero)
  {
    SumFilter(table, CostWindow(today), CostOrZero);
  }

  /** A completed service dated exactly 30 days ago is counted, one dated 31 days ago is not. */
  lemma CostWindowBoundary(m: Maintenance, today: int)
    requires m.status == Completed
    ensures m.serviceDate == Some(today - 30) ==> InCostWindow(m, today)
    ensures m.serviceDate == Some(today - 31) ==> !InCostWindow(m, today)
  {
  }

  /** The colour table, with its default for any other status. */
  function StatusColor(status: string): (color: string)
    ensures status == Active ==> color == ActiveColor
    ensures status == InMaintenance ==> color == InMaintenanceColor
    ensures status == Inactive ==> color == InactiveColor
    ensures color == DefaultColor <==> status != Active && status != InMaintenance && status != Inactive
  {
    if status == Active then ActiveColor
    else if status == InMaintenance then InMaintenanceColor
    else if status == Inactive then InactiveColor
    else DefaultColor
  }

  function ServiceTypeOf(m: Maintenance): string
  {
    m.serviceType
  }

  function StatusOf(v: Vehicle): string
  {
    v.status
  }

  function HasServiceType(t: string): Maintenance -> bool
  {
    (m: Maintenance) => m.serviceType == t
  }

  function ServiceTypes(ms: seq<Maintenance>): (r: seq<string>)
    ensures |r| == |ms| && forall i :: 0 <= i < |ms| ==> r[i] == ms[i].serviceType
  {
    seq(|ms|, i requires 0 <= i < |ms| => ms[i].serviceType)
  }

  function Statuses(vs: seq<Vehicle>): (r: seq<string>)
    ensures |r| == |vs| && forall i :: 0 <= i < |vs| ==> r[i] == vs[i].status
  {
    seq(|vs|, i requires 0 <= i < |vs| => vs[i].status)
  }

  function Slices(gs: seq<Group<string>>): (r: seq<StatusSlice>)
    ensures |r| == |gs|
    ensures forall i :: 0 <= i < |gs| ==> r[i] == StatusSlice(gs[i].key, gs[i].count, StatusColor(gs[i].key))
  {
    seq(|gs|, i requires 0 <= i < |gs| => StatusSlice(gs[i].key, gs[i].count, StatusColor(gs[i].key)))
  }

  /** The `setStats` argument; its two groupings are the subjects of
      `TypeGroupsSpec` and `StatusGroupsSpec`. */
  function ComputeStats(vs: seq<Vehicle>, counted: seq<Maintenance>): (s: Stats)
    ensures s.totalVehicles == |vs|
    ensures s.totalKm == SumWhere(vs, IsActive, KmOrZero)
    ensures s.maintenanceCost == SumWhere(counted, HasCost, CostOrZero)
    ensures SumCounts(s.maintenancesByType) == |counted|
    ensures SumSliceCounts(s.vehiclesByStatus) == |vs|
    ensures s.maintenancesByType == Grouping(ServiceTypes(counted))
    ensures s.vehiclesByStatus == Slices(Grouping(Statuses(vs)))
  {
    GroupingTotal(ServiceTypes(counted));
    GroupingTotal(Statuses(vs));
    SlicesKeepCounts(Grouping(Statuses(vs)));
    Stats(|vs|, TotalKm(vs), MaintenanceCost(counted),
          Grouping(ServiceTypes(counted)), Slices(Grouping(Statuses(vs))))
  }

  /** The type grouping lists each service type of the counted rows
      exactly once, with its number of rows; the counts add up to the
      number of counted rows. */
  lemma TypeGroupsSpec(counted: seq<Maintenance>)
    ensures var gs := Grouping(ServiceTypes(counted));
      && (forall i, j :: 0 <= i < j < |gs| ==> gs[i].key != gs[j].key)
      && (forall m :: m in counted ==> exists i :: 0 <= i < |gs| && gs[i].key == m.serviceType)
      && (forall i :: 0 <= i < |gs| ==> exists m :: m in counted && m.serviceType == gs[i].key)
      && (forall i :: 0 <= i < |gs| ==> gs[i].count == |Filter(counted, HasServiceType(gs[i].key))|)
      && SumCounts(gs) == |counted|
  {
    var types := ServiceTypes(counted);
    GroupingTotal(types);
    TypeGroupsCover(counted);
    TypeGroupsCount(counted);
  }

  lemma TypeGroupsCover(counted: seq<Maintenance>)
    ensures var gs := Grouping(ServiceTypes(counted));
      && (forall m :: m in counted ==> exists i :: 0 <= i < |gs| && gs[i].key == m.serviceType)
      && (forall i :: 0 <= i < |gs| ==> exists m :: m in counted && m.serviceType == gs[i].key)
  {
    var types := ServiceTypes(counted);
    GroupingListsEveryKey(counted, ServiceTypeOf, types);
    GroupingListsOnlyKeys(counted, ServiceTypeOf, types);
  }

  lemma TypeGroupsCount(counted: seq<Maintenance>)
    ensures var gs := Grouping(ServiceTypes(counted));
      forall i :: 0 <= i < |gs| ==> gs[i].count == |Filter(counted, HasServiceType(gs[i].key))|
  {
    var types := ServiceTypes(counted);
    var gs := Grouping(types);
    forall i | 0 <= i < |gs| ensures gs[i].count == |Filter(counted, HasServiceType(gs[i].key))| {
      KeyCountIsFilterLength(counted, ServiceTypeOf, types, gs[i].key, HasServiceType(gs[i].key));
    }
  }

  /** The status grouping lists each vehicle status exactly once with its
      colour; the counts add up to `totalVehicles`. */
  lemma StatusGroupsSpec(vs: seq<Vehicle>)
    ensures var slices := Slices(Grouping(Statuses(vs)));
      && (forall i, j :: 0 <= i < j < |slices| ==> slices[i].status != slices[j].status)
      && (forall v :: v in vs ==> exists i :: 0 <= i < |slices| && slices[i].status == v.status)
      && (forall i :: 0 <= i < |slices| ==> exists v :: v in vs && v.status == slices[i].status)
      && (forall i :: 0 <= i < |slices| ==> slices[i].color == StatusColor(slices[i].status))
      && SumSliceCounts(slices) == |vs|
  {
    var statuses := Statuses(vs);
    GroupingTotal(statuses);
    SlicesKeepCounts(Grouping(statuses));
    SlicesListEveryStatus(vs);
    SlicesListOnlyStatuses(vs);
  }

  lemma SlicesListEveryStatus(vs: seq<Vehicle>)
    ensures var slices := Slices(Grouping(Statuses(vs)));
      forall v :: v in vs ==> exists i :: 0 <= i < |slices| && slices[i].status == v.status
  {
    var statuses := Statuses(vs);
    var gs := Grouping(statuses);
    var slices := Slices(gs);
    GroupingListsEveryKey(vs, StatusOf, statuses);
    forall v | v in vs ensures exists i :: 0 <= i < |slices| && slices[i].status == v.status {
      var i :| 0 <= i < |gs| && gs[i].key == StatusOf(v);
      assert slices[i].status == v.status;
    }
  }

  lemma SlicesListOnlyStatuses(vs: seq<Vehicle>)
    ensures var slices := Slices(Grouping(Statuses(vs)));
      forall i :: 0 <= i < |slices| ==> exists v :: v in vs && v.status == slices[i].status
  {
  }

  function SumSliceCounts(slices: seq<StatusSlice>): nat
  {
    if slices == [] then 0 else slices[0].count + SumSliceCounts(slices[1..])
  }

  lemma {:induction false} SlicesKeepCounts(gs: seq<Group<string>>)
    ensures SumSliceCounts(Slices(gs)) == SumCounts(gs)
  {
    if gs != [] {
      SlicesKeepCounts(gs[1..]);
      assert Slices(gs)[1..] == Slices(gs[1..]);
    }
  }

  /** The `forEach` that fills a record `groups[k] = (groups[k] || 0) + 1`:
      the record's counts, and its keys in first-insertion order. */
  method CountKeys(keys: seq<string>) returns (counts: map<string, nat>, order: seq<string>)
    ensures order == Distinct(keys)
    ensures Tallies(counts, keys)
  {
    counts := map[];
    order := [];
    var i := 0;
    while i < |keys|
      invariant 0 <= i <= |keys|
      invariant order == Distinct(keys[..i])
      invariant Tallies(counts, keys[..i])
    {
      var k := keys[i];
      CountStep(keys, i);
      TallyStep(counts, keys[..i], k);
      var seen := k in counts;
      if !seen {
        order := order + [k];
      }
      counts := counts[k := (if seen then counts[k] else 0) + 1];
      i := i + 1;
    }
    assert keys[..|keys|] == keys;
  }

  /** The record holds exactly the keys seen, each with its number of occurrences. */
  ghost predicate Tallies(counts: map<string, nat>, ks: seq<string>)
  {
    && (forall k :: k in counts <==> k in ks)
    && (forall k :: k in counts ==> counts[k] == multiset(ks)[k])
  }

  /** `groups[k] = (groups[k] || 0) + 1` keeps the record a tally. */
  lemma TallyStep(counts: map<string, nat>, ks: seq<string>, k: string)
    requires Tallies(counts, ks)
    ensures k in counts <==> k in ks
    ensures Tallies(counts[k := (if k in counts then counts[k] else 0) + 1], ks + [k])
  {
    assert multiset(ks + [k]) == multiset(ks) + multiset{k};
  }

  /** The record's `Object.entries`: the grouping of the keys. */
  method GroupCounts(keys: seq<string>) returns (groups: seq<Group<string>>)
    ensures groups == Grouping(keys)
  {
    var counts, order := CountKeys(keys);
    groups := seq(|order|, j requires 0 <= j < |order| => Group(order[j], counts[order[j]]));
    EntriesAreGrouping(keys, counts, order, groups);
  }

  /** `Object.entries` of the finished record, in first-insertion order,
      is the grouping of the keys. */
  lemma EntriesAreGrouping(keys: seq<string>, counts: map<string, nat>, order: seq<string>, groups: seq<Group<string>>)
    requires order == Distinct(keys)
    requires Tallies(counts, keys)
    requires |groups| == |order|
    requires forall j :: 0 <= j < |order| ==> groups[j] == Group(order[j], counts[order[j]])
    ensures groups == Grouping(keys)
  {
    assert forall j :: 0 <= j < |order| ==> groups[j] == GroupsOver(order, keys)[j];
  }

  /** One more key: it joins the key order only when it is new, and its
      count goes up by one. */
  lemma CountStep(keys: seq<string>, i: nat)
    requires i < |keys|
    ensures keys[..i + 1] == keys[..i] + [keys[i]]
    ensures Distinct(keys[..i + 1]) == if keys[i] in keys[..i] then Distinct(keys[..i]) else Distinct(keys[..i]) + [keys[i]]
  {
    assert keys[..i + 1] == keys[..i] + [keys[i]];
    assert keys[..i + 1][..i] == keys[..i];
  }

  class DashboardPage {
    var stats: Stats

    constructor ()
      ensures stats == InitialStats
    {
      stats := InitialStats;
    }

    /** `fetchDashboardData`: `vehicles` and `maintenances` are the two
        tables, `None` when a query returned no data. */
    method FetchDashboardData(vehicles: Option<seq<Vehicle>>, maintenances: Option<seq<Maintenance>>, today: int)
      modifies this
      ensures vehicles.None? ==> stats == old(stats)
      ensures vehicles.Some? ==> stats == ComputeStats(vehicles.value, CountedMaintenances(maintenances, today))
    {
      var counted := CountedMaintenances(maintenances, today);
      if vehicles.None? {
        return;
      }
      var vs := vehicles.value;
      var totalKm := TotalKm(vs);
      var cost := MaintenanceCost(counted);
      var byType := GroupCounts(ServiceTypes(counted));
      var statusGroups := GroupCounts(Statuses(vs));
      stats := Stats(|vs|, totalKm, cost, byType, Slices(statusGroups));
    }
  }
}
