/**
 * `Page` and `Dashboard` put together (app/page.tsx): the page filters its
 * records by the header controls and hands the `filtered` list to the
 * dashboard, which derives every card and chart from that list alone.
 */
module Page {
  import opened RfpTypes
  import opened Seqs
  import opened Filtering
  import opened Dashboard

  /** Every figure `Dashboard` derives from its records. */
  datatype DashboardView = DashboardView(
    active: nat,
    dueThisWeek: nat,
    overdue: nat,
    pipeline: seq<StageCount>,
    statusPie: seq<StatusSlice>,
    riskPie: seq<Slice>,
    byCategory: seq<CategoryCount>,
    budgetBySite: seq<Slice>,
    vendorParticipation: seq<Participation>,
    alerts: seq<Alert>,
    dueSoon: seq<Rfp>)

  /**
   * `v` is the dashboard of `rfps`: every card, chart and list is the
   * figure the model defines for those records. The figures agree with
   * one another: the active card and the "Awarded" stage make up the whole
   * list, the pipeline and the status pie count alike, the overdue card
   * never exceeds the active card, nothing is both due this week and
   * overdue, and the only "ok" alert stands alone exactly when the three
   * attention lists are empty.
   */
  ghost predicate IsDashboardOf(v: DashboardView, rfps: seq<Rfp>, today: int) {
    && v.active == |Active(rfps)|
    && v.dueThisWeek == |DueThisWeek(rfps, today)| && v.overdue == |Overdue(rfps, today)|
    && |v.pipeline| == 7 && |v.statusPie| == 7
    && (forall k :: 0 <= k < 7 ==> v.pipeline[k].stage == StatusOrder[k] && v.statusPie[k].name == StatusOrder[k])
    && StageCounts(v.pipeline) == Tally(rfps, StatusOf, StatusOrder)
    && Sum(StageCounts(v.pipeline)) == |rfps|
    && SliceCounts(v.statusPie) == StageCounts(v.pipeline)
    && v.active + v.pipeline[6].count == |rfps|
    && v.overdue <= v.active
    && v.dueThisWeek + v.overdue <= |rfps|
    && |v.riskPie| == 3
    && (forall k :: 0 <= k < 3 ==> v.riskPie[k] == Slice(RiskLabel(RiskBuckets[k]), Count(rfps, RiskOf, RiskBuckets[k])))
    && SumOf(v.riskPie, SliceValue) == |rfps|
    && CategoryNames(v.byCategory) == FirstSeen(rfps, CategoryOf)
    && CategoryCounts(v.byCategory) == Tally(rfps, CategoryOf, FirstSeen(rfps, CategoryOf))
    && Sum(CategoryCounts(v.byCategory)) == |rfps|
    && v.budgetBySite == SortBy(SiteTotals(rfps), NegValue)
    && v.vendorParticipation == VendorParticipation(rfps)
    && v.dueSoon == DueSoon(rfps)
    && v.alerts == AlertList(v.dueThisWeek, v.overdue, |MissingApprovals(rfps)|)
    && 1 <= |v.alerts| <= 3
    && (v.alerts == [NoCriticalAlerts] <==> v.dueThisWeek == 0 && v.overdue == 0 && |MissingApprovals(rfps)| == 0)
  }

  /** The dashboard of a list of records. */
  method ComputeDashboard(rfps: seq<Rfp>, today: int) returns (v: DashboardView)
    ensures IsDashboardOf(v, rfps, today)
  {
    var pipeline := Pipeline(rfps);
    var statusPie := StatusPie(rfps);
    var riskPie := RiskPie(rfps);
    var byCategory := ByCategory(rfps);
    var budgetBySite := BudgetBySite(rfps);
    var alerts := Alerts(rfps, today);
    ActivePlusAwarded(rfps);
    OverdueAtMostActive(rfps, today);
    DueAndOverdueDisjoint(rfps, today);
    assert StageCounts(pipeline)[6] == Count(rfps, StatusOf, StatusOrder[6]);
    v := DashboardView(|Active(rfps)|, |DueThisWeek(rfps, today)|, |Overdue(rfps, today)|,
                       pipeline, statusPie, riskPie, byCategory, budgetBySite,
                       VendorParticipation(rfps), alerts, DueSoon(rfps));
  }

  /**
   * The page: the records the header controls select, and the dashboard
   * of exactly those records. With the initial controls every record is
   * shown and counted.
   */
  method ShowPage(records: seq<Rfp>, c: Criteria, today: int) returns (shown: seq<Rfp>, v: DashboardView)
    ensures shown == FilterRecords(records, c)
    ensures IsDashboardOf(v, shown, today)
    ensures forall x :: x in shown <==> x in records && Matches(x, c)
    ensures Sum(StageCounts(v.pipeline)) == |shown| <= |records|
    ensures v.active <= |shown| && v.overdue <= v.active
    ensures c == Unfiltered ==> shown == records && Sum(StageCounts(v.pipeline)) == |records|
  {
    shown := FilterRecords(records, c);
    if c == Unfiltered {
      UnfilteredShowsAll(records);
    }
    v := ComputeDashboard(shown, today);
  }
}
