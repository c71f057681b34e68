/**
 * The derived figures of `Dashboard` (app/page.tsx), all computed over the
 * list of records it is given: the date buckets, the per-stage pipeline and
 * status pie, the risk pie, counts per category, budget per site, recent
 * vendor participation, the alert list and the due-soon list.
 *
 * The buckets and lists that the source writes as `filter`/`sort`/`slice`
 * chains are functions. The tallies that the source accumulates with
 * `forEach` into a dictionary are methods with loops, proved against the
 * counting and summing functions of module Seqs. The alert list, which the
 * source grows with a fixed sequence of conditional `push` calls, is a
 * method without a loop, proved against the function `AlertList`.
 *
 * `today` is the day number of the current calendar day; the source reads
 * it from the clock.
 */
module Dashboard {
  import opened RfpTypes
  import opened Seqs
  import opened Text

  /****************************************************************
   * Date buckets
   ****************************************************************/

  /**
   * Whole days from `today` until `day`: zero on the day itself, negative
   * once it has passed, and counting that many days on from `today` lands
   * on `day`.
   */
  function DaysUntil(day: int, today: int): (d: int)
    ensures d < 0 <==> day < today
    ensures d == 0 <==> day == today
    ensures today + d == day
  {
    day - today
  }

  predicate IsActive(r: Rfp) { r.status != Awarded }

  predicate IsDueThisWeek(r: Rfp, today: int) {
    var d := DaysUntil(r.dueDate, today);
    d >= 0 && d <= 7
  }

  predicate IsOverdue(r: Rfp, today: int) {
    DaysUntil(r.dueDate, today) < 0 && r.status != Awarded
  }

  predicate IsMissingApprovals(r: Rfp) {
    !r.approvals.finance || !r.approvals.legal || !r.approvals.head
  }

  /** The tests of the two date buckets, for a fixed `today`. */
  function DueTest(today: int): Rfp -> bool { x => IsDueThisWeek(x, today) }
  function OverdueTest(today: int): Rfp -> bool { x => IsOverdue(x, today) }

  /*
   * Each bucket holds every record that passes its test exactly as often
   * as the input does, and nothing else; so its length, which the cards
   * and alerts show, is the number of positions whose record passes.
   */

  /** `active`: the records not yet awarded. */
  function Active(rfps: seq<Rfp>): (r: seq<Rfp>)
    ensures forall x :: x in r <==> x in rfps && x.status != Awarded
    ensures forall x :: multiset(r)[x] == if x.status != Awarded then multiset(rfps)[x] else 0
    ensures |r| == Count(rfps, IsActive, true)
  {
    FilterMultiset(rfps, IsActive);
    FilterCount(rfps, IsActive);
    Filter(rfps, IsActive)
  }

  /** `dueThisWeek`: exactly the records due between today and a week from today. */
  function DueThisWeek(rfps: seq<Rfp>, today: int): (r: seq<Rfp>)
    ensures forall x :: x in r <==> x in rfps && 0 <= DaysUntil(x.dueDate, today) <= 7
    ensures forall x :: multiset(r)[x] == if 0 <= DaysUntil(x.dueDate, today) <= 7 then multiset(rfps)[x] else 0
    ensures |r| == Count(rfps, DueTest(today), true)
  {
    FilterMultiset(rfps, DueTest(today));
    FilterCount(rfps, DueTest(today));
    Filter(rfps, DueTest(today))
  }

  /** `overdue`: the records past their due date, except those already awarded. */
  function Overdue(rfps: seq<Rfp>, today: int): (r: seq<Rfp>)
    ensures forall x :: x in r <==> x in rfps && DaysUntil(x.dueDate, today) < 0 && x.status != Awarded
    ensures forall x ::
      multiset(r)[x] == (if DaysUntil(x.dueDate, today) < 0 && x.status != Awarded then multiset(rfps)[x] else 0)
    ensures |r| == Count(rfps, OverdueTest(today), true)
  {
    FilterMultiset(rfps, OverdueTest(today));
    FilterCount(rfps, OverdueTest(today));
    Filter(rfps, OverdueTest(today))
  }

  /** `missingApprovals`: the records lacking at least one of the three sign-offs. */
  function MissingApprovals(rfps: seq<Rfp>): (r: seq<Rfp>)
    ensures forall x :: x in r <==> x in rfps && !(x.approvals.finance && x.approvals.legal && x.approvals.head)
    ensures forall x ::
      multiset(r)[x] == (if !(x.approvals.finance && x.approvals.legal && x.approvals.head) then multiset(rfps)[x] else 0)
    ensures |r| == Count(rfps, IsMissingApprovals, true)
  {
    FilterMultiset(rfps, IsMissingApprovals);
    FilterCount(rfps, IsMissingApprovals);
    Filter(rfps, IsMissingApprovals)
  }

  /** The active records and the awarded ones make up the whole list. */
  lemma {:induction false} ActivePlusAwarded(rfps: seq<Rfp>)
    ensures |Active(rfps)| + Count(rfps, StatusOf, Awarded) == |rfps|
  {
    if rfps != [] {
      ActivePlusAwarded(rfps[..|rfps|-1]);
    }
  }

  /** An overdue record is active and not due this week. */
  lemma OverdueIsActiveNotDue(rfps: seq<Rfp>, today: int)
    ensures forall x :: x in Overdue(rfps, today) ==> x in Active(rfps) && x !in DueThisWeek(rfps, today)
  {
  }

  /** The overdue card never shows more records than the active card. */
  lemma OverdueAtMostActive(rfps: seq<Rfp>, today: int)
    ensures |Overdue(rfps, today)| <= |Active(rfps)|
  {
    FilterStronger(rfps, OverdueTest(today), IsActive);
  }

  /** No record is both due this week and overdue, so the two cards add up to at most the whole list. */
  lemma DueAndOverdueDisjoint(rfps: seq<Rfp>, today: int)
    ensures |DueThisWeek(rfps, today)| + |Overdue(rfps, today)| <= |rfps|
  {
    FilterDisjoint(rfps, DueTest(today), OverdueTest(today));
  }

  /****************************************************************
   * Pipeline and status pie
   ****************************************************************/

  datatype StageCount = StageCount(stage: Status, count: nat)

  datatype StatusSlice = StatusSlice(name: Status, value: nat)

  function StageCounts(p: seq<StageCount>): (c: seq<nat>)
    ensures |c| == |p| && forall k :: 0 <= k < |p| ==> c[k] == p[k].count
  {
    seq(|p|, k requires 0 <= k < |p| => p[k].count)
  }

  function SliceCounts(p: seq<StatusSlice>): (c: seq<nat>)
    ensures |c| == |p| && forall k :: 0 <= k < |p| ==> c[k] == p[k].value
  {
    seq(|p|, k requires 0 <= k < |p| => p[k].value)
  }

  /**
   * The `counts` dictionary shared by `pipeline` and `statusPie`: every
   * status starts at 0 and each record adds one to its own status.
   */
  method TallyStatuses(rfps: seq<Rfp>) returns (counts: map<Status, nat>)
    ensures forall s: Status :: s in counts && counts[s] == Count(rfps, StatusOf, s)
  {
    StatusOrderComplete();
    counts := map s | s in StatusOrder :: 0;
    var i := 0;
    while i < |rfps|
      invariant 0 <= i <= |rfps|
      invariant forall s: Status :: s in counts && counts[s] == Count(rfps[..i], StatusOf, s)
    {
      var st := rfps[i].status;
      assert rfps[..i + 1][..i] == rfps[..i];
      counts := counts[st := counts[st] + 1];
      i := i + 1;
    }
    assert rfps[..|rfps|] == rfps;
  }

  /**
   * `pipeline`: one entry per stage, in `statusOrder`, zero counts included;
   * the counts add up to the number of records.
   */
  method Pipeline(rfps: seq<Rfp>) returns (pipeline: seq<StageCount>)
    ensures |pipeline| == |StatusOrder| == 7
    ensures forall k :: 0 <= k < |pipeline| ==> pipeline[k].stage == StatusOrder[k]
    ensures StageCounts(pipeline) == Tally(rfps, StatusOf, StatusOrder)
    ensures Sum(StageCounts(pipeline)) == |rfps|
  {
    var counts := TallyStatuses(rfps);
    pipeline := seq(|StatusOrder|, k requires 0 <= k < |StatusOrder| =>
                      StageCount(StatusOrder[k], counts[StatusOrder[k]]));
    StatusOrderComplete();
    TallyPartition(rfps, StatusOf, StatusOrder);
  }

  /** `statusPie`: the same counts as `pipeline`, as pie slices. */
  method StatusPie(rfps: seq<Rfp>) returns (pie: seq<StatusSlice>)
    ensures |pie| == |StatusOrder|
    ensures forall k :: 0 <= k < |pie| ==> pie[k].name == StatusOrder[k]
    ensures SliceCounts(pie) == Tally(rfps, StatusOf, StatusOrder)
    ensures Sum(SliceCounts(pie)) == |rfps|
  {
    var counts := TallyStatuses(rfps);
    pie := seq(|StatusOrder|, k requires 0 <= k < |StatusOrder| =>
                 StatusSlice(StatusOrder[k], counts[StatusOrder[k]]));
    StatusOrderComplete();
    TallyPartition(rfps, StatusOf, StatusOrder);
  }

  /****************************************************************
   * Risk pie
   ****************************************************************/

  /** A named value of a chart: a pie slice or a bar. */
  datatype Slice = Slice(name: string, value: int)

  function SliceValue(e: Slice): int { e.value }
  function SliceName(e: Slice): string { e.name }

  /** The risk values in the order the pie lists their buckets. */
  const RiskBuckets: seq<Risk> := [NoRisk, AtRisk, OverdueRisk]

  /** The risk `map` counts the records of `seen` per bucket. */
  ghost predicate RiskTallied(seen: seq<Rfp>, m: map<string, nat>) {
    && "On track" in m && "At risk" in m && "Overdue" in m
    && m["On track"] == Count(seen, RiskOf, NoRisk)
    && m["At risk"] == Count(seen, RiskOf, AtRisk)
    && m["Overdue"] == Count(seen, RiskOf, OverdueRisk)
  }

  /**
   * The callback of the `forEach` over the records: "None" increments
   * "On track", "At Risk" increments "At risk", anything else "Overdue".
   */
  method AddRisk(ghost seen: seq<Rfp>, m: map<string, nat>, r: Rfp) returns (m': map<string, nat>)
    requires RiskTallied(seen, m)
    ensures RiskTallied(seen + [r], m')
  {
    CountAppend(seen, r, RiskOf, NoRisk);
    CountAppend(seen, r, RiskOf, AtRisk);
    CountAppend(seen, r, RiskOf, OverdueRisk);
    if r.risk == NoRisk {
      m' := m["On track" := m["On track"] + 1];
    } else if r.risk == AtRisk {
      m' := m["At risk" := m["At risk"] + 1];
    } else {
      m' := m["Overdue" := m["Overdue"] + 1];
    }
  }

  /**
   * `riskPie`: the buckets "On track", "At risk", "Overdue", in that order,
   * counting the records whose risk is None, At Risk and Overdue; the
   * counts add up to the number of records.
   */
  method RiskPie(rfps: seq<Rfp>) returns (pie: seq<Slice>)
    ensures |pie| == 3
    ensures pie[0].name == "On track" && pie[1].name == "At risk" && pie[2].name == "Overdue"
    ensures forall k :: 0 <= k < 3 ==>
      pie[k].name == RiskLabel(RiskBuckets[k]) && pie[k].value == Count(rfps, RiskOf, RiskBuckets[k])
    ensures SumOf(pie, SliceValue) == |rfps|
  {
    var m: map<string, nat> := map["On track" := 0, "At risk" := 0, "Overdue" := 0];
    var i := 0;
    while i < |rfps|
      invariant 0 <= i <= |rfps|
      invariant RiskTallied(rfps[..i], m)
    {
      assert rfps[..i + 1] == rfps[..i] + [rfps[i]];
      m := AddRisk(rfps[..i], m, rfps[i]);
      i := i + 1;
    }
    assert rfps[..|rfps|] == rfps;
    pie := [Slice("On track", m["On track"]), Slice("At risk", m["At risk"]), Slice("Overdue", m["Overdue"])];
    RiskBucketsPartition(rfps);
    SumOfThree(pie[0], pie[1], pie[2], SliceValue);
  }

  /** Every record falls in exactly one of the three risk buckets. */
  lemma {:induction false} RiskBucketsPartition(rfps: seq<Rfp>)
    ensures Count(rfps, RiskOf, NoRisk) + Count(rfps, RiskOf, AtRisk) + Count(rfps, RiskOf, OverdueRisk) == |rfps|
  {
    if rfps != [] {
      var last := rfps[|rfps| - 1];
      RiskBucketsPartition(rfps[..|rfps| - 1]);
      assert RiskOf(last) == last.risk;
    }
  }

  /****************************************************************
   * Counts per category
   ****************************************************************/

  datatype CategoryCount = CategoryCount(name: string, count: nat)

  function CategoryNames(c: seq<CategoryCount>): (n: seq<string>)
    ensures |n| == |c| && forall k :: 0 <= k < |c| ==> n[k] == c[k].name
  {
    seq(|c|, k requires 0 <= k < |c| => c[k].name)
  }

  function CategoryCounts(c: seq<CategoryCount>): (n: seq<nat>)
    ensures |n| == |c| && forall k :: 0 <= k < |c| ==> n[k] == c[k].count
  {
    seq(|c|, k requires 0 <= k < |c| => c[k].count)
  }

  /**
   * The callback of the `forEach` over the records: the record's category
   * is incremented, and appended to the keys when it is new.
   */
  method AddCategory(ghost seen: seq<Rfp>, names: seq<string>, agg: map<string, nat>, r: Rfp)
    returns (names': seq<string>, agg': map<string, nat>)
    requires Tallied(seen, CategoryOf, names, agg)
    ensures Tallied(seen + [r], CategoryOf, names', agg')
  {
    names' := names;
    if r.category !in agg {
      names' := names + [r.category];
    }
    agg' := agg[r.category := Get(agg, r.category, 0) + 1];
    CountStep(seen, r, CategoryOf, names, agg, names', agg');
  }

  /**
   * The `forEach` that fills `agg` with each category's count; `names`
   * holds the keys of `agg` in insertion order.
   */
  method CountCategories(rfps: seq<Rfp>) returns (names: seq<string>, agg: map<string, nat>)
    ensures names == FirstSeen(rfps, CategoryOf)
    ensures forall k :: k in agg <==> k in names
    ensures forall k :: Get(agg, k, 0) == Count(rfps, CategoryOf, k)
  {
    names, agg := [], map[];
    var i := 0;
    while i < |rfps|
      invariant 0 <= i <= |rfps|
      invariant Tallied(rfps[..i], CategoryOf, names, agg)
    {
      assert rfps[..i + 1] == rfps[..i] + [rfps[i]];
      names, agg := AddCategory(rfps[..i], names, agg, rfps[i]);
      i := i + 1;
    }
    assert rfps[..|rfps|] == rfps;
  }

  /**
   * `byCategory`: one entry per distinct category, in first-seen order,
   * each with the number of records in it; the counts add up to the number
   * of records.
   */
  method ByCategory(rfps: seq<Rfp>) returns (cats: seq<CategoryCount>)
    ensures CategoryNames(cats) == FirstSeen(rfps, CategoryOf)
    ensures CategoryCounts(cats) == Tally(rfps, CategoryOf, FirstSeen(rfps, CategoryOf))
    ensures Distinct(CategoryNames(cats))
    ensures forall x :: x in rfps ==> x.category in CategoryNames(cats)
    ensures forall k :: 0 <= k < |cats| ==> cats[k].count > 0
    ensures Sum(CategoryCounts(cats)) == |rfps|
  {
    var names, agg := CountCategories(rfps);
    cats := seq(|names|, k requires 0 <= k < |names| => CategoryCount(names[k], agg[names[k]]));
    assert CategoryNames(cats) == names;
    forall x | x in rfps ensures x.category in names {
      var j :| 0 <= j < |rfps| && rfps[j] == x;
      assert CategoryOf(rfps[j]) in names;
    }
    forall k | 0 <= k < |cats| ensures cats[k].count > 0 {
      assert names[k] in names;
    }
    assert CategoryCounts(cats) == Tally(rfps, CategoryOf, names);
    TallyPartition(rfps, CategoryOf, names);
  }

  /****************************************************************
   * Budget per site
   ****************************************************************/

  /** `r.budgetAed` is truthy: present and not zero. */
  /**
   * `r.budgetAed` is truthy: present and not zero. The records it rejects
   * are exactly those whose budget would add nothing to a total.
   */
  predicate HasBudget(r: Rfp): (h: bool)
    ensures h <==> BudgetOf(r) != 0
  {
    r.budgetAed.Some? && r.budgetAed.value != 0
  }

  function BudgetOf(r: Rfp): int { if r.budgetAed.Some? then r.budgetAed.value else 0 }

  /** The records that contribute to the budget chart. */
  function Budgeted(rfps: seq<Rfp>): seq<Rfp> { Filter(rfps, HasBudget) }

  /** The sites of the budget chart, in the order `agg` receives them. */
  function BudgetSites(rfps: seq<Rfp>): seq<string> { FirstSeen(Budgeted(rfps), SiteOf) }

  /** Each budgeted site with the sum of its records' budgets, in first-seen order. */
  function SiteTotals(rfps: seq<Rfp>): (t: seq<Slice>)
    ensures |t| == |BudgetSites(rfps)|
    ensures forall k :: 0 <= k < |t| ==>
      (t[k].name == BudgetSites(rfps)[k] && t[k].value == Total(Budgeted(rfps), SiteOf, BudgetOf, BudgetSites(rfps)[k]))
  {
    var sites := BudgetSites(rfps);
    seq(|sites|, k requires 0 <= k < |sites| => Slice(sites[k], Total(Budgeted(rfps), SiteOf, BudgetOf, sites[k])))
  }

  /** The descending-value order of the chart: `sort((a, b) => b.value - a.value)`. */
  function NegValue(e: Slice): int { -e.value }

  /** Appending a record to the input appends it to the budgeted records exactly when its budget is truthy. */
  lemma AppendBudgeted(s: seq<Rfp>, r: Rfp)
    ensures Budgeted(s + [r]) == if HasBudget(r) then Budgeted(s) + [r] else Budgeted(s)
  {
    FilterAppend(s, r, HasBudget);
  }

  /**
   * The callback of the `forEach` over the records: a record without a
   * truthy budget leaves `agg` alone, any other adds its budget to its
   * site's total, appending the site when it is new.
   */
  method AddBudget(ghost kept: seq<Rfp>, names: seq<string>, agg: map<string, int>, r: Rfp)
    returns (names': seq<string>, agg': map<string, int>)
    requires Summed(kept, SiteOf, BudgetOf, names, agg)
    ensures Summed(if HasBudget(r) then kept + [r] else kept, SiteOf, BudgetOf, names', agg')
  {
    names', agg' := names, agg;
    if r.budgetAed.Some? && r.budgetAed.value != 0 {
      if r.site !in agg {
        names' := names + [r.site];
      }
      agg' := agg[r.site := Get(agg, r.site, 0) + r.budgetAed.value];
      assert HasBudget(r) && BudgetOf(r) == r.budgetAed.value;
      TotalStep(kept, r, SiteOf, BudgetOf, names, agg, names', agg');
      assert Summed(kept + [r], SiteOf, BudgetOf, names', agg');
    } else {
      assert !HasBudget(r);
    }
  }

  /**
   * The `forEach` that fills `agg` with each site's budget total; `names`
   * holds the keys of `agg` in insertion order.
   */
  method SumBudgetsBySite(rfps: seq<Rfp>) returns (names: seq<string>, agg: map<string, int>)
    ensures names == BudgetSites(rfps)
    ensures forall k :: k in agg <==> k in names
    ensures forall k :: Get(agg, k, 0) == Total(Budgeted(rfps), SiteOf, BudgetOf, k)
  {
    names, agg := [], map[];
    var i := 0;
    while i < |rfps|
      invariant 0 <= i <= |rfps|
      invariant Summed(Budgeted(rfps[..i]), SiteOf, BudgetOf, names, agg)
    {
      var r := rfps[i];
      assert rfps[..i + 1] == rfps[..i] + [r];
      AppendBudgeted(rfps[..i], r);
      names, agg := AddBudget(Budgeted(rfps[..i]), names, agg, r);
      i := i + 1;
    }
    assert rfps[..|rfps|] == rfps;
  }

  /**
   * `budgetBySite`: the records without a truthy budget are skipped, the
   * others' budgets are summed per site, and the sites are sorted by
   * decreasing total (ties keep first-seen order).
   */
  method BudgetBySite(rfps: seq<Rfp>) returns (sites: seq<Slice>)
    ensures sites == SortBy(SiteTotals(rfps), NegValue)
    ensures forall i, j :: 0 <= i < j < |sites| ==> sites[i].value >= sites[j].value
    ensures SumOf(sites, SliceValue) == SumOf(Budgeted(rfps), BudgetOf)
  {
    var names, agg := SumBudgetsBySite(rfps);
    var totals := seq(|names|, k requires 0 <= k < |names| => Slice(names[k], agg[names[k]]));
    assert totals == SiteTotals(rfps);
    sites := SortBy(totals, NegValue);
    BudgetBySiteSorted(rfps);
    BudgetBySiteSum(rfps);
  }

  /** The chart's values do not increase from left to right. */
  lemma BudgetBySiteSorted(rfps: seq<Rfp>)
    ensures var sites := SortBy(SiteTotals(rfps), NegValue);
      forall i, j :: 0 <= i < j < |sites| ==> sites[i].value >= sites[j].value
  {
    SortBySorted(SiteTotals(rfps), NegValue);
  }

  /** The chart's values add up to the sum of all truthy budgets. */
  lemma BudgetBySiteSum(rfps: seq<Rfp>)
    ensures SumOf(SortBy(SiteTotals(rfps), NegValue), SliceValue) == SumOf(Budgeted(rfps), BudgetOf)
  {
    var t := SiteTotals(rfps);
    var sites := BudgetSites(rfps);
    SumOfSortBy(t, NegValue, SliceValue);
    SumOfValues(t, SliceValue);
    assert Values(t, SliceValue) == Totals(Budgeted(rfps), SiteOf, BudgetOf, sites);
    TotalsPartition(Budgeted(rfps), SiteOf, BudgetOf, sites);
  }

  /** No site appears twice in the budget chart. */
  lemma BudgetBySiteDistinct(rfps: seq<Rfp>)
    ensures var sites := SortBy(SiteTotals(rfps), NegValue);
      forall i, j :: 0 <= i < j < |sites| ==> sites[i].name != sites[j].name
  {
    var t := SiteTotals(rfps);
    assert forall i, j :: 0 <= i < j < |t| ==> SliceName(t[i]) != SliceName(t[j]);
    SortByDistinctBy(t, NegValue, SliceName);
  }

  /** Every entry of the budget chart is a site with a budgeted record, valued at that site's sum of budgets. */
  lemma BudgetBySiteValues(rfps: seq<Rfp>)
    ensures var sites := SortBy(SiteTotals(rfps), NegValue);
      forall e :: e in sites ==>
        Count(Budgeted(rfps), SiteOf, e.name) > 0 && e.value == Total(Budgeted(rfps), SiteOf, BudgetOf, e.name)
  {
    var t := SiteTotals(rfps);
    var names := BudgetSites(rfps);
    forall e | e in SortBy(t, NegValue)
      ensures Count(Budgeted(rfps), SiteOf, e.name) > 0
      ensures e.value == Total(Budgeted(rfps), SiteOf, BudgetOf, e.name)
    {
      assert e in multiset(t);
      var k :| 0 <= k < |t| && t[k] == e;
      assert names[k] in names;
    }
  }

  /** Every site with a record whose budget is truthy has an entry in the budget chart. */
  lemma BudgetBySiteCovers(rfps: seq<Rfp>)
    ensures var sites := SortBy(SiteTotals(rfps), NegValue);
      forall x :: x in rfps && HasBudget(x) ==> exists e :: e in sites && e.name == x.site
  {
    var t := SiteTotals(rfps);
    var names := BudgetSites(rfps);
    var b := Budgeted(rfps);
    forall x | x in rfps && HasBudget(x) ensures exists e :: e in SortBy(t, NegValue) && e.name == x.site {
      assert x in b;
      var j :| 0 <= j < |b| && b[j] == x;
      assert SiteOf(b[j]) in names;
      var k :| 0 <= k < |names| && names[k] == x.site;
      assert t[k] in multiset(SortBy(t, NegValue));
    }
  }

  /****************************************************************
   * Vendor participation and due soon
   ****************************************************************/

  datatype Participation = Participation(name: string, invited: int, submitted: int, notSubmitted: int)

  function Max(a: int, b: int): int { if a >= b then a else b }

  /** One bar of the vendor chart: `notSubmitted` is `invited - submitted`, floored at 0. */
  function ParticipationOf(r: Rfp): (p: Participation)
    ensures p.name == r.id && p.invited == r.vendorsInvited && p.submitted == r.submissions
    ensures p.notSubmitted >= 0
    ensures r.submissions <= r.vendorsInvited ==> p.notSubmitted == r.vendorsInvited - r.submissions
    ensures r.submissions > r.vendorsInvited ==> p.notSubmitted == 0
  {
    Participation(r.id, r.vendorsInvited, r.submissions, Max(0, r.vendorsInvited - r.submissions))
  }

  /** Most recent activity first: `b.lastActivity.localeCompare(a.lastActivity)`. */
  function NegLastActivity(r: Rfp): int { -r.lastActivity }

  /**
   * The (at most) 6 records with the latest activity, latest first: taken
   * from the input, none more often than it occurs there, and no record
   * left out is more recent than one shown.
   */
  function MostRecent(rfps: seq<Rfp>): (m: seq<Rfp>)
    ensures |m| == Min(6, |rfps|)
    ensures multiset(m) <= multiset(rfps)
    ensures forall x :: x in m ==> x in rfps
    ensures SortedBy(m, NegLastActivity)
    ensures SmallestKept(rfps, m, NegLastActivity)
  {
    TakeSorted(rfps, NegLastActivity, 6);
    Take(SortBy(rfps, NegLastActivity), 6)
  }

  /**
   * `vendorParticipation`: at most 6 bars, one per record of `MostRecent`,
   * in that order.
   */
  function VendorParticipation(rfps: seq<Rfp>): (v: seq<Participation>)
    ensures |v| == Min(6, |rfps|) && |v| <= 6
    ensures forall k :: 0 <= k < |v| ==> v[k] == ParticipationOf(MostRecent(rfps)[k])
    ensures forall k :: 0 <= k < |v| ==> v[k].notSubmitted >= 0
  {
    var recent := MostRecent(rfps);
    seq(|recent|, k requires 0 <= k < |recent| => ParticipationOf(recent[k]))
  }

  /**
   * The vendor chart's records in terms of activity dates: latest first,
   * and no record left out is more recent than one shown.
   */
  lemma MostRecentByDate(rfps: seq<Rfp>)
    ensures var m := MostRecent(rfps);
      && (forall i, j :: 0 <= i < j < |m| ==> m[i].lastActivity >= m[j].lastActivity)
      && (forall x, y :: x in rfps && x !in m && y in m ==> x.lastActivity <= y.lastActivity)
  {
    ByActivity(rfps, MostRecent(rfps));
  }

  lemma ByActivity(rfps: seq<Rfp>, m: seq<Rfp>)
    requires SortedBy(m, NegLastActivity) && SmallestKept(rfps, m, NegLastActivity)
    ensures forall i, j :: 0 <= i < j < |m| ==> m[i].lastActivity >= m[j].lastActivity
    ensures forall x, y :: x in rfps && x !in m && y in m ==> x.lastActivity <= y.lastActivity
  {
    forall i, j | 0 <= i < j < |m| ensures m[i].lastActivity >= m[j].lastActivity {
      assert NegLastActivity(m[i]) <= NegLastActivity(m[j]);
    }
    forall x, y | x in rfps && x !in m && y in m ensures x.lastActivity <= y.lastActivity {
      assert NegLastActivity(y) <= NegLastActivity(x);
    }
  }

  /** Earliest due first: `a.dueDate.localeCompare(b.dueDate)`. */
  function DueDateOf(r: Rfp): int { r.dueDate }

  /**
   * The "Due soon" card: the (at most) 4 records with the earliest due
   * dates, earliest first, none shown more often than it occurs.
   */
  function DueSoon(rfps: seq<Rfp>): (d: seq<Rfp>)
    ensures |d| == Min(4, |rfps|) && |d| <= 4
    ensures multiset(d) <= multiset(rfps)
    ensures forall x :: x in d ==> x in rfps
    ensures SortedBy(d, DueDateOf)
    ensures SmallestKept(rfps, d, DueDateOf)
  {
    TakeSorted(rfps, DueDateOf, 4);
    Take(SortBy(rfps, DueDateOf), 4)
  }

  /**
   * The due-soon card in terms of due dates: earliest first, and no record
   * left out is due before one shown.
   */
  lemma DueSoonByDate(rfps: seq<Rfp>)
    ensures var d := DueSoon(rfps);
      && (forall i, j :: 0 <= i < j < |d| ==> d[i].dueDate <= d[j].dueDate)
      && (forall x, y :: x in rfps && x !in d && y in d ==> y.dueDate <= x.dueDate)
  {
    ByDueDate(rfps, DueSoon(rfps));
  }

  lemma ByDueDate(rfps: seq<Rfp>, d: seq<Rfp>)
    requires SortedBy(d, DueDateOf) && SmallestKept(rfps, d, DueDateOf)
    ensures forall i, j :: 0 <= i < j < |d| ==> d[i].dueDate <= d[j].dueDate
    ensures forall x, y :: x in rfps && x !in d && y in d ==> y.dueDate <= x.dueDate
  {
    forall i, j | 0 <= i < j < |d| ensures d[i].dueDate <= d[j].dueDate {
      assert DueDateOf(d[i]) <= DueDateOf(d[j]);
    }
    forall x, y | x in rfps && x !in d && y in d ensures y.dueDate <= x.dueDate {
      assert DueDateOf(y) <= DueDateOf(x);
    }
  }

  /****************************************************************
   * Alerts
   ****************************************************************/

  datatype Alert = Alert(kind: Tone, text: string)

  function DueAlert(n: nat): Alert { Alert(Warn, NatToString(n) + " RFP(s) due within 7 days") }
  function OverdueAlert(n: nat): Alert { Alert(Danger, NatToString(n) + " RFP(s) overdue") }
  function MissingAlert(n: nat): Alert { Alert(Warn, NatToString(n) + " RFP(s) missing one or more approvals") }

  const NoCriticalAlerts: Alert := Alert(Ok, "No critical alerts")

  /**
   * The alert list for the given numbers of records due this week, overdue
   * and missing approvals. It is never empty and holds at most one alert
   * per kind of problem; its only "ok" entry stands alone, exactly when
   * there is no problem at all.
   */
  function AlertList(due: nat, overdue: nat, missing: nat): (a: seq<Alert>)
    ensures 1 <= |a| <= 3
    ensures a == [NoCriticalAlerts] <==> due == 0 && overdue == 0 && missing == 0
    ensures forall k :: 0 <= k < |a| ==> (a[k].kind == Ok <==> a == [NoCriticalAlerts])
  {
    if due == 0 && overdue == 0 && missing == 0 then [NoCriticalAlerts]
    else
      var a := (if due > 0 then [DueAlert(due)] else [])
               + (if overdue > 0 then [OverdueAlert(overdue)] else [])
               + (if missing > 0 then [MissingAlert(missing)] else []);
      assert forall k :: 0 <= k < |a| ==> a[k].kind != Ok;
      assert a[0] != NoCriticalAlerts;
      a
  }

  /**
   * The fixed order: the due-this-week warning first, then the overdue
   * alert, then the missing-approvals warning, each present exactly when
   * its number is positive.
   */
  lemma AlertListOrder(due: nat, overdue: nat, missing: nat)
    requires due > 0 || overdue > 0 || missing > 0
    ensures var a := AlertList(due, overdue, missing);
      var o := if due > 0 then 1 else 0;
      var m := o + (if overdue > 0 then 1 else 0);
      && |a| == m + (if missing > 0 then 1 else 0)
      && (due > 0 ==> a[0] == DueAlert(due))
      && (overdue > 0 ==> a[o] == OverdueAlert(overdue))
      && (missing > 0 ==> a[m] == MissingAlert(missing))
  {
  }

  /**
   * The pushes of `alerts` for the three counts: a warning when something
   * is due this week, then a danger alert when something is overdue, then
   * a warning when approvals are missing, and the "ok" entry when nothing
   * was pushed.
   */
  method PushAlerts(due: nat, overdue: nat, missing: nat) returns (items: seq<Alert>)
    ensures items == AlertList(due, overdue, missing)
  {
    ghost var d := if due > 0 then [DueAlert(due)] else [];
    ghost var o := if overdue > 0 then [OverdueAlert(overdue)] else [];
    ghost var m := if missing > 0 then [MissingAlert(missing)] else [];
    items := [];
    if due > 0 {
      items := items + [DueAlert(due)];
    }
    if overdue > 0 {
      items := items + [OverdueAlert(overdue)];
    }
    assert items == d + o;
    if missing > 0 {
      items := items + [MissingAlert(missing)];
    }
    assert items == d + o + m;
    if |items| == 0 {
      items := items + [NoCriticalAlerts];
    }
  }

  /** `alerts`: the pushes for the sizes of the three attention lists. */
  method Alerts(rfps: seq<Rfp>, today: int) returns (items: seq<Alert>)
    ensures items == AlertList(|DueThisWeek(rfps, today)|, |Overdue(rfps, today)|, |MissingApprovals(rfps)|)
    ensures 1 <= |items| <= 3
  {
    var due := DueThisWeek(rfps, today);
    var overdue := Overdue(rfps, today);
    var missingApprovals := MissingApprovals(rfps);
    items := PushAlerts(|due|, |overdue|, |missingApprovals|);
  }

  /** The count at the head of an alert's text reads back as the count it reports. */
  lemma AlertCountReadable(n: nat)
    ensures var a := DueAlert(n).text; var o := OverdueAlert(n).text; var m := MissingAlert(n).text;
      var w := |NatToString(n)|;
      && w <= |a| && w <= |o| && w <= |m|
      && (forall i :: 0 <= i < w ==> IsDigit(a[i]) && IsDigit(o[i]) && IsDigit(m[i]))
      && ParseNat(a[..w]) == n && ParseNat(o[..w]) == n && ParseNat(m[..w]) == n
  {
    var s := NatToString(n);
    ParseNatToString(n);
    assert DueAlert(n).text[..|s|] == s;
    assert OverdueAlert(n).text[..|s|] == s;
    assert MissingAlert(n).text[..|s|] == s;
  }
}
