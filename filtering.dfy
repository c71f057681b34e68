/**
 * The search-and-dropdown filter of `Page` (app/page.tsx): a record is
 * shown when the trimmed, lower-cased query occurs in its search text, its
 * site is the selected one (or "All"), and its status is the selected one
 * (or "All").
 */
module Filtering {
  import opened RfpTypes
  import opened Seqs
  import opened Text

  /** The three controls of the header: the search box and the two dropdowns. */
  datatype Criteria = Criteria(query: string, site: string, status: string)

  /** The wildcard value of both dropdowns. */
  const All: string := "All"

  /** The criteria the page starts with. */
  const Unfiltered: Criteria := Criteria("", All, All)

  /**
   * The text the search box is matched against: `${id} ${title} ${category} ${owner}`,
   * which contains each of the four searched fields.
   */
  function SearchText(r: Rfp): (t: string)
    ensures Includes(t, r.id) && Includes(t, r.title) && Includes(t, r.category) && Includes(t, r.owner)
  {
    var sp := " ";
    IncludesItself(r.id);
    IncludesItself(r.title);
    IncludesItself(r.category);
    IncludesItself(r.owner);
    var t1 := r.id + sp;
    IncludesRight(r.id, sp, r.id);
    var t2 := t1 + r.title;
    IncludesRight(t1, r.title, r.id);
    IncludesLeft(t1, r.title, r.title);
    var t3 := t2 + sp + r.category + sp;
    IncludesRight(t2, sp + r.category + sp, r.id);
    IncludesRight(t2, sp + r.category + sp, r.title);
    IncludesLeft(t2 + sp, r.category, r.category);
    IncludesRight(t2 + sp + r.category, sp, r.category);
    assert t2 + (sp + r.category + sp) == t3;
    var t := t3 + r.owner;
    IncludesRight(t3, r.owner, r.id);
    IncludesRight(t3, r.owner, r.title);
    IncludesRight(t3, r.owner, r.category);
    IncludesLeft(t3, r.owner, r.owner);
    t
  }

  /** `query.trim().toLowerCase()`. */
  function NormalizedQuery(query: string): string {
    ToLower(Trim(query))
  }

  predicate MatchesQuery(r: Rfp, query: string) {
    var q := NormalizedQuery(query);
    q == [] || Includes(ToLower(SearchText(r)), q)
  }

  predicate MatchesSite(r: Rfp, site: string) {
    site == All || r.site == site
  }

  predicate MatchesStatus(r: Rfp, status: string) {
    status == All || StatusLabel(r.status) == status
  }

  predicate Matches(r: Rfp, c: Criteria) {
    MatchesQuery(r, c.query) && MatchesSite(r, c.site) && MatchesStatus(r, c.status)
  }

  function Criterion(c: Criteria): Rfp -> bool {
    r => Matches(r, c)
  }

  /**
   * The `filtered` list: a record is kept exactly when all three
   * predicates hold.
   */
  function FilterRecords(rfps: seq<Rfp>, c: Criteria): (r: seq<Rfp>)
    ensures |r| <= |rfps|
    ensures forall x :: x in r <==>
      x in rfps && MatchesQuery(x, c.query) && MatchesSite(x, c.site) && MatchesStatus(x, c.status)
  {
    Filter(rfps, Criterion(c))
  }

  /**
   * The filter neither sorts nor drops a match: its result is the input
   * restricted to the increasing positions whose record matches, and every
   * matching position is among them.
   */
  lemma FilterRecordsKeepsOrder(rfps: seq<Rfp>, c: Criteria)
    ensures var r, idx := FilterRecords(rfps, c), KeptIndices(rfps, Criterion(c));
      && |r| == |idx|
      && (forall k :: 0 <= k < |r| ==> idx[k] < |rfps| && r[k] == rfps[idx[k]] && Matches(rfps[idx[k]], c))
      && (forall k, l :: 0 <= k < l < |idx| ==> idx[k] < idx[l])
      && (forall i :: 0 <= i < |rfps| && Matches(rfps[i], c) ==> i in idx)
  {
    FilterIsIndexSelection(rfps, Criterion(c));
  }

  /**
   * With an empty (or all-blank) query and both dropdowns on "All", the
   * filter returns its input unchanged.
   */
  lemma FilterRecordsIdentity(rfps: seq<Rfp>, c: Criteria)
    requires forall i :: 0 <= i < |c.query| ==> IsSpace(c.query[i])
    requires c.site == All && c.status == All
    ensures FilterRecords(rfps, c) == rfps
  {
    TrimAllSpaces(c.query);
    FilterKeepsAll(rfps, Criterion(c));
  }

  /** The initial state of the page shows every record. */
  lemma UnfilteredShowsAll(rfps: seq<Rfp>)
    ensures FilterRecords(rfps, Unfiltered) == rfps
  {
    FilterRecordsIdentity(rfps, Unfiltered);
  }

  /** The empty query matches every record. */
  lemma EmptyQueryMatches(r: Rfp)
    ensures MatchesQuery(r, "")
  {
    TrimAllSpaces("");
  }

  /** Choosing a status in the dropdown keeps exactly the records in that stage. */
  lemma FilterByStatus(rfps: seq<Rfp>, s: Status)
    ensures forall x :: x in FilterRecords(rfps, Criteria("", All, StatusLabel(s))) <==> x in rfps && x.status == s
  {
    var c := Criteria("", All, StatusLabel(s));
    StatusLabelInjective(s, s);
    forall x | x in rfps ensures Matches(x, c) <==> x.status == s {
      EmptyQueryMatches(x);
      StatusLabelInjective(x.status, s);
    }
  }

  /** A status string that is neither "All" nor a stage label matches nothing. */
  lemma FilterByUnknownStatus(rfps: seq<Rfp>, c: Criteria)
    requires c.status != All && forall s: Status :: StatusLabel(s) != c.status
    ensures FilterRecords(rfps, c) == []
  {
    FilterKeepsNone(rfps, Criterion(c));
  }

  /**
   * Searching for any one of a record's identifier, title, category or
   * owner finds that record, whatever the case of the query and whatever
   * blanks surround it.
   */
  lemma QueryFindsField(r: Rfp, query: string, field: string)
    requires field == r.id || field == r.title || field == r.category || field == r.owner
    requires NormalizedQuery(query) == ToLower(field)
    ensures MatchesQuery(r, query)
  {
    LowerKeepsIncludes(SearchText(r), field);
  }

  /**
   * The three controls act independently: a record matches the criteria
   * exactly when it passes each control with the other two cleared.
   */
  lemma MatchesSeparately(r: Rfp, c: Criteria)
    ensures Matches(r, c) <==>
      && Matches(r, Criteria(c.query, All, All))
      && Matches(r, Criteria("", c.site, All))
      && Matches(r, Criteria("", All, c.status))
  {
    EmptyQueryMatches(r);
  }
}
