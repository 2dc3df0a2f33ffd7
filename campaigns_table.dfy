/**
 * The list logic of `src/components/CampaignsTable.tsx`: the search and
 * status filters, the comparator of each column type, the in-place sort of
 * the filtered list, the progress percentage and the status buttons.
 */
module CampaignsTable {
  import opened Builtins
  import opened Nostr
  import opened Lists
  import opened Sorting
  import opened TableSort
  import opened Campaigns

  datatype CampaignField = Title | StartDate | EndDate | Status | CreatedAt | TotalPosts

  /** The table opens sorted by creation time, newest first. */
  const InitialSort: SortState<CampaignField> := SortState(CreatedAt, Desc)

  /** The search: the lower-cased term occurs in the lower-cased title, description or some tag. */
  predicate Matches(c: Campaign, term: string) {
    Includes(ToLower(c.title), ToLower(term)) || Includes(ToLower(c.description), ToLower(term))
    || exists t :: t in c.tags && Includes(ToLower(t), ToLower(term))
  }

  /** The search (only for a non-empty term), then the status filter (unless it is 'all'). */
  function FilterCampaigns(campaigns: seq<Campaign>, term: string, statusFilter: string): (r: seq<Campaign>)
    ensures |r| <= |campaigns|
  {
    var searched := if term != "" then Filter(campaigns, c => Matches(c, term)) else campaigns;
    if statusFilter != "all" then Filter(searched, (c: Campaign) => c.status == statusFilter) else searched
  }

  /** A campaign is shown exactly when it is in the input and passes every active filter. */
  lemma FilterCampaignsMembers(campaigns: seq<Campaign>, term: string, statusFilter: string)
    ensures forall c :: c in FilterCampaigns(campaigns, term, statusFilter) <==>
      c in campaigns && (term != "" ==> Matches(c, term)) && (statusFilter != "all" ==> c.status == statusFilter)
  {
    var searched := if term != "" then Filter(campaigns, c => Matches(c, term)) else campaigns;
    if term != "" {
      FilterMembers(campaigns, c => Matches(c, term));
    }
    if statusFilter != "all" {
      FilterMembers(searched, (c: Campaign) => c.status == statusFilter);
    }
  }

  /** The filters never add or repeat a campaign. */
  lemma FilterCampaignsSubMultiset(campaigns: seq<Campaign>, term: string, statusFilter: string)
    ensures multiset(FilterCampaigns(campaigns, term, statusFilter)) <= multiset(campaigns)
  {
    var searched := if term != "" then Filter(campaigns, c => Matches(c, term)) else campaigns;
    if term != "" {
      FilterSubMultiset(campaigns, c => Matches(c, term));
    }
    if statusFilter != "all" {
      FilterSubMultiset(searched, (c: Campaign) => c.status == statusFilter);
    }
  }

  /** `a[sortField]` as the comparator uses it: lower-cased for the string columns. */
  function KeyOf(f: CampaignField, c: Campaign): Key {
    match f
    case Title => Text(ToLower(c.title))
    case StartDate => Time(TimeOf(c.startDate))
    case EndDate => Time(TimeOf(c.endDate))
    case Status => Text(ToLower(c.status))
    case CreatedAt => Time(TimeOf(c.createdAt))
    case TotalPosts => Time(c.totalPosts)
  }

  /** The number `a - b`, read as 0 when it is NaN. */
  function Difference(a: Num, b: Num): (r: int)
    ensures r < 0 <==> KeyLess(Time(a), Time(b))
    ensures r > 0 <==> KeyLess(Time(b), Time(a))
  {
    if a.N? && b.N? then a.v - b.v else 0
  }

  /**
   * The comparator: a time difference for the date columns, a difference for
   * the post count and -1/1/0 on the lower-cased text for the string columns,
   * each negated in descending order.
   */
  function CompareCampaigns(sort: SortState<CampaignField>, a: Campaign, b: Campaign): (r: int)
    ensures r < 0 <==> (if sort.direction == Asc then KeyLess(KeyOf(sort.field, a), KeyOf(sort.field, b))
                        else KeyLess(KeyOf(sort.field, b), KeyOf(sort.field, a)))
    ensures r > 0 <==> (if sort.direction == Asc then KeyLess(KeyOf(sort.field, b), KeyOf(sort.field, a))
                        else KeyLess(KeyOf(sort.field, a), KeyOf(sort.field, b)))
  {
    var ka := KeyOf(sort.field, a);
    var kb := KeyOf(sort.field, b);
    KeyLessAsymmetric(ka, kb);
    match sort.field
    case StartDate | EndDate | CreatedAt =>
      if sort.direction == Asc then Difference(ka.t, kb.t) else Difference(kb.t, ka.t)
    case Title | Status =>
      if sort.direction == Asc then (if StrLess(ka.s, kb.s) then -1 else if StrLess(kb.s, ka.s) then 1 else 0)
      else (if StrLess(kb.s, ka.s) then -1 else if StrLess(ka.s, kb.s) then 1 else 0)
    case TotalPosts =>
      if sort.direction == Asc then Difference(ka.t, kb.t) else Difference(kb.t, ka.t)
  }

  function Comparator(sort: SortState<CampaignField>): (Campaign, Campaign) -> int {
    (a, b) => CompareCampaigns(sort, a, b)
  }

  lemma ComparatorConsistent(sort: SortState<CampaignField>)
    ensures NeverBothGreater(Comparator(sort))
  {
  }

  /** Every campaign has a usable key: no NaN in a date or count column that is sorted. */
  predicate ValidKeys(f: CampaignField, s: seq<Campaign>) {
    forall i :: 0 <= i < |s| ==> KeyOf(f, s[i]).Text? || KeyOf(f, s[i]).t.N?
  }

  /**
   * With usable keys the comparator is transitive on the list. The argument
   * is the same as in ScheduledPostsTable, but it runs over this table's own
   * record type, field enumeration and KeyOf, so each table states it for
   * its own comparator.
   */
  lemma ComparatorChains(sort: SortState<CampaignField>, s: seq<Campaign>)
    requires ValidKeys(sort.field, s)
    ensures ChainsOn(s, Comparator(sort))
  {
    var f := sort.field;
    forall i, j, k | 0 <= i < |s| && 0 <= j < |s| && 0 <= k < |s|
      && Comparator(sort)(s[i], s[j]) <= 0 && Comparator(sort)(s[j], s[k]) <= 0
      ensures Comparator(sort)(s[i], s[k]) <= 0
    {
      var ki, kj, kk := KeyOf(f, s[i]), KeyOf(f, s[j]), KeyOf(f, s[k]);
      assert Comparable(ki, kj) && Comparable(kj, kk) && Comparable(kk, kj) && Comparable(kj, ki);
      if sort.direction == Asc {
        KeyChain(ki, kj, kk);
      } else {
        KeyChain(kk, kj, ki);
      }
    }
  }

  /**
   * `filteredAndSortedCampaigns`: with no active filter the campaigns array
   * itself is sorted in place; otherwise a new filtered array is sorted and
   * the input stays as it was.
   */
  method FilterAndSortCampaigns(campaigns: array<Campaign>, term: string, statusFilter: string,
                                sort: SortState<CampaignField>) returns (filtered: array<Campaign>)
    modifies campaigns
    ensures multiset(filtered[..]) == multiset(FilterCampaigns(old(campaigns[..]), term, statusFilter))
    ensures AdjacentSorted(filtered[..], Comparator(sort))
    ensures term == "" && statusFilter == "all" ==> filtered == campaigns
    ensures term != "" || statusFilter != "all" ==> fresh(filtered) && campaigns[..] == old(campaigns[..])
  {
    var shown := FilterCampaigns(campaigns[..], term, statusFilter);
    if term == "" && statusFilter == "all" {
      filtered := campaigns;
    } else {
      filtered := new Campaign[|shown|](i requires 0 <= i < |shown| => shown[i]);
    }
    assert filtered[..] == shown;
    ComparatorConsistent(sort);
    SortInPlace(filtered, Comparator(sort));
  }

  /**
   * The sorted list is ordered by the selected key at every two positions
   * (stated per table, like ComparatorChains, over this table's KeyOf).
   */
  lemma SortedByKey(sort: SortState<CampaignField>, s: seq<Campaign>, i: int, j: int)
    requires AdjacentSorted(s, Comparator(sort)) && ValidKeys(sort.field, s)
    requires 0 <= i < j < |s|
    ensures sort.direction == Asc ==> !KeyLess(KeyOf(sort.field, s[j]), KeyOf(sort.field, s[i]))
    ensures sort.direction == Desc ==> !KeyLess(KeyOf(sort.field, s[i]), KeyOf(sort.field, s[j]))
  {
    ComparatorChains(sort, s);
    AdjacentSortedOrdersAll(s, Comparator(sort), i, j);
  }

  /** `Math.round(x)`: the nearest integer, halves rounded up. */
  function Round(x: real): int {
    (x + 0.5).Floor
  }

  /**
   * `getProgress`: 0 when no posts are planned, otherwise the rounded
   * percentage of completed posts; NaN when either count is NaN.
   */
  function GetProgress(completed: Num, total: Num): (r: Num)
    ensures total == N(0) ==> r == N(0)
    ensures r.NaN? <==> total != N(0) && (completed.NaN? || total.NaN?)
  {
    if total == N(0) then N(0)
    else if completed.NaN? || total.NaN? then NaN
    else N(Round((completed.v as real / total.v as real) * 100.0))
  }

  /** A campaign whose every planned post is done shows 100. */
  lemma ProgressComplete(n: int)
    requires n != 0
    ensures GetProgress(N(n), N(n)) == N(100)
  {
    assert n as real / n as real == 1.0;
  }

  /** With no more completed posts than planned, the progress lies between 0 and 100. */
  lemma ProgressBounded(completed: int, total: int)
    requires 0 <= completed <= total && total > 0
    ensures GetProgress(N(completed), N(total)).N?
    ensures 0 <= GetProgress(N(completed), N(total)).v <= 100
  {
    var x := completed as real / total as real;
    assert x * total as real == completed as real;
    assert 0.0 <= x <= 1.0;
  }

  /** The status buttons: draft offers scheduled, active offers completed, nothing else is offered. */
  function OfferedTransitions(status: string): (r: seq<string>)
    ensures |r| <= 1
  {
    if status == "draft" then ["scheduled"]
    else if status == "active" then ["completed"]
    else []
  }

  lemma OfferedExactly(status: string, next: string)
    ensures next in OfferedTransitions(status) <==>
      (status == "draft" && next == "scheduled") || (status == "active" && next == "completed")
  {
  }

  /** `handleStatusChange`: the campaign with its new status, every other field kept. */
  function StatusChange(c: Campaign, newStatus: string): (r: Campaign)
    ensures r.status == newStatus
    ensures r.(status := c.status) == c
  {
    c.(status := newStatus)
  }

  /** The record written for a status change reads back with the new status and the same identity. */
  lemma StatusChangeReadBack(c: Campaign, newStatus: string, eventId: string, pubkey: string, createdAt: int)
    requires c.id != "" && c.title != "" && newStatus != ""
    requires Clipped(c.startDate) && Clipped(c.endDate)
    ensures var r := EventToCampaign(Event(eventId, pubkey, createdAt, CampaignKind,
                                           CampaignTags(StatusChange(c, newStatus)), ""));
      r.Some? && r.value.status == newStatus && r.value.id == c.id && r.value.title == c.title
  {
    CampaignRoundTrip(StatusChange(c, newStatus), eventId, pubkey, createdAt);
  }
}
