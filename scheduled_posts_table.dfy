/**
 * The list logic of `src/components/ScheduledPostsTable.tsx`: the search and
 * status filters, the comparator of the sortable columns, the in-place sort
 * of the filtered list, and the per-status counts.
 */
module ScheduledPostsTable {
  import opened Builtins
  import opened Lists
  import opened Sorting
  import opened TableSort
  import opened ScheduledPosts

  datatype PostField = Title | PublishAt | Status | CreatedAt

  /** The table opens sorted by publish time, newest first. */
  const InitialSort: SortState<PostField> := SortState(PublishAt, Desc)

  /** The search: the lower-cased title or content contains the lower-cased term. */
  predicate Matches(p: ScheduledPost, term: string) {
    Includes(ToLower(p.title), ToLower(term)) || Includes(ToLower(p.content), ToLower(term))
  }

  /** The search (only for a non-empty term), then the status filter (unless it is 'all'). */
  function FilterPosts(posts: seq<ScheduledPost>, term: string, statusFilter: string): (r: seq<ScheduledPost>)
    ensures |r| <= |posts|
  {
    var searched := if term != "" then Filter(posts, p => Matches(p, term)) else posts;
    if statusFilter != "all" then Filter(searched, (p: ScheduledPost) => p.status == statusFilter) else searched
  }

  /** A post is shown exactly when it is in the input and passes every active filter. */
  lemma FilterPostsMembers(posts: seq<ScheduledPost>, term: string, statusFilter: string)
    ensures forall p :: p in FilterPosts(posts, term, statusFilter) <==>
      p in posts && (term != "" ==> Matches(p, term)) && (statusFilter != "all" ==> p.status == statusFilter)
  {
    var searched := if term != "" then Filter(posts, p => Matches(p, term)) else posts;
    if term != "" {
      FilterMembers(posts, p => Matches(p, term));
    }
    if statusFilter != "all" {
      FilterMembers(searched, (p: ScheduledPost) => p.status == statusFilter);
    }
  }

  /** The filters never add or repeat a post: the shown list is a sub-multiset of the input. */
  lemma FilterPostsSubMultiset(posts: seq<ScheduledPost>, term: string, statusFilter: string)
    ensures multiset(FilterPosts(posts, term, statusFilter)) <= multiset(posts)
  {
    var searched := if term != "" then Filter(posts, p => Matches(p, term)) else posts;
    if term != "" {
      FilterSubMultiset(posts, p => Matches(p, term));
    }
    if statusFilter != "all" {
      FilterSubMultiset(searched, (p: ScheduledPost) => p.status == statusFilter);
    }
  }

  function KeyOf(f: PostField, p: ScheduledPost): Key {
    match f
    case Title => Text(ToLower(p.title))
    case PublishAt => Time(TimeOf(p.publishAt))
    case Status => Text(p.status)
    case CreatedAt => Time(TimeOf(p.createdAt))
  }

  /**
   * The comparator: -1 when a's key is smaller and 1 when it is larger in
   * ascending order, the signs flipped in descending order, 0 otherwise.
   */
  function ComparePosts(sort: SortState<PostField>, a: ScheduledPost, b: ScheduledPost): (r: int)
    ensures r == -1 || r == 0 || r == 1
    ensures sort.direction == Asc ==>
      (r == -1 <==> KeyLess(KeyOf(sort.field, a), KeyOf(sort.field, b)))
      && (r == 1 <==> KeyLess(KeyOf(sort.field, b), KeyOf(sort.field, a)))
    ensures sort.direction == Desc ==>
      (r == 1 <==> KeyLess(KeyOf(sort.field, a), KeyOf(sort.field, b)))
      && (r == -1 <==> KeyLess(KeyOf(sort.field, b), KeyOf(sort.field, a)))
  {
    var ka := KeyOf(sort.field, a);
    var kb := KeyOf(sort.field, b);
    KeyLessAsymmetric(ka, kb);
    if KeyLess(ka, kb) then Directed(sort.direction, -1)
    else if KeyLess(kb, ka) then Directed(sort.direction, 1)
    else 0
  }

  function Comparator(sort: SortState<PostField>): (ScheduledPost, ScheduledPost) -> int {
    (a, b) => ComparePosts(sort, a, b)
  }

  /** Flipping the direction negates every comparison. */
  lemma DescNegatesAsc(f: PostField, a: ScheduledPost, b: ScheduledPost)
    ensures ComparePosts(SortState(f, Desc), a, b) == -ComparePosts(SortState(f, Asc), a, b)
  {
  }

  lemma ComparatorConsistent(sort: SortState<PostField>)
    ensures NeverBothGreater(Comparator(sort))
  {
  }

  /** Every post has a usable key: dates are valid when a date column is sorted. */
  predicate ValidKeys(f: PostField, s: seq<ScheduledPost>) {
    forall i :: 0 <= i < |s| ==> KeyOf(f, s[i]).Text? || KeyOf(f, s[i]).t.N?
  }

  /**
   * With usable keys the comparator is transitive on the list. The argument
   * is the same as in CampaignsTable, but it runs over this table's own
   * record type, field enumeration and KeyOf, so each table states it for
   * its own comparator.
   */
  lemma ComparatorChains(sort: SortState<PostField>, s: seq<ScheduledPost>)
    requires ValidKeys(sort.field, s)
    ensures ChainsOn(s, Comparator(sort))
  {
    var f := sort.field;
    forall i, j, k | 0 <= i < |s| && 0 <= j < |s| && 0 <= k < |s|
      && Comparator(sort)(s[i], s[j]) <= 0 && Comparator(sort)(s[j], s[k]) <= 0
      ensures Comparator(sort)(s[i], s[k]) <= 0
    {
      var ki, kj, kk := KeyOf(f, s[i]), KeyOf(f, s[j]), KeyOf(f, s[k]);
      assert Comparable(ki, kj) && Comparable(kj, kk) && Comparable(kk, kj) && Comparable(kj, ki);
      if sort.direction == Asc {
        KeyChain(ki, kj, kk);
      } else {
        KeyChain(kk, kj, ki);
      }
    }
  }

  /**
   * `filteredAndSortedPosts`. With no active filter the list is the array
   * passed in, which the sort then reorders in place; otherwise the filters
   * build a new array and the input stays as it was. Either way the result
   * holds exactly the filtered posts, in comparator order.
   */
  method FilterAndSortPosts(posts: array<ScheduledPost>, term: string, statusFilter: string,
                            sort: SortState<PostField>) returns (filtered: array<ScheduledPost>)
    modifies posts
    ensures multiset(filtered[..]) == multiset(FilterPosts(old(posts[..]), term, statusFilter))
    ensures AdjacentSorted(filtered[..], Comparator(sort))
    ensures term == "" && statusFilter == "all" ==> filtered == posts
    ensures term != "" || statusFilter != "all" ==> fresh(filtered) && posts[..] == old(posts[..])
  {
    var shown := FilterPosts(posts[..], term, statusFilter);
    if term == "" && statusFilter == "all" {
      filtered := posts;
    } else {
      filtered := new ScheduledPost[|shown|](i requires 0 <= i < |shown| => shown[i]);
    }
    assert filtered[..] == shown;
    ComparatorConsistent(sort);
    SortInPlace(filtered, Comparator(sort));
  }

  /**
   * The sorted list is ordered by the selected key at every two positions
   * (stated per table, like ComparatorChains, over this table's KeyOf).
   */
  lemma SortedByKey(sort: SortState<PostField>, s: seq<ScheduledPost>, i: int, j: int)
    requires AdjacentSorted(s, Comparator(sort)) && ValidKeys(sort.field, s)
    requires 0 <= i < j < |s|
    ensures sort.direction == Asc ==> !KeyLess(KeyOf(sort.field, s[j]), KeyOf(sort.field, s[i]))
    ensures sort.direction == Desc ==> !KeyLess(KeyOf(sort.field, s[i]), KeyOf(sort.field, s[j]))
  {
    ComparatorChains(sort, s);
    AdjacentSortedOrdersAll(s, Comparator(sort), i, j);
  }

  /** How many posts carry a status. */
  function Count(posts: seq<ScheduledPost>, status: string): (r: nat)
    ensures r <= |posts|
  {
    if posts == [] then 0
    else Count(posts[..|posts| - 1], status) + (if posts[|posts| - 1].status == status then 1 else 0)
  }

  /**
   * `statusCounts`: the reduce over the posts, adding one to the entry of
   * each post's status. A status is a key exactly when some post carries it.
   */
  method StatusCounts(posts: seq<ScheduledPost>) returns (counts: map<string, int>)
    ensures forall st :: st in counts <==> Count(posts, st) > 0
    ensures forall st :: st in counts ==> counts[st] == Count(posts, st)
  {
    counts := map[];
    for i := 0 to |posts|
      invariant forall st :: st in counts <==> Count(posts[..i], st) > 0
      invariant forall st :: st in counts ==> counts[st] == Count(posts[..i], st)
    {
      assert posts[..i + 1][..i] == posts[..i];
      var st := posts[i].status;
      counts := counts[st := (if st in counts then counts[st] else 0) + 1];
    }
    assert posts[..|posts|] == posts;
  }

  /** `statusCounts[status] || 0`, the number shown beside a status option. */
  function Shown(counts: map<string, int>, status: string): int {
    if status in counts && counts[status] != 0 then counts[status] else 0
  }

  /** The shown number is the count of posts with that status, zero included. */
  lemma ShownIsCount(posts: seq<ScheduledPost>, counts: map<string, int>, status: string)
    requires forall st :: st in counts <==> Count(posts, st) > 0
    requires forall st :: st in counts ==> counts[st] == Count(posts, st)
    ensures Shown(counts, status) == Count(posts, status)
  {
  }

  predicate KnownStatus(p: ScheduledPost) {
    p.status in {"scheduled", "published", "failed", "cancelled"}
  }

  /** Where every post has one of the four statuses, the four counts add up to the number of posts. */
  lemma {:induction false} CountsSumToLength(posts: seq<ScheduledPost>)
    requires forall i :: 0 <= i < |posts| ==> KnownStatus(posts[i])
    ensures Count(posts, "scheduled") + Count(posts, "published") + Count(posts, "failed")
          + Count(posts, "cancelled") == |posts|
    decreases |posts|
  {
    if posts != [] {
      CountsSumToLength(posts[..|posts| - 1]);
      assert KnownStatus(posts[|posts| - 1]);
    }
  }
}
