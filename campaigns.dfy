/**
 * Kind-30402 campaign records (`src/hooks/useCampaigns.ts`): the tags a
 * campaign is written as, the campaign a relay event is read as (or null
 * when a required tag is missing), the deletion record, and the campaign
 * list sorted newest first.
 */
module Campaigns {
  import opened Builtins
  import opened Nostr
  import opened Sorting

  const CampaignKind: int := 30402

  /** A campaign; `status` is one of draft, scheduled, active, completed and cancelled when written by the forms. */
  datatype Campaign = Campaign(
    id: string,
    title: string,
    description: string,
    startDate: Date,
    endDate: Date,
    status: string,
    createdAt: Date,
    createdBy: string,
    targetAudience: Value,
    tags: seq<string>,
    posts: seq<string>,
    publishedEventId: Value,
    totalPosts: Num,
    completedPosts: Num)

  /** `v || '0'`. */
  function OrZero(v: Value): (r: string)
    ensures r != ""
    ensures Truthy(v) ==> r == v.value
  {
    if Truthy(v) then v.value else "0"
  }

  /** `eventToCampaign(event)`: None exactly when d, title, start, end or status is missing or empty. */
  function EventToCampaign(ev: Event): (r: Option<Campaign>)
    ensures r.Some? <==> Truthy(FirstValue(ev.tags, "d")) && Truthy(FirstValue(ev.tags, "title"))
                         && Truthy(FirstValue(ev.tags, "start")) && Truthy(FirstValue(ev.tags, "end"))
                         && Truthy(FirstValue(ev.tags, "status"))
    ensures r.Some? ==> r.value.id != "" && r.value.title != "" && r.value.status != ""
    ensures r.Some? ==> r.value.createdBy == ev.pubkey && r.value.publishedEventId == Some(ev.id)
    ensures r.Some? ==> forall i :: 0 <= i < |r.value.tags| ==> r.value.tags[i] != ""
    ensures r.Some? ==> forall i :: 0 <= i < |r.value.posts| ==> r.value.posts[i] != ""
  {
    var tags := ev.tags;
    var d := FirstValue(tags, "d");
    var title := FirstValue(tags, "title");
    var description := FirstValue(tags, "description");
    var start := FirstValue(tags, "start");
    var end := FirstValue(tags, "end");
    var status := FirstValue(tags, "status");
    var targetAudience := FirstValue(tags, "audience");
    var totalPosts := ParseInt(OrZero(FirstValue(tags, "total_posts")));
    var completedPosts := ParseInt(OrZero(FirstValue(tags, "completed_posts")));
    if !(Truthy(d) && Truthy(title) && Truthy(start) && Truthy(end) && Truthy(status)) then None
    else
      Some(Campaign(
        d.value,
        title.value,
        if Truthy(description) then description.value else "",
        DateFromSeconds(ParseInt(start.value)),
        DateFromSeconds(ParseInt(end.value)),
        status.value,
        MakeDate(ev.createdAt * 1000),
        ev.pubkey,
        targetAudience,
        Present(AllValues(tags, "t")),
        Present(AllValues(tags, "post")),
        Some(ev.id),
        totalPosts,
        completedPosts))
  }

  /** The texts a campaign's tags carry, in the order `campaignToTags` writes them. */
  datatype CampaignText = CampaignText(
    id: string, title: string, description: string, start: string, end: string, status: string,
    total: string, completed: string, audience: Value, topics: seq<string>, posts: seq<string>)

  /** Eight fixed tags, `audience` when truthy, one `t` tag per topic and one `post` tag per post id. */
  function CampaignRecordTags(x: CampaignText): seq<Tag> {
    [["d", x.id], ["title", x.title], ["description", x.description], ["start", x.start], ["end", x.end],
     ["status", x.status], ["total_posts", x.total], ["completed_posts", x.completed]]
    + OptionalTag("audience", x.audience) + Pairs("t", x.topics) + Pairs("post", x.posts)
  }

  /** The texts of a campaign: whole seconds for the dates, `toString()` for the counts. */
  function Text(c: Campaign): CampaignText {
    CampaignText(c.id, c.title, c.description, NumToString(Seconds(c.startDate)), NumToString(Seconds(c.endDate)),
                 c.status, NumToString(c.totalPosts), NumToString(c.completedPosts), c.targetAudience, c.tags, c.posts)
  }

  /** `campaignToTags(campaign)`; createdAt, createdBy and publishedEventId are not written. */
  function CampaignTags(c: Campaign): seq<Tag> {
    CampaignRecordTags(Text(c))
  }

  /** The construction of `campaignToTags`: the fixed tags, the optional audience, then a push per topic and per post. */
  method BuildCampaignTags(c: Campaign) returns (tags: seq<Tag>)
    ensures tags == CampaignTags(c)
  {
    var x := Text(c);
    tags := [["d", c.id], ["title", c.title], ["description", c.description], ["start", x.start], ["end", x.end],
             ["status", c.status], ["total_posts", x.total], ["completed_posts", x.completed]];
    if Truthy(c.targetAudience) {
      tags := tags + [["audience", c.targetAudience.value]];
    }
    ghost var fixed := tags;
    var i := 0;
    while i < |c.tags|
      invariant 0 <= i <= |c.tags|
      invariant tags == fixed + Pairs("t", c.tags[..i])
    {
      assert Pairs("t", c.tags[..i + 1]) == Pairs("t", c.tags[..i]) + [["t", c.tags[i]]];
      tags := tags + [["t", c.tags[i]]];
      i := i + 1;
    }
    assert c.tags[..i] == c.tags;
    ghost var withTopics := tags;
    var j := 0;
    while j < |c.posts|
      invariant 0 <= j <= |c.posts|
      invariant tags == withTopics + Pairs("post", c.posts[..j])
    {
      assert Pairs("post", c.posts[..j + 1]) == Pairs("post", c.posts[..j]) + [["post", c.posts[j]]];
      tags := tags + [["post", c.posts[j]]];
      j := j + 1;
    }
    assert c.posts[..j] == c.posts;
  }

  /** The tags of `useDeleteCampaign`: the id and status `cancelled`. */
  function DeletionTags(campaignId: string): seq<Tag> {
    [["d", campaignId], ["status", "cancelled"]]
  }

  /** A deletion record has no title, start or end, so it is read as null. */
  lemma DeletionIsSkipped(campaignId: string, eventId: string, pubkey: string, createdAt: int)
    ensures FirstValue(DeletionTags(campaignId), "title") == None
    ensures EventToCampaign(Event(eventId, pubkey, createdAt, CampaignKind, DeletionTags(campaignId), "")).None?
  {
    FirstValueAbsent(DeletionTags(campaignId), "title");
  }

  // ---------------------------------------------------------------------
  // Reading written tags back

  lemma PairsNamed(x: CampaignText)
    ensures forall t :: t in Pairs("t", x.topics) ==> Named(t, "t")
    ensures forall t :: t in Pairs("post", x.posts) ==> Named(t, "post")
  {
  }

  lemma LookupD(x: CampaignText)
    ensures FirstValue(CampaignRecordTags(x), "d") == Some(x.id)
  {
    PairsNamed(x);
    FirstValueIs(CampaignRecordTags(x), "d", Some(x.id));
  }

  lemma LookupTitle(x: CampaignText)
    ensures FirstValue(CampaignRecordTags(x), "title") == Some(x.title)
  {
    PairsNamed(x);
    FirstValueIs(CampaignRecordTags(x), "title", Some(x.title));
  }

  lemma LookupDescription(x: CampaignText)
    ensures FirstValue(CampaignRecordTags(x), "description") == Some(x.description)
  {
    PairsNamed(x);
    FirstValueIs(CampaignRecordTags(x), "description", Some(x.description));
  }

  lemma LookupStart(x: CampaignText)
    ensures FirstValue(CampaignRecordTags(x), "start") == Some(x.start)
  {
    PairsNamed(x);
    FirstValueIs(CampaignRecordTags(x), "start", Some(x.start));
  }

  lemma LookupEnd(x: CampaignText)
    ensures FirstValue(CampaignRecordTags(x), "end") == Some(x.end)
  {
    PairsNamed(x);
    FirstValueIs(CampaignRecordTags(x), "end", Some(x.end));
  }

  lemma LookupStatus(x: CampaignText)
    ensures FirstValue(CampaignRecordTags(x), "status") == Some(x.status)
  {
    PairsNamed(x);
    FirstValueIs(CampaignRecordTags(x), "status", Some(x.status));
  }

  lemma LookupTotalPosts(x: CampaignText)
    ensures FirstValue(CampaignRecordTags(x), "total_posts") == Some(x.total)
  {
    PairsNamed(x);
    FirstValueIs(CampaignRecordTags(x), "total_posts", Some(x.total));
  }

  lemma LookupCompletedPosts(x: CampaignText)
    ensures FirstValue(CampaignRecordTags(x), "completed_posts") == Some(x.completed)
  {
    PairsNamed(x);
    FirstValueIs(CampaignRecordTags(x), "completed_posts", Some(x.completed));
  }

  lemma LookupAudience(x: CampaignText)
    ensures FirstValue(CampaignRecordTags(x), "audience") == if Truthy(x.audience) then x.audience else None
  {
    PairsNamed(x);
    FirstValueIs(CampaignRecordTags(x), "audience", if Truthy(x.audience) then x.audience else None);
  }

  /** The fixed and optional tags of a campaign record, before the lists. */
  function FixedTags(x: CampaignText): seq<Tag> {
    [["d", x.id], ["title", x.title], ["description", x.description], ["start", x.start], ["end", x.end],
     ["status", x.status], ["total_posts", x.total], ["completed_posts", x.completed]]
    + OptionalTag("audience", x.audience)
  }

  lemma LookupTopics(x: CampaignText)
    ensures AllValues(CampaignRecordTags(x), "t") == Somes(x.topics)
  {
    PairsNamed(x);
    var fixed, ts, ps := FixedTags(x), Pairs("t", x.topics), Pairs("post", x.posts);
    assert CampaignRecordTags(x) == fixed + ts + ps;
    AllValuesAppend(fixed + ts, ps, "t");
    AllValuesAppend(fixed, ts, "t");
    FirstValueAbsent(fixed, "t");
    FirstValueAbsent(ps, "t");
    AllValuesPairs("t", x.topics);
  }

  lemma LookupPosts(x: CampaignText)
    ensures AllValues(CampaignRecordTags(x), "post") == Somes(x.posts)
  {
    PairsNamed(x);
    var fixed, ts, ps := FixedTags(x), Pairs("t", x.topics), Pairs("post", x.posts);
    assert CampaignRecordTags(x) == fixed + ts + ps;
    AllValuesAppend(fixed + ts, ps, "post");
    AllValuesAppend(fixed, ts, "post");
    FirstValueAbsent(fixed, "post");
    FirstValueAbsent(ts, "post");
    AllValuesPairs("post", x.posts);
  }

  /** One step of the reader, given what each lookup yields. */
  lemma EventToCampaignWith(ev: Event, x: CampaignText)
    requires x.id != "" && x.title != "" && x.start != "" && x.end != "" && x.status != ""
    requires x.total != "" && x.completed != ""
    requires FirstValue(ev.tags, "d") == Some(x.id) && FirstValue(ev.tags, "title") == Some(x.title)
    requires FirstValue(ev.tags, "description") == Some(x.description)
    requires FirstValue(ev.tags, "start") == Some(x.start) && FirstValue(ev.tags, "end") == Some(x.end)
    requires FirstValue(ev.tags, "status") == Some(x.status)
    requires FirstValue(ev.tags, "total_posts") == Some(x.total)
    requires FirstValue(ev.tags, "completed_posts") == Some(x.completed)
    requires FirstValue(ev.tags, "audience") == if Truthy(x.audience) then x.audience else None
    requires Present(AllValues(ev.tags, "t")) == NonEmpty(x.topics)
    requires Present(AllValues(ev.tags, "post")) == NonEmpty(x.posts)
    ensures EventToCampaign(ev)
         == Some(Campaign(x.id, x.title, x.description, DateFromSeconds(ParseInt(x.start)),
                          DateFromSeconds(ParseInt(x.end)), x.status, MakeDate(ev.createdAt * 1000), ev.pubkey,
                          if Truthy(x.audience) then x.audience else None,
                          NonEmpty(x.topics), NonEmpty(x.posts), Some(ev.id), ParseInt(x.total), ParseInt(x.completed)))
  {
  }

  /** The reader over a campaign's tags, the texts left abstract. */
  lemma ParseCampaignText(x: CampaignText, eventId: string, pubkey: string, createdAt: int)
    requires x.id != "" && x.title != "" && x.start != "" && x.end != "" && x.status != ""
    requires x.total != "" && x.completed != ""
    ensures EventToCampaign(Event(eventId, pubkey, createdAt, CampaignKind, CampaignRecordTags(x), ""))
         == Some(Campaign(x.id, x.title, x.description, DateFromSeconds(ParseInt(x.start)),
                          DateFromSeconds(ParseInt(x.end)), x.status, MakeDate(createdAt * 1000), pubkey,
                          if Truthy(x.audience) then x.audience else None,
                          NonEmpty(x.topics), NonEmpty(x.posts), Some(eventId), ParseInt(x.total), ParseInt(x.completed)))
  {
    LookupD(x);
    LookupTitle(x);
    LookupDescription(x);
    LookupStart(x);
    LookupEnd(x);
    LookupStatus(x);
    LookupTotalPosts(x);
    LookupCompletedPosts(x);
    LookupAudience(x);
    LookupTopics(x);
    LookupPosts(x);
    PresentOfSomes(x.topics);
    PresentOfSomes(x.posts);
    EventToCampaignWith(Event(eventId, pubkey, createdAt, CampaignKind, CampaignRecordTags(x), ""), x);
  }

  /**
   * Reading back the tags of a campaign recovers it: every written field as
   * it was, the dates truncated to whole seconds, the audience only when it
   * is non-empty, the topics and post ids without empty strings (all of
   * them when none is empty), and the author, time and id of the event.
   */
  lemma CampaignRoundTrip(c: Campaign, eventId: string, pubkey: string, createdAt: int)
    requires c.id != "" && c.title != "" && c.status != ""
    requires Clipped(c.startDate) && Clipped(c.endDate)
    ensures var r := EventToCampaign(Event(eventId, pubkey, createdAt, CampaignKind, CampaignTags(c), ""));
      r == Some(c.(startDate := WholeSeconds(c.startDate), endDate := WholeSeconds(c.endDate),
                   createdAt := MakeDate(createdAt * 1000), createdBy := pubkey,
                   targetAudience := if Truthy(c.targetAudience) then c.targetAudience else None,
                   tags := NonEmpty(c.tags), posts := NonEmpty(c.posts), publishedEventId := Some(eventId)))
    ensures (forall i :: 0 <= i < |c.tags| ==> c.tags[i] != "") ==> NonEmpty(c.tags) == c.tags
    ensures (forall i :: 0 <= i < |c.posts| ==> c.posts[i] != "") ==> NonEmpty(c.posts) == c.posts
  {
    var x := Text(c);
    NumToStringNonEmpty(Seconds(c.startDate));
    NumToStringNonEmpty(Seconds(c.endDate));
    NumToStringNonEmpty(c.totalPosts);
    NumToStringNonEmpty(c.completedPosts);
    ParseCampaignText(x, eventId, pubkey, createdAt);
    ParseNumToString(Seconds(c.startDate));
    ParseNumToString(Seconds(c.endDate));
    ParseNumToString(c.totalPosts);
    ParseNumToString(c.completedPosts);
    DateFromSecondsOfSeconds(c.startDate);
    DateFromSecondsOfSeconds(c.endDate);
    if forall i :: 0 <= i < |c.tags| ==> c.tags[i] != "" {
      NonEmptyOfNonEmpty(c.tags);
    }
    if forall i :: 0 <= i < |c.posts| ==> c.posts[i] != "" {
      NonEmptyOfNonEmpty(c.posts);
    }
  }

  /** Missing counts read as 0, a missing description as the empty string. */
  lemma MissingCountsDefault(ev: Event)
    requires EventToCampaign(ev).Some?
    requires !Truthy(FirstValue(ev.tags, "total_posts")) && !Truthy(FirstValue(ev.tags, "completed_posts"))
    requires !Truthy(FirstValue(ev.tags, "description"))
    ensures EventToCampaign(ev).value.totalPosts == N(0) && EventToCampaign(ev).value.completedPosts == N(0)
    ensures EventToCampaign(ev).value.description == ""
  {
    ParseNumToString(N(0));
  }

  // ---------------------------------------------------------------------
  // The campaign list

  /** `events.map(eventToCampaign).filter(c => c !== null)`. */
  function ParseCampaigns(events: seq<Event>): (r: seq<Campaign>)
    ensures |r| <= |events|
  {
    if events == [] then []
    else (match EventToCampaign(events[0]) case Some(c) => [c] case None => []) + ParseCampaigns(events[1..])
  }

  /** The list holds exactly the campaigns the readable events yield. */
  lemma {:induction false} ParseCampaignsExactly(events: seq<Event>)
    ensures forall c :: c in ParseCampaigns(events) <==> exists e :: e in events && EventToCampaign(e) == Some(c)
    decreases |events|
  {
    if events != [] {
      ParseCampaignsExactly(events[1..]);
      forall c | c in ParseCampaigns(events)
        ensures exists e :: e in events && EventToCampaign(e) == Some(c)
      {
        if EventToCampaign(events[0]) == Some(c) {
          assert events[0] in events;
        } else {
          var e :| e in events[1..] && EventToCampaign(e) == Some(c);
          assert e in events;
        }
      }
      forall e | e in events && EventToCampaign(e).Some?
        ensures EventToCampaign(e).value in ParseCampaigns(events)
      {
        if e != events[0] {
          assert e in events[1..];
        }
      }
    }
  }

  /** `b.createdAt.getTime() - a.createdAt.getTime()`, NaN (read as 0) when either date is invalid. */
  function CompareCreatedDesc(a: Campaign, b: Campaign): int {
    if a.createdAt.At? && b.createdAt.At? then b.createdAt.ms - a.createdAt.ms else 0
  }

  lemma CompareCreatedDescConsistent()
    ensures NeverBothGreater(CompareCreatedDesc)
  {
  }

  /** The query function after the fetch: read the events, drop the nulls, sort newest first. */
  method LoadCampaigns(events: seq<Event>) returns (campaigns: seq<Campaign>)
    ensures multiset(campaigns) == multiset(ParseCampaigns(events))
    ensures AdjacentSorted(campaigns, CompareCreatedDesc)
  {
    var parsed := ParseCampaigns(events);
    var a := new Campaign[|parsed|](i requires 0 <= i < |parsed| => parsed[i]);
    assert a[..] == parsed;
    CompareCreatedDescConsistent();
    SortInPlace(a, CompareCreatedDesc);
    campaigns := a[..];
  }

  /** Where every creation date is valid, the sorted list is newest first at every two positions. */
  lemma LoadedNewestFirst(campaigns: seq<Campaign>, i: int, j: int)
    requires AdjacentSorted(campaigns, CompareCreatedDesc)
    requires forall k :: 0 <= k < |campaigns| ==> campaigns[k].createdAt.At?
    requires 0 <= i < j < |campaigns|
    ensures campaigns[i].createdAt.ms >= campaigns[j].createdAt.ms
  {
    AdjacentSortedOrdersAll(campaigns, CompareCreatedDesc, i, j);
  }
}
