/**
 * Reading kind-30401 scheduled-post records (`src/hooks/useScheduledPosts.ts`):
 * each relay event becomes a `ScheduledPost` unless a required tag is missing
 * or its scheduled content cannot be decrypted, and the list is sorted by
 * publish time. NIP-44 decryption and the fetch of a published event's
 * content are parameters: `decrypt(c)` is None when decryption throws, and
 * `fetched(id)` is None when the fetch throws or finds no event.
 */
module ScheduledPosts {
  import opened Builtins
  import opened Nostr
  import opened Sorting

  datatype ScheduledPost = ScheduledPost(
    id: string,
    title: string,
    content: string,
    publishAt: Date,
    status: string,
    targetKind: Num,
    createdAt: Date,
    publishedEventId: Value,
    error: Value,
    images: Option<seq<Value>>,
    event: Event)

  /** The five tags without which a record is skipped all have truthy values. */
  predicate HasRequiredTags(tags: seq<Tag>) {
    Truthy(FirstValue(tags, "d")) && Truthy(FirstValue(tags, "publish_at")) && Truthy(FirstValue(tags, "status"))
    && Truthy(FirstValue(tags, "target_kind")) && Truthy(FirstValue(tags, "created_at"))
  }

  /**
   * The content chosen by status: decrypted for a scheduled record (None, so
   * the record is skipped, when that throws), fetched for a published one,
   * decrypted or left empty for a failed or cancelled one.
   */
  function RecordContent(status: string, encrypted: string, publishedEventId: Value, hasNip44: bool,
                         decrypt: string -> Option<string>, fetched: string -> Option<string>): Option<string> {
    if status == "scheduled" && encrypted != "" then
      if hasNip44 then decrypt(encrypted) else Some("")
    else if status == "published" && Truthy(publishedEventId) then
      Some(match fetched(publishedEventId.value) case Some(c) => c case None => "")
    else if (status == "failed" || status == "cancelled") && encrypted != "" then
      Some(if hasNip44 then match decrypt(encrypted) case Some(c) => c case None => "" else "")
    else Some("")
  }

  /** The record an event yields, or None when the loop skips it with `continue`. */
  function ParseEvent(ev: Event, hasNip44: bool, decrypt: string -> Option<string>,
                      fetched: string -> Option<string>): (r: Option<ScheduledPost>)
    ensures r.Some? <==> (HasRequiredTags(ev.tags)
      && RecordContent(FirstValue(ev.tags, "status").value, ev.content, FirstValue(ev.tags, "published_event"),
                       hasNip44, decrypt, fetched).Some?)
    ensures r.Some? ==> r.value.event == ev && r.value.title != ""
  {
    var tags := ev.tags;
    var d := FirstValue(tags, "d");
    var publishAt := FirstValue(tags, "publish_at");
    var status := FirstValue(tags, "status");
    var targetKind := FirstValue(tags, "target_kind");
    var createdAt := FirstValue(tags, "created_at");
    var publishedEventId := FirstValue(tags, "published_event");
    var error := FirstValue(tags, "error");
    var title := FirstValue(tags, "title");
    var images := AllValues(tags, "image");
    if !HasRequiredTags(tags) then None
    else match RecordContent(status.value, ev.content, publishedEventId, hasNip44, decrypt, fetched)
      case None => None
      case Some(content) =>
        Some(ScheduledPost(
          d.value,
          if Truthy(title) then title.value else "Untitled Post",
          content,
          DateFromSeconds(ParseInt(publishAt.value)),
          status.value,
          ParseInt(targetKind.value),
          DateFromSeconds(ParseInt(createdAt.value)),
          publishedEventId,
          error,
          if |images| > 0 then Some(images) else None,
          ev))
  }

  /** The records of a list of events, in event order. */
  function ParseAll(events: seq<Event>, hasNip44: bool, decrypt: string -> Option<string>,
                    fetched: string -> Option<string>): (r: seq<ScheduledPost>)
    ensures |r| <= |events|
  {
    if events == [] then []
    else
      var init := ParseAll(events[..|events| - 1], hasNip44, decrypt, fetched);
      match ParseEvent(events[|events| - 1], hasNip44, decrypt, fetched)
      case None => init
      case Some(p) => init + [p]
  }

  /** The parse loop of the query function. */
  method ParseEvents(events: seq<Event>, hasNip44: bool, decrypt: string -> Option<string>,
                     fetched: string -> Option<string>) returns (scheduledPosts: seq<ScheduledPost>)
    ensures scheduledPosts == ParseAll(events, hasNip44, decrypt, fetched)
  {
    scheduledPosts := [];
    var i := 0;
    while i < |events|
      invariant 0 <= i <= |events|
      invariant scheduledPosts == ParseAll(events[..i], hasNip44, decrypt, fetched)
    {
      var post := ParseEvent(events[i], hasNip44, decrypt, fetched);
      ParseAllStep(events, i, hasNip44, decrypt, fetched);
      ghost var next := ParseAll(events[..i + 1], hasNip44, decrypt, fetched);
      i := i + 1;
      if post.None? {
        assert next == scheduledPosts;
        continue;
      }
      scheduledPosts := scheduledPosts + [post.value];
      assert next == scheduledPosts;
    }
    assert events[..i] == events;
  }

  /** `a.publishAt.getTime() - b.publishAt.getTime()`, NaN (read as 0) when either date is invalid. */
  function ComparePublishAt(a: ScheduledPost, b: ScheduledPost): int {
    if a.publishAt.At? && b.publishAt.At? then a.publishAt.ms - b.publishAt.ms else 0
  }

  lemma ComparePublishAtConsistent()
    ensures NeverBothGreater(ComparePublishAt)
  {
  }

  /** The query function after the fetch: parse, then sort ascending by publish time. */
  method LoadScheduledPosts(events: seq<Event>, hasNip44: bool, decrypt: string -> Option<string>,
                            fetched: string -> Option<string>) returns (posts: seq<ScheduledPost>)
    ensures multiset(posts) == multiset(ParseAll(events, hasNip44, decrypt, fetched))
    ensures AdjacentSorted(posts, ComparePublishAt)
  {
    var parsed := ParseEvents(events, hasNip44, decrypt, fetched);
    var a := new ScheduledPost[|parsed|](i requires 0 <= i < |parsed| => parsed[i]);
    assert a[..] == parsed;
    ComparePublishAtConsistent();
    SortInPlace(a, ComparePublishAt);
    posts := a[..];
  }

  /** Where every date is valid, the sorted list is ordered by publish time at every two positions. */
  lemma LoadedInPublishOrder(posts: seq<ScheduledPost>, i: int, j: int)
    requires AdjacentSorted(posts, ComparePublishAt)
    requires forall k :: 0 <= k < |posts| ==> posts[k].publishAt.At?
    requires 0 <= i < j < |posts|
    ensures posts[i].publishAt.ms <= posts[j].publishAt.ms
  {
    AdjacentSortedOrdersAll(posts, ComparePublishAt, i, j);
  }

  /** Parsing a concatenation of event lists concatenates the records. */
  lemma {:induction false} ParseAllAppend(a: seq<Event>, b: seq<Event>, hasNip44: bool,
                                         decrypt: string -> Option<string>, fetched: string -> Option<string>)
    ensures ParseAll(a + b, hasNip44, decrypt, fetched)
         == ParseAll(a, hasNip44, decrypt, fetched) + ParseAll(b, hasNip44, decrypt, fetched)
    decreases |b|
  {
    if b == [] {
      assert a + b == a;
    } else {
      var b' := b[..|b| - 1];
      assert (a + b)[..|a + b| - 1] == a + b';
      assert (a + b)[|a + b| - 1] == b[|b| - 1];
      ParseAllAppend(a, b', hasNip44, decrypt, fetched);
    }
  }

  /** Records are never merged: two accepted events give two records, even when they share their `d` value. */
  lemma ParseKeepsEveryRecord(e1: Event, e2: Event, hasNip44: bool,
                              decrypt: string -> Option<string>, fetched: string -> Option<string>)
    requires ParseEvent(e1, hasNip44, decrypt, fetched).Some? && ParseEvent(e2, hasNip44, decrypt, fetched).Some?
    ensures ParseAll([e1, e2], hasNip44, decrypt, fetched)
         == [ParseEvent(e1, hasNip44, decrypt, fetched).value, ParseEvent(e2, hasNip44, decrypt, fetched).value]
  {
    ParseAllOne(e1, hasNip44, decrypt, fetched);
    ParseAllSnoc([e1], e2, hasNip44, decrypt, fetched);
    assert [e1] + [e2] == [e1, e2];
  }

  /** Parsing one more event appends its record, if it yields one. */
  lemma ParseAllSnoc(es: seq<Event>, e: Event, hasNip44: bool, decrypt: string -> Option<string>,
                     fetched: string -> Option<string>)
    ensures var p := ParseEvent(e, hasNip44, decrypt, fetched);
      ParseAll(es + [e], hasNip44, decrypt, fetched)
      == ParseAll(es, hasNip44, decrypt, fetched) + if p.Some? then [p.value] else []
  {
    assert (es + [e])[..|es|] == es;
  }

  /** One more turn of the parse loop. */
  lemma ParseAllStep(events: seq<Event>, i: nat, hasNip44: bool, decrypt: string -> Option<string>,
                     fetched: string -> Option<string>)
    requires i < |events|
    ensures var p := ParseEvent(events[i], hasNip44, decrypt, fetched);
      ParseAll(events[..i + 1], hasNip44, decrypt, fetched)
      == ParseAll(events[..i], hasNip44, decrypt, fetched) + if p.Some? then [p.value] else []
  {
    assert events[..i + 1] == events[..i] + [events[i]];
    ParseAllSnoc(events[..i], events[i], hasNip44, decrypt, fetched);
  }

  /** The records of a single event. */
  lemma ParseAllOne(e: Event, hasNip44: bool, decrypt: string -> Option<string>, fetched: string -> Option<string>)
    ensures var p := ParseEvent(e, hasNip44, decrypt, fetched);
      ParseAll([e], hasNip44, decrypt, fetched) == if p.Some? then [p.value] else []
  {
    assert [e][..0] == [];
  }

  /** A scheduled record whose decryption throws is dropped; a failed or cancelled one is kept with empty content. */
  lemma DecryptFailure(ev: Event, decrypt: string -> Option<string>, fetched: string -> Option<string>)
    requires HasRequiredTags(ev.tags) && ev.content != "" && decrypt(ev.content).None?
    ensures FirstValue(ev.tags, "status") == Some("scheduled") ==> ParseEvent(ev, true, decrypt, fetched).None?
    ensures FirstValue(ev.tags, "status") in {Some("failed"), Some("cancelled")} ==>
      ParseEvent(ev, true, decrypt, fetched).Some? && ParseEvent(ev, true, decrypt, fetched).value.content == ""
  {
  }
}
