/**
 * The campaign editor's logic (`src/components/CampaignForm.tsx`): the topic
 * tag list, the date check and the record built on submission, the gate of
 * the posts step, and the drafts made from a campaign's loaded posts. The
 * clock reading and the user's key are parameters; the relay writes are not
 * modelled.
 */
module CampaignForm {
  import opened Builtins
  import opened Nostr
  import opened Lists
  import opened Campaigns
  import opened CampaignPostForm

  /** `addTag`: the new tag list and the new input text. */
  datatype TagEdit = TagEdit(tags: seq<string>, input: string)

  /**
   * The trimmed input is appended when it is non-empty and not yet present;
   * only then is the input cleared.
   */
  function AddTag(tags: seq<string>, newTag: string): (r: TagEdit)
    ensures r.tags == tags || r.tags == tags + [Trim(newTag)]
    ensures r.tags != tags <==> Trim(newTag) != "" && Trim(newTag) !in tags
    ensures r.input == "" || r.input == newTag
    ensures r.tags != tags <==> r.input == "" && newTag != ""
  {
    var t := Trim(newTag);
    if t != "" && t !in tags then TagEdit(tags + [t], "") else TagEdit(tags, newTag)
  }

  /** Adding keeps the tag list free of duplicates. */
  lemma AddTagNoDuplicates(tags: seq<string>, newTag: string)
    requires NoDuplicates(tags)
    ensures NoDuplicates(AddTag(tags, newTag).tags)
  {
    var r := AddTag(tags, newTag).tags;
    if r != tags {
      forall i, j | 0 <= i < j < |r|
        ensures r[i] != r[j]
      {
        if j == |tags| {
          assert r[i] == tags[i];
        }
      }
    }
  }

  /** `removeTag(x)`: every tag but x, in order. */
  function RemoveTag(tags: seq<string>, x: string): (r: seq<string>)
    ensures |r| <= |tags|
  {
    Filter(tags, t => t != x)
  }

  /** Removal takes out every occurrence of x and keeps every other tag and the order. */
  lemma RemoveTagExactly(tags: seq<string>, x: string)
    ensures x !in RemoveTag(tags, x)
    ensures forall t :: t in RemoveTag(tags, x) <==> t in tags && t != x
    ensures forall a, b :: Filter(a + b, (t: string) => t != x) == RemoveTag(a, x) + RemoveTag(b, x)
    ensures NoDuplicates(tags) ==> NoDuplicates(RemoveTag(tags, x))
  {
    FilterMembers(tags, t => t != x);
    forall a, b
      ensures Filter(a + b, (t: string) => t != x) == RemoveTag(a, x) + RemoveTag(b, x)
    {
      FilterAppend(a, b, t => t != x);
    }
    if NoDuplicates(tags) {
      FilterNoDuplicates(tags, t => t != x);
    }
  }

  /** The fields the form collects. */
  datatype FormData = FormData(title: string, description: string, totalPosts: Num, targetAudience: Value)

  /** What a submission does: nothing, an update of the edited campaign, or a new campaign. */
  datatype Submission = Ignored | Update(updated: Campaign) | Create(created: Campaign)

  /**
   * `onSubmit`: nothing unless both dates are set and the end is not on or
   * before the start; then the edited campaign with the form's fields, or a
   * new draft campaign identified by the clock.
   */
  function OnSubmit(campaign: Option<Campaign>, data: FormData, startDate: Option<Date>, endDate: Option<Date>,
                    tags: seq<string>, now: int, pubkey: string): (r: Submission)
    ensures r.Ignored? <==> startDate.None? || endDate.None? || DateLessEq(endDate.value, startDate.value)
    ensures r.Update? ==> campaign.Some?
    ensures r.Create? ==> campaign.None?
  {
    if startDate.None? || endDate.None? then Ignored
    else if DateLessEq(endDate.value, startDate.value) then Ignored
    else match campaign
      case Some(c) =>
        Update(c.(title := data.title, description := data.description, totalPosts := data.totalPosts,
                  targetAudience := data.targetAudience, startDate := startDate.value,
                  endDate := endDate.value, tags := tags))
      case None =>
        Create(Campaign("campaign-" + NumToString(N(now)), data.title, data.description, startDate.value,
                        endDate.value, "draft", MakeDate(now), pubkey, data.targetAudience, tags, [], None,
                        data.totalPosts, N(0)))
  }

  /** With valid dates, an accepted submission has its end strictly after its start. */
  lemma AcceptedDatesOrdered(campaign: Option<Campaign>, data: FormData, startDate: Date, endDate: Date,
                             tags: seq<string>, now: int, pubkey: string)
    requires startDate.At? && endDate.At?
    ensures !OnSubmit(campaign, data, Some(startDate), Some(endDate), tags, now, pubkey).Ignored?
        <==> startDate.ms < endDate.ms
  {
  }

  /** An update keeps the campaign's identity, status, posts and progress, and takes the form's fields. */
  lemma UpdateKeepsIdentity(c: Campaign, data: FormData, startDate: Date, endDate: Date,
                            tags: seq<string>, now: int, pubkey: string)
    requires !DateLessEq(endDate, startDate)
    ensures var r := OnSubmit(Some(c), data, Some(startDate), Some(endDate), tags, now, pubkey);
      r.Update? && r.updated.id == c.id && r.updated.status == c.status && r.updated.posts == c.posts
      && r.updated.completedPosts == c.completedPosts && r.updated.createdAt == c.createdAt
      && r.updated.createdBy == c.createdBy && r.updated.publishedEventId == c.publishedEventId
      && r.updated.title == data.title && r.updated.totalPosts == data.totalPosts && r.updated.tags == tags
      && r.updated.startDate == startDate && r.updated.endDate == endDate
  {
  }

  /**
   * A new campaign is a draft without posts; the record written for it reads
   * back as a draft with its clock-made id, no posts and no completed posts.
   */
  lemma CreatedIsDraft(data: FormData, startDate: Date, endDate: Date, tags: seq<string>, now: int,
                       pubkey: string, eventId: string, createdAt: int)
    requires !DateLessEq(endDate, startDate) && data.title != ""
    requires Clipped(startDate) && Clipped(endDate)
    ensures var r := OnSubmit(None, data, Some(startDate), Some(endDate), tags, now, pubkey);
      r.Create? && r.created.status == "draft" && r.created.posts == [] && r.created.completedPosts == N(0)
      && r.created.id == "campaign-" + NumToString(N(now))
    ensures var c := OnSubmit(None, data, Some(startDate), Some(endDate), tags, now, pubkey).created;
      var back := EventToCampaign(Event(eventId, pubkey, createdAt, CampaignKind, CampaignTags(c), ""));
      back.Some? && back.value.status == "draft" && back.value.id == c.id && back.value.posts == []
      && back.value.completedPosts == N(0) && back.value.title == data.title
  {
    var c := OnSubmit(None, data, Some(startDate), Some(endDate), tags, now, pubkey).created;
    CampaignRoundTrip(c, eventId, pubkey, createdAt);
    assert NonEmpty(c.posts) == [];
  }

  /** `canProceedToPosts`: a title, a truthy post count and both dates. */
  predicate CanProceedToPosts(title: string, totalPosts: Num, startDate: Option<Date>, endDate: Option<Date>) {
    title != "" && NumTruthy(totalPosts) && startDate.Some? && endDate.Some?
  }

  /** The posts step opens before the dates are checked: an end before the start does not close it. */
  lemma ProceedIgnoresDateOrder(title: string, totalPosts: Num, startDate: Date, endDate: Date)
    requires title != "" && NumTruthy(totalPosts)
    ensures CanProceedToPosts(title, totalPosts, Some(startDate), Some(endDate))
  {
  }

  /** A count of 0 or NaN keeps the posts step closed. */
  lemma NoCountNoPosts(title: string, startDate: Option<Date>, endDate: Option<Date>)
    ensures !CanProceedToPosts(title, N(0), startDate, endDate)
    ensures !CanProceedToPosts(title, NaN, startDate, endDate)
  {
  }

  /** The fields of a loaded campaign post that the editor takes. */
  datatype ExistingPost = ExistingPost(id: string, title: string, content: string,
                                       images: Option<seq<string>>, publishAt: Date)

  /** A draft for a loaded post, numbered as given. */
  function DraftOf(p: ExistingPost, order: int): Draft {
    Draft(p.id, p.title, p.content, Some(if p.images.Some? then p.images.value else []), order, Some(p.publishAt))
  }

  /** The conversion as written: each loaded post becomes a draft numbered by its 0-based index. */
  function ExistingDraftsAsWritten(posts: seq<ExistingPost>): (r: seq<Draft>)
    ensures |r| == |posts|
    ensures forall i :: 0 <= i < |posts| ==> r[i] == DraftOf(posts[i], i)
  {
    seq(|posts|, i requires 0 <= i < |posts| => DraftOf(posts[i], i))
  }

  /**
   * The 0-based numbering breaks the editor's 1-based one: the first loaded
   * draft shows as "Post #0", and the next `addPost` skips a number.
   */
  lemma AsWrittenNumberingBroken(posts: seq<ExistingPost>, now: int)
    requires posts != []
    ensures ExistingDraftsAsWritten(posts)[0].order == 0 && !Numbered(ExistingDraftsAsWritten(posts))
    ensures var added := AddPost(ExistingDraftsAsWritten(posts), now);
      added[|posts|].order == added[|posts| - 1].order + 2
  {
    var d := ExistingDraftsAsWritten(posts);
    var added := AddPost(d, now);
    assert added[|posts| - 1] == added[..|posts|][|posts| - 1];
  }

  /** The conversion as evidently intended: the same drafts, numbered from 1. */
  function ExistingDrafts(posts: seq<ExistingPost>): (r: seq<Draft>)
    ensures |r| == |posts|
    ensures forall i :: 0 <= i < |posts| ==> r[i] == DraftOf(posts[i], i + 1)
  {
    seq(|posts|, i requires 0 <= i < |posts| => DraftOf(posts[i], i + 1))
  }

  /**
   * The corrected drafts differ from the written ones only in their numbers,
   * are numbered like every other list change leaves them, and stay numbered
   * when a draft is added.
   */
  lemma ExistingDraftsNumbered(posts: seq<ExistingPost>, now: int)
    ensures Contents(ExistingDrafts(posts)) == Contents(ExistingDraftsAsWritten(posts))
    ensures Numbered(ExistingDrafts(posts))
    ensures ExistingDrafts(posts) == Renumber(ExistingDraftsAsWritten(posts))
    ensures Numbered(AddPost(ExistingDrafts(posts), now))
  {
    NumberedByContents(ExistingDrafts(posts), Renumber(ExistingDraftsAsWritten(posts)));
    AddPostKeepsNumbering(ExistingDrafts(posts), now);
  }
}
