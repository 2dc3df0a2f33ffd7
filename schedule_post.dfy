/**
 * Writing kind-30401 scheduled-post records (`src/hooks/useSchedulePost.ts`):
 * the tags of a new record, of a status update and of a cancellation, and
 * what the reader of `ScheduledPosts` makes of each. NIP-44 encryption is a
 * parameter; the generated id and the clock reading are inputs.
 */
module SchedulePost {
  import opened Builtins
  import opened Nostr
  import opened ScheduledPosts

  const ScheduledPostKind: int := 30401

  datatype CreateData = CreateData(
    title: string,
    content: string,
    publishAt: Date,
    targetKind: Option<Num>,
    images: Option<seq<string>>)

  /** The fields of an update; `title` is carried by the scheduler's reports but not by the declared type. */
  datatype UpdateData = UpdateData(
    id: string,
    status: string,
    publishedEventId: Option<string>,
    error: Option<string>,
    publishAt: Option<Date>,
    targetKind: Option<Num>,
    createdAt: Option<Date>,
    title: Option<string>)

  /** An event before signing. */
  datatype Unsigned = Unsigned(kind: int, content: string, tags: seq<Tag>)

  /** How a mutation function ends: the event it publishes, or the message of the error it throws. */
  datatype Outcome<T> = Done(value: T) | Failed(message: string)

  /** `data.targetKind || 1`. */
  function KindOrDefault(k: Option<Num>): (r: Num)
    ensures NumTruthy(r)
    ensures r == N(1) <==> !(k.Some? && NumTruthy(k.value)) || k.value == N(1)
  {
    if k.Some? && NumTruthy(k.value) then k.value else N(1)
  }

  /** The images pushed as `image` tags: all of them, or none when the list is absent or empty. */
  function ImageList(images: Option<seq<string>>): seq<string> {
    if images.Some? && |images.value| > 0 then images.value else []
  }

  /** The tags of a new scheduled post. */
  function CreateTags(id: string, data: CreateData, nowMs: int): seq<Tag> {
    RecordTags(id, NumToString(Seconds(data.publishAt)), NumToString(KindOrDefault(data.targetKind)),
               NumToString(Seconds(At(nowMs))), data.title, ImageList(data.images))
  }

  /** The tag construction of `createScheduledPost`: six fixed tags, then one push per image. */
  method BuildCreateTags(id: string, data: CreateData, nowMs: int) returns (tags: seq<Tag>)
    ensures tags == CreateTags(id, data, nowMs)
  {
    var publishAt := NumToString(Seconds(data.publishAt));
    var kind := NumToString(KindOrDefault(data.targetKind));
    var created := NumToString(Seconds(At(nowMs)));
    tags := [["d", id], ["publish_at", publishAt], ["target_kind", kind], ["status", "scheduled"],
             ["created_at", created], ["title", data.title]];
    var images := ImageList(data.images);
    assert tags == RecordTags(id, publishAt, kind, created, data.title, images[..0]);
    var i := 0;
    while i < |images|
      invariant 0 <= i <= |images|
      invariant tags == RecordTags(id, publishAt, kind, created, data.title, images[..i])
    {
      assert Pairs("image", images[..i + 1]) == Pairs("image", images[..i]) + [["image", images[i]]];
      tags := tags + [["image", images[i]]];
      i := i + 1;
    }
    assert images[..i] == images;
  }

  /** `createScheduledPost`'s mutation function: the two sign-in checks, then the record event. */
  function CreateScheduledPost(hasUser: bool, hasNip44: bool, id: string, data: CreateData, nowMs: int,
                               encrypt: string -> string): (r: Outcome<Unsigned>)
    ensures r.Done? <==> hasUser && hasNip44
    ensures r.Done? ==> r.value.kind == ScheduledPostKind && r.value.content == encrypt(data.content)
  {
    if !hasUser then Failed("User not logged in")
    else if !hasNip44 then Failed("NIP-44 encryption not supported by your signer")
    else Done(Unsigned(ScheduledPostKind, encrypt(data.content), CreateTags(id, data, nowMs)))
  }

  /** A tag `[name, v]` pushed only when a value was supplied. */
  function SuppliedTag(name: string, v: Option<string>): seq<Tag> {
    if v.Some? then [[name, v.value]] else []
  }

  /** The whole-second text of a supplied date. */
  function SecondsText(d: Option<Date>): Option<string> {
    if d.Some? then Some(NumToString(Seconds(d.value))) else None
  }

  /** The text of a supplied and truthy target kind. */
  function KindText(k: Option<Num>): Option<string> {
    if k.Some? && NumTruthy(k.value) then Some(NumToString(k.value)) else None
  }

  /** The layout of an update's tags: d and status, then the three times/kind when supplied, then the two truthy ids. */
  function UpdateRecordTags(id: string, status: string, publishAt: Option<string>, kind: Option<string>,
                            created: Option<string>, publishedEvent: Value, error: Value): seq<Tag> {
    [["d", id], ["status", status]]
    + SuppliedTag("publish_at", publishAt) + SuppliedTag("target_kind", kind) + SuppliedTag("created_at", created)
    + OptionalTag("published_event", publishedEvent) + OptionalTag("error", error)
  }

  /** The tags of a status update as written: d and status, then each supplied field; never a title. */
  function UpdateTags(data: UpdateData): (r: seq<Tag>)
    ensures |r| >= 2 && r[0] == ["d", data.id] && r[1] == ["status", data.status]
    ensures forall t :: t in r ==> !Named(t, "title") && !Named(t, "image")
  {
    UpdateRecordTags(data.id, data.status, SecondsText(data.publishAt), KindText(data.targetKind),
                     SecondsText(data.createdAt), data.publishedEventId, data.error)
  }

  /** The tag construction of `updateScheduledPost`: two fixed tags, then a push for each supplied field. */
  method BuildUpdateTags(data: UpdateData) returns (tags: seq<Tag>)
    ensures tags == UpdateTags(data)
  {
    tags := [["d", data.id], ["status", data.status]];
    if data.publishAt.Some? {
      tags := tags + [["publish_at", NumToString(Seconds(data.publishAt.value))]];
    }
    assert tags == [["d", data.id], ["status", data.status]] + SuppliedTag("publish_at", SecondsText(data.publishAt));
    if data.targetKind.Some? && NumTruthy(data.targetKind.value) {
      tags := tags + [["target_kind", NumToString(data.targetKind.value)]];
    }
    assert tags == [["d", data.id], ["status", data.status]] + SuppliedTag("publish_at", SecondsText(data.publishAt))
                   + SuppliedTag("target_kind", KindText(data.targetKind));
    ghost var withKind := tags;
    if data.createdAt.Some? {
      tags := tags + [["created_at", NumToString(Seconds(data.createdAt.value))]];
    }
    assert tags == withKind + SuppliedTag("created_at", SecondsText(data.createdAt));
    ghost var withCreated := tags;
    if Truthy(data.publishedEventId) {
      tags := tags + [["published_event", data.publishedEventId.value]];
    }
    assert tags == withCreated + OptionalTag("published_event", data.publishedEventId);
    ghost var withEvent := tags;
    if Truthy(data.error) {
      tags := tags + [["error", data.error.value]];
    }
    assert tags == withEvent + OptionalTag("error", data.error);
    assert tags == UpdateRecordTags(data.id, data.status, SecondsText(data.publishAt), KindText(data.targetKind),
                                    SecondsText(data.createdAt), data.publishedEventId, data.error);
  }

  /** `updateScheduledPost`'s mutation function: a record event with empty content. */
  function UpdateScheduledPost(hasUser: bool, data: UpdateData): (r: Outcome<Unsigned>)
    ensures r.Done? <==> hasUser
    ensures r.Done? ==> r.value.kind == ScheduledPostKind && r.value.content == ""
  {
    if !hasUser then Failed("User not logged in") else Done(Unsigned(ScheduledPostKind, "", UpdateTags(data)))
  }

  /** The update tags with the reported title kept, as the scheduler's reports intend. */
  function UpdateTagsKeepingTitle(data: UpdateData): (r: seq<Tag>)
    ensures UpdateTags(data) <= r
  {
    UpdateTags(data) + OptionalTag("title", data.title)
  }

  /** `cancelScheduledPost(id)`: an update carrying only the id and status `cancelled`. */
  function CancelData(id: string): UpdateData {
    UpdateData(id, "cancelled", None, None, None, None, None, None)
  }

  /** The event a signed record carries, with arbitrary id, author and time stamp. */
  function Signed(u: Unsigned, id: string, pubkey: string, createdAt: int): Event {
    Event(id, pubkey, createdAt, u.kind, u.tags, u.content)
  }

  // ---------------------------------------------------------------------
  // Reading the records back

  lemma NumToStringTruthy(n: Num)
    ensures Truthy(Some(NumToString(n)))
  {
    NumToStringNonEmpty(n);
  }

  lemma ImagesReadBack(fixed: seq<Tag>, images: seq<string>)
    requires forall t :: t in fixed ==> !Named(t, "image")
    ensures AllValues(fixed + Pairs("image", images), "image") == Somes(images)
  {
    FirstValueAbsent(fixed, "image");
    AllValuesAppend(fixed, Pairs("image", images), "image");
    AllValuesPairs("image", images);
  }

  /** `titleTag || 'Untitled Post'`. */
  function TitleOrDefault(title: Value): string {
    if Truthy(title) then title.value else "Untitled Post"
  }

  /** One step of the reader: an event whose five required tags have the given truthy values. */
  lemma ParseEventWith(ev: Event, hasNip44: bool, decrypt: string -> Option<string>, fetched: string -> Option<string>,
                       d: string, publishAt: string, status: string, kind: string, created: string, content: string)
    requires FirstValue(ev.tags, "d") == Some(d) && FirstValue(ev.tags, "publish_at") == Some(publishAt)
    requires FirstValue(ev.tags, "status") == Some(status) && FirstValue(ev.tags, "target_kind") == Some(kind)
    requires FirstValue(ev.tags, "created_at") == Some(created)
    requires d != "" && publishAt != "" && status != "" && kind != "" && created != ""
    requires RecordContent(status, ev.content, FirstValue(ev.tags, "published_event"), hasNip44, decrypt, fetched) == Some(content)
    ensures ParseEvent(ev, hasNip44, decrypt, fetched) == Some(ScheduledPost(
      d, TitleOrDefault(FirstValue(ev.tags, "title")), content,
      DateFromSeconds(ParseInt(publishAt)), status, ParseInt(kind), DateFromSeconds(ParseInt(created)),
      FirstValue(ev.tags, "published_event"), FirstValue(ev.tags, "error"),
      if |AllValues(ev.tags, "image")| > 0 then Some(AllValues(ev.tags, "image")) else None,
      ev))
  {
  }

  /** The six fixed tags of a new record, followed by its `image` tags. */
  function RecordTags(id: string, publishAt: string, kind: string, created: string, title: string, images: seq<string>): seq<Tag> {
    [["d", id], ["publish_at", publishAt], ["target_kind", kind], ["status", "scheduled"],
     ["created_at", created], ["title", title]] + Pairs("image", images)
  }

  lemma LookupD(id: string, publishAt: string, kind: string, created: string, title: string, images: seq<string>)
    ensures FirstValue(RecordTags(id, publishAt, kind, created, title, images), "d") == Some(id)
  {
    var tags := RecordTags(id, publishAt, kind, created, title, images);
    assert forall t :: t in Pairs("image", images) ==> Named(t, "image");
    FirstValueOnly(tags, "d", id);
  }

  lemma LookupPublishAt(id: string, publishAt: string, kind: string, created: string, title: string, images: seq<string>)
    ensures FirstValue(RecordTags(id, publishAt, kind, created, title, images), "publish_at") == Some(publishAt)
  {
    var tags := RecordTags(id, publishAt, kind, created, title, images);
    assert forall t :: t in Pairs("image", images) ==> Named(t, "image");
    FirstValueOnly(tags, "publish_at", publishAt);
  }

  lemma LookupTargetKind(id: string, publishAt: string, kind: string, created: string, title: string, images: seq<string>)
    ensures FirstValue(RecordTags(id, publishAt, kind, created, title, images), "target_kind") == Some(kind)
  {
    var tags := RecordTags(id, publishAt, kind, created, title, images);
    assert forall t :: t in Pairs("image", images) ==> Named(t, "image");
    FirstValueOnly(tags, "target_kind", kind);
  }

  lemma LookupStatus(id: string, publishAt: string, kind: string, created: string, title: string, images: seq<string>)
    ensures FirstValue(RecordTags(id, publishAt, kind, created, title, images), "status") == Some("scheduled")
  {
    var tags := RecordTags(id, publishAt, kind, created, title, images);
    assert forall t :: t in Pairs("image", images) ==> Named(t, "image");
    FirstValueOnly(tags, "status", "scheduled");
  }

  lemma LookupCreatedAt(id: string, publishAt: string, kind: string, created: string, title: string, images: seq<string>)
    ensures FirstValue(RecordTags(id, publishAt, kind, created, title, images), "created_at") == Some(created)
  {
    var tags := RecordTags(id, publishAt, kind, created, title, images);
    assert forall t :: t in Pairs("image", images) ==> Named(t, "image");
    FirstValueOnly(tags, "created_at", created);
  }

  lemma LookupTitle(id: string, publishAt: string, kind: string, created: string, title: string, images: seq<string>)
    ensures FirstValue(RecordTags(id, publishAt, kind, created, title, images), "title") == Some(title)
  {
    var tags := RecordTags(id, publishAt, kind, created, title, images);
    assert forall t :: t in Pairs("image", images) ==> Named(t, "image");
    FirstValueOnly(tags, "title", title);
  }

  lemma LookupAbsent(id: string, publishAt: string, kind: string, created: string, title: string, images: seq<string>)
    ensures FirstValue(RecordTags(id, publishAt, kind, created, title, images), "published_event") == None
    ensures FirstValue(RecordTags(id, publishAt, kind, created, title, images), "error") == None
    ensures AllValues(RecordTags(id, publishAt, kind, created, title, images), "image")
         == Somes(images)
  {
    var tags := RecordTags(id, publishAt, kind, created, title, images);
    assert forall t :: t in Pairs("image", images) ==> Named(t, "image");
    FirstValueAbsent(tags, "published_event");
    FirstValueAbsent(tags, "error");
    ImagesReadBack(tags[..6], images);
    assert tags == tags[..6] + Pairs("image", images);
  }

  /** The lookups of the reader over the tags of a new record. */
  lemma FixedLookups(id: string, publishAt: string, kind: string, created: string, title: string, images: seq<string>)
    ensures var tags := RecordTags(id, publishAt, kind, created, title, images);
      && FirstValue(tags, "d") == Some(id)
      && FirstValue(tags, "publish_at") == Some(publishAt)
      && FirstValue(tags, "target_kind") == Some(kind)
      && FirstValue(tags, "status") == Some("scheduled")
      && FirstValue(tags, "created_at") == Some(created)
      && FirstValue(tags, "title") == Some(title)
      && FirstValue(tags, "published_event") == None
      && FirstValue(tags, "error") == None
      && AllValues(tags, "image") == Somes(images)
  {
    LookupD(id, publishAt, kind, created, title, images);
    LookupPublishAt(id, publishAt, kind, created, title, images);
    LookupTargetKind(id, publishAt, kind, created, title, images);
    LookupStatus(id, publishAt, kind, created, title, images);
    LookupCreatedAt(id, publishAt, kind, created, title, images);
    LookupTitle(id, publishAt, kind, created, title, images);
    LookupAbsent(id, publishAt, kind, created, title, images);
  }

  /**
   * A new record reads back as what was scheduled: the id, the title (or
   * 'Untitled Post' when it is empty), the decrypted content, the publish
   * and creation times truncated to whole seconds, status `scheduled`, the
   * target kind (1 by default) and the images in order (undefined when there
   * are none). Every required tag is present, so it is never skipped.
   */
  lemma CreateRoundTrip(id: string, data: CreateData, nowMs: int, encrypted: string,
                        decrypt: string -> Option<string>, fetched: string -> Option<string>,
                        eventId: string, pubkey: string, createdAt: int)
    requires id != ""
    requires Clipped(data.publishAt) && Clipped(At(nowMs))
    requires encrypted != "" ==> decrypt(encrypted) == Some(data.content)
    ensures var ev := Event(eventId, pubkey, createdAt, ScheduledPostKind, CreateTags(id, data, nowMs), encrypted);
      var images := ImageList(data.images);
      ParseEvent(ev, true, decrypt, fetched) == Some(ScheduledPost(
        id,
        if data.title != "" then data.title else "Untitled Post",
        if encrypted != "" then data.content else "",
        WholeSeconds(data.publishAt),
        "scheduled",
        KindOrDefault(data.targetKind),
        WholeSeconds(At(nowMs)),
        None,
        None,
        if |images| > 0 then Some(Somes(images)) else None,
        ev))
  {
    var ev := Event(eventId, pubkey, createdAt, ScheduledPostKind, CreateTags(id, data, nowMs), encrypted);
    FixedLookups(id, NumToString(Seconds(data.publishAt)), NumToString(KindOrDefault(data.targetKind)),
                 NumToString(Seconds(At(nowMs))), data.title, ImageList(data.images));
    NumToStringNonEmpty(Seconds(data.publishAt));
    NumToStringNonEmpty(KindOrDefault(data.targetKind));
    NumToStringNonEmpty(Seconds(At(nowMs)));
    ParseEventWith(ev, true, decrypt, fetched, id, NumToString(Seconds(data.publishAt)), "scheduled",
                   NumToString(KindOrDefault(data.targetKind)), NumToString(Seconds(At(nowMs))),
                   if encrypted != "" then data.content else "");
    ParseNumToString(Seconds(data.publishAt));
    ParseNumToString(KindOrDefault(data.targetKind));
    ParseNumToString(Seconds(At(nowMs)));
    DateFromSecondsOfSeconds(data.publishAt);
    DateFromSecondsOfSeconds(At(nowMs));
  }

  /** Every tag of an update, with an optional title tag after it, and each tag it is sure to hold. */
  lemma UpdateTagsShape(id: string, status: string, publishAt: Option<string>, kind: Option<string>,
                        created: Option<string>, publishedEvent: Value, error: Value, title: Value)
    ensures var tags := UpdateRecordTags(id, status, publishAt, kind, created, publishedEvent, error)
                        + OptionalTag("title", title);
      && (forall t :: t in tags ==>
            || t == ["d", id] || t == ["status", status]
            || (publishAt.Some? && t == ["publish_at", publishAt.value])
            || (kind.Some? && t == ["target_kind", kind.value])
            || (created.Some? && t == ["created_at", created.value])
            || (Truthy(publishedEvent) && t == ["published_event", publishedEvent.value])
            || (Truthy(error) && t == ["error", error.value])
            || (Truthy(title) && t == ["title", title.value]))
      && ["d", id] in tags && ["status", status] in tags
      && (publishAt.Some? ==> ["publish_at", publishAt.value] in tags)
      && (kind.Some? ==> ["target_kind", kind.value] in tags)
      && (created.Some? ==> ["created_at", created.value] in tags)
      && (Truthy(publishedEvent) ==> ["published_event", publishedEvent.value] in tags)
      && (Truthy(error) ==> ["error", error.value] in tags)
      && (Truthy(title) ==> ["title", title.value] in tags)
  {
  }

  lemma UpdateLookupD(id: string, status: string, publishAt: Option<string>, kind: Option<string>,
                        created: Option<string>, publishedEvent: Value, error: Value, title: Value)
    ensures FirstValue(UpdateRecordTags(id, status, publishAt, kind, created, publishedEvent, error)
                       + OptionalTag("title", title), "d") == Some(id)
  {
    UpdateTagsShape(id, status, publishAt, kind, created, publishedEvent, error, title);
    FirstValueIs(UpdateRecordTags(id, status, publishAt, kind, created, publishedEvent, error)
                 + OptionalTag("title", title), "d", Some(id));
  }

  lemma UpdateLookupStatus(id: string, status: string, publishAt: Option<string>, kind: Option<string>,
                        created: Option<string>, publishedEvent: Value, error: Value, title: Value)
    ensures FirstValue(UpdateRecordTags(id, status, publishAt, kind, created, publishedEvent, error)
                       + OptionalTag("title", title), "status") == Some(status)
  {
    UpdateTagsShape(id, status, publishAt, kind, created, publishedEvent, error, title);
    FirstValueIs(UpdateRecordTags(id, status, publishAt, kind, created, publishedEvent, error)
                 + OptionalTag("title", title), "status", Some(status));
  }

  lemma UpdateLookupPublishAt(id: string, status: string, publishAt: Option<string>, kind: Option<string>,
                        created: Option<string>, publishedEvent: Value, error: Value, title: Value)
    ensures FirstValue(UpdateRecordTags(id, status, publishAt, kind, created, publishedEvent, error)
                       + OptionalTag("title", title), "publish_at") == publishAt
  {
    UpdateTagsShape(id, status, publishAt, kind, created, publishedEvent, error, title);
    FirstValueIs(UpdateRecordTags(id, status, publishAt, kind, created, publishedEvent, error)
                 + OptionalTag("title", title), "publish_at", publishAt);
  }

  lemma UpdateLookupTargetKind(id: string, status: string, publishAt: Option<string>, kind: Option<string>,
                        created: Option<string>, publishedEvent: Value, error: Value, title: Value)
    ensures FirstValue(UpdateRecordTags(id, status, publishAt, kind, created, publishedEvent, error)
                       + OptionalTag("title", title), "target_kind") == kind
  {
    UpdateTagsShape(id, status, publishAt, kind, created, publishedEvent, error, title);
    FirstValueIs(UpdateRecordTags(id, status, publishAt, kind, created, publishedEvent, error)
                 + OptionalTag("title", title), "target_kind", kind);
  }

  lemma UpdateLookupCreatedAt(id: string, status: string, publishAt: Option<string>, kind: Option<string>,
                        created: Option<string>, publishedEvent: Value, error: Value, title: Value)
    ensures FirstValue(UpdateRecordTags(id, status, publishAt, kind, created, publishedEvent, error)
                       + OptionalTag("title", title), "created_at") == created
  {
    UpdateTagsShape(id, status, publishAt, kind, created, publishedEvent, error, title);
    FirstValueIs(UpdateRecordTags(id, status, publishAt, kind, created, publishedEvent, error)
                 + OptionalTag("title", title), "created_at", created);
  }

  lemma UpdateLookupPublishedEvent(id: string, status: string, publishAt: Option<string>, kind: Option<string>,
                        created: Option<string>, publishedEvent: Value, error: Value, title: Value)
    ensures FirstValue(UpdateRecordTags(id, status, publishAt, kind, created, publishedEvent, error)
                       + OptionalTag("title", title), "published_event") == if Truthy(publishedEvent) then publishedEvent else None
  {
    UpdateTagsShape(id, status, publishAt, kind, created, publishedEvent, error, title);
    FirstValueIs(UpdateRecordTags(id, status, publishAt, kind, created, publishedEvent, error)
                 + OptionalTag("title", title), "published_event", if Truthy(publishedEvent) then publishedEvent else None);
  }

  lemma UpdateLookupError(id: string, status: string, publishAt: Option<string>, kind: Option<string>,
                        created: Option<string>, publishedEvent: Value, error: Value, title: Value)
    ensures FirstValue(UpdateRecordTags(id, status, publishAt, kind, created, publishedEvent, error)
                       + OptionalTag("title", title), "error") == if Truthy(error) then error else None
  {
    UpdateTagsShape(id, status, publishAt, kind, created, publishedEvent, error, title);
    FirstValueIs(UpdateRecordTags(id, status, publishAt, kind, created, publishedEvent, error)
                 + OptionalTag("title", title), "error", if Truthy(error) then error else None);
  }

  lemma UpdateLookupTitle(id: string, status: string, publishAt: Option<string>, kind: Option<string>,
                          created: Option<string>, publishedEvent: Value, error: Value, title: Value)
    ensures FirstValue(UpdateRecordTags(id, status, publishAt, kind, created, publishedEvent, error)
                       + OptionalTag("title", title), "title") == if Truthy(title) then title else None
  {
    UpdateTagsShape(id, status, publishAt, kind, created, publishedEvent, error, title);
    FirstValueIs(UpdateRecordTags(id, status, publishAt, kind, created, publishedEvent, error)
                 + OptionalTag("title", title), "title", if Truthy(title) then title else None);
  }

  lemma UpdateLookupImages(id: string, status: string, publishAt: Option<string>, kind: Option<string>,
                           created: Option<string>, publishedEvent: Value, error: Value, title: Value)
    ensures AllValues(UpdateRecordTags(id, status, publishAt, kind, created, publishedEvent, error)
                      + OptionalTag("title", title), "image") == []
  {
    UpdateTagsShape(id, status, publishAt, kind, created, publishedEvent, error, title);
    FirstValueAbsent(UpdateRecordTags(id, status, publishAt, kind, created, publishedEvent, error)
                     + OptionalTag("title", title), "image");
  }

  /** The reader's lookups over an update's tags, with an optional title tag after them. */
  lemma UpdateLookups(id: string, status: string, publishAt: Option<string>, kind: Option<string>,
                      created: Option<string>, publishedEvent: Value, error: Value, title: Value)
    ensures var tags := UpdateRecordTags(id, status, publishAt, kind, created, publishedEvent, error)
                        + OptionalTag("title", title);
      && FirstValue(tags, "d") == Some(id) && FirstValue(tags, "status") == Some(status)
      && FirstValue(tags, "publish_at") == publishAt && FirstValue(tags, "target_kind") == kind
      && FirstValue(tags, "created_at") == created
      && FirstValue(tags, "published_event") == (if Truthy(publishedEvent) then publishedEvent else None)
      && FirstValue(tags, "error") == (if Truthy(error) then error else None)
      && FirstValue(tags, "title") == (if Truthy(title) then title else None)
      && AllValues(tags, "image") == []
  {
    UpdateLookupD(id, status, publishAt, kind, created, publishedEvent, error, title);
    UpdateLookupStatus(id, status, publishAt, kind, created, publishedEvent, error, title);
    UpdateLookupPublishAt(id, status, publishAt, kind, created, publishedEvent, error, title);
    UpdateLookupTargetKind(id, status, publishAt, kind, created, publishedEvent, error, title);
    UpdateLookupCreatedAt(id, status, publishAt, kind, created, publishedEvent, error, title);
    UpdateLookupPublishedEvent(id, status, publishAt, kind, created, publishedEvent, error, title);
    UpdateLookupError(id, status, publishAt, kind, created, publishedEvent, error, title);
    UpdateLookupTitle(id, status, publishAt, kind, created, publishedEvent, error, title);
    UpdateLookupImages(id, status, publishAt, kind, created, publishedEvent, error, title);
  }

  lemma SecondsTextReadBack(d: Option<Date>)
    requires d.Some? ==> Clipped(d.value)
    ensures d.Some? <==> Truthy(SecondsText(d))
    ensures d.Some? ==> DateFromSeconds(ParseInt(SecondsText(d).value)) == WholeSeconds(d.value)
  {
    if d.Some? {
      NumToStringTruthy(Seconds(d.value));
      ParseNumToString(Seconds(d.value));
      DateFromSecondsOfSeconds(d.value);
    }
  }

  lemma KindTextReadBack(k: Option<Num>)
    ensures (k.Some? && NumTruthy(k.value)) <==> Truthy(KindText(k))
    ensures k.Some? && NumTruthy(k.value) ==> ParseInt(KindText(k).value) == k.value
  {
    if k.Some? && NumTruthy(k.value) {
      NumToStringTruthy(k.value);
      ParseNumToString(k.value);
    }
  }

  /** The content the reader gives an update record, whose own content is empty. */
  function UpdateContent(status: string, publishedEvent: Value, fetched: string -> Option<string>): string {
    if status == "published" && Truthy(publishedEvent)
    then match fetched(publishedEvent.value) case Some(c) => c case None => ""
    else ""
  }

  /** The reader over an update's tags, the strings of the supplied fields left abstract. */
  lemma UpdateParse(id: string, status: string, publishAt: Option<string>, kind: Option<string>,
                    created: Option<string>, publishedEvent: Value, error: Value, title: Value,
                    hasNip44: bool, decrypt: string -> Option<string>, fetched: string -> Option<string>,
                    eventId: string, pubkey: string, createdAt: int)
    requires id != "" && status in {"published", "failed", "cancelled"}
    ensures var ev := Event(eventId, pubkey, createdAt, ScheduledPostKind,
                            UpdateRecordTags(id, status, publishAt, kind, created, publishedEvent, error)
                            + OptionalTag("title", title), "");
      ParseEvent(ev, hasNip44, decrypt, fetched)
      == if Truthy(publishAt) && Truthy(kind) && Truthy(created)
         then Some(ScheduledPost(id, TitleOrDefault(title), UpdateContent(status, publishedEvent, fetched),
                                 DateFromSeconds(ParseInt(publishAt.value)), status, ParseInt(kind.value),
                                 DateFromSeconds(ParseInt(created.value)),
                                 if Truthy(publishedEvent) then publishedEvent else None,
                                 if Truthy(error) then error else None, None, ev))
         else None
  {
    var tags := UpdateRecordTags(id, status, publishAt, kind, created, publishedEvent, error)
                + OptionalTag("title", title);
    var ev := Event(eventId, pubkey, createdAt, ScheduledPostKind, tags, "");
    UpdateLookups(id, status, publishAt, kind, created, publishedEvent, error, title);
    if Truthy(publishAt) && Truthy(kind) && Truthy(created) {
      var content := UpdateContent(status, publishedEvent, fetched);
      assert RecordContent(status, "", FirstValue(tags, "published_event"), hasNip44, decrypt, fetched) == Some(content);
      ParseEventWith(ev, hasNip44, decrypt, fetched, id, publishAt.value, status, kind.value, created.value, content);
    } else {
      assert !HasRequiredTags(tags);
    }
  }

  /**
   * A status update reads back as a record exactly when it carries a publish
   * time, a truthy target kind and a creation time. It then has the update's
   * id and status, empty content unless the published event's content is
   * fetched, no images and the title 'Untitled Post', whatever title was
   * reported.
   */
  lemma UpdateReadBack(data: UpdateData, hasNip44: bool, decrypt: string -> Option<string>,
                       fetched: string -> Option<string>, eventId: string, pubkey: string, createdAt: int)
    requires data.id != "" && data.status in {"published", "failed", "cancelled"}
    requires data.publishAt.Some? ==> Clipped(data.publishAt.value)
    requires data.createdAt.Some? ==> Clipped(data.createdAt.value)
    ensures var ev := Event(eventId, pubkey, createdAt, ScheduledPostKind, UpdateTags(data), "");
      var r := ParseEvent(ev, hasNip44, decrypt, fetched);
      && (r.Some? <==> data.publishAt.Some? && data.targetKind.Some? && NumTruthy(data.targetKind.value)
                       && data.createdAt.Some?)
      && (r.Some? ==>
            && r.value.id == data.id && r.value.status == data.status
            && r.value.title == "Untitled Post" && r.value.images == None
            && r.value.publishAt == WholeSeconds(data.publishAt.value)
            && r.value.createdAt == WholeSeconds(data.createdAt.value)
            && r.value.targetKind == data.targetKind.value
            && r.value.publishedEventId == (if Truthy(data.publishedEventId) then data.publishedEventId else None)
            && r.value.error == (if Truthy(data.error) then data.error else None)
            && r.value.content == (if data.status == "published" && Truthy(data.publishedEventId)
                                   then match fetched(data.publishedEventId.value) case Some(c) => c case None => ""
                                   else ""))
  {
    var pa, k, c := SecondsText(data.publishAt), KindText(data.targetKind), SecondsText(data.createdAt);
    var tags := UpdateRecordTags(data.id, data.status, pa, k, c, data.publishedEventId, data.error);
    assert tags + OptionalTag("title", None) == tags;
    UpdateParse(data.id, data.status, pa, k, c, data.publishedEventId, data.error, None,
                hasNip44, decrypt, fetched, eventId, pubkey, createdAt);
    SecondsTextReadBack(data.publishAt);
    KindTextReadBack(data.targetKind);
    SecondsTextReadBack(data.createdAt);
  }

  /** A cancellation carries no publish, kind or creation time, so the reader skips it. */
  lemma CancelIsSkipped(id: string, hasNip44: bool, decrypt: string -> Option<string>,
                        fetched: string -> Option<string>, eventId: string, pubkey: string, createdAt: int)
    ensures var tags := UpdateTags(CancelData(id));
      && !HasTag(tags, "publish_at") && !HasTag(tags, "target_kind") && !HasTag(tags, "created_at")
      && ParseEvent(Event(eventId, pubkey, createdAt, ScheduledPostKind, tags, ""), hasNip44, decrypt, fetched).None?
  {
    var tags := UpdateTags(CancelData(id));
    FirstValueAbsent(tags, "publish_at");
    FirstValueAbsent(tags, "target_kind");
    FirstValueAbsent(tags, "created_at");
  }

  /**
   * With the title kept, an update is accepted exactly when the update as
   * written is, and reads back as the same record with the reported title
   * (or 'Untitled Post' when none is reported).
   */
  lemma UpdateKeepingTitleReadBack(data: UpdateData, hasNip44: bool, decrypt: string -> Option<string>,
                                   fetched: string -> Option<string>, eventId: string, pubkey: string, createdAt: int)
    requires data.id != "" && data.status in {"published", "failed", "cancelled"}
    ensures var kept := Event(eventId, pubkey, createdAt, ScheduledPostKind, UpdateTagsKeepingTitle(data), "");
      var written := Event(eventId, pubkey, createdAt, ScheduledPostKind, UpdateTags(data), "");
      var r := ParseEvent(kept, hasNip44, decrypt, fetched);
      var w := ParseEvent(written, hasNip44, decrypt, fetched);
      && (r.Some? <==> w.Some?)
      && (r.Some? ==> r.value == w.value.(title := TitleOrDefault(data.title), event := kept))
  {
    var pa, k, c := SecondsText(data.publishAt), KindText(data.targetKind), SecondsText(data.createdAt);
    var tags := UpdateRecordTags(data.id, data.status, pa, k, c, data.publishedEventId, data.error);
    assert tags + OptionalTag("title", None) == tags;
    UpdateParse(data.id, data.status, pa, k, c, data.publishedEventId, data.error, data.title,
                hasNip44, decrypt, fetched, eventId, pubkey, createdAt);
    UpdateParse(data.id, data.status, pa, k, c, data.publishedEventId, data.error, None,
                hasNip44, decrypt, fetched, eventId, pubkey, createdAt);
  }

  /** As written, a titled post's status update reads back as 'Untitled Post'. */
  lemma UpdateDropsTitle()
    ensures var data := UpdateData("1700000000000-abc", "published", Some("e1"), None,
                                   Some(At(1700000000000)), Some(N(1)), Some(At(1700000001000)), Some("Launch"));
      var ev := Event("x", "pk", 1700000001, ScheduledPostKind, UpdateTags(data), "");
      var r := ParseEvent(ev, true, _ => None, _ => None);
      r.Some? && r.value.title == "Untitled Post"
  {
    var data := UpdateData("1700000000000-abc", "published", Some("e1"), None,
                           Some(At(1700000000000)), Some(N(1)), Some(At(1700000001000)), Some("Launch"));
    UpdateReadBack(data, true, _ => None, _ => None, "x", "pk", 1700000001);
  }
}
