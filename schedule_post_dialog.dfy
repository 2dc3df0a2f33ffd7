/**
 * The scheduling dialog (`src/components/SchedulePostDialog.tsx`): the
 * validation chain of `handleSubmit` and the payload it submits, the reset
 * after a successful submission, the checks on an image upload, and the
 * image list. The date built from the date and time inputs, the clock
 * reading and the outcomes of the upload and of the mutation are parameters.
 */
module SchedulePostDialog {
  import opened Builtins
  import opened Nostr
  import opened Lists
  import opened ScheduledPosts
  import opened SchedulePost

  /** The dialog's fields. */
  datatype DialogForm = DialogForm(title: string, content: string, publishDate: string, publishTime: string,
                                   images: seq<string>)

  const EmptyForm := DialogForm("", "", "", "", [])

  /** The toasts that stop a submission. */
  datatype Rejection = TitleRequired | ContentRequired | ScheduleRequired | NotInFuture

  datatype Check = Reject(reason: Rejection) | Submit(data: CreateData)

  /**
   * `handleSubmit`'s checks, one early return after another: a blank title,
   * blank content, a missing date or time, a publish time not after now.
   * `publishAt <= now` is false for an invalid date, which therefore passes.
   */
  function HandleSubmit(f: DialogForm, publishAt: Date, now: int): (r: Check)
    ensures r.Submit? ==> r.data == CreateData(Trim(f.title), Trim(f.content), publishAt, Some(N(1)),
                                               if |f.images| > 0 then Some(f.images) else None)
  {
    if Trim(f.title) == "" then Reject(TitleRequired)
    else if Trim(f.content) == "" then Reject(ContentRequired)
    else if f.publishDate == "" || f.publishTime == "" then Reject(ScheduleRequired)
    else if DateLessEq(publishAt, At(now)) then Reject(NotInFuture)
    else Submit(CreateData(Trim(f.title), Trim(f.content), publishAt, Some(N(1)),
                           if |f.images| > 0 then Some(f.images) else None))
  }

  /** Every check the form fails, in the order the dialog makes them, each judged on its own. */
  function Failures(f: DialogForm, publishAt: Date, now: int): (r: seq<Rejection>)
    ensures |r| <= 4
  {
    (if Trim(f.title) == "" then [TitleRequired] else [])
    + (if Trim(f.content) == "" then [ContentRequired] else [])
    + (if f.publishDate == "" || f.publishTime == "" then [ScheduleRequired] else [])
    + (if DateLessEq(publishAt, At(now)) then [NotInFuture] else [])
  }

  /** The first failing check is the one reported; the form is submitted exactly when no check fails. */
  lemma FirstFailureWins(f: DialogForm, publishAt: Date, now: int)
    ensures HandleSubmit(f, publishAt, now).Submit? <==> Failures(f, publishAt, now) == []
    ensures Failures(f, publishAt, now) != [] ==>
      HandleSubmit(f, publishAt, now) == Reject(Failures(f, publishAt, now)[0])
  {
  }

  /** A submitted post has a non-blank title and content and targets kind 1 notes. */
  lemma SubmittedPayload(f: DialogForm, publishAt: Date, now: int)
    requires HandleSubmit(f, publishAt, now).Submit?
    ensures var d := HandleSubmit(f, publishAt, now).data;
      d.title != "" && d.content != "" && KindOrDefault(d.targetKind) == N(1)
      && ImageList(d.images) == f.images && (publishAt.At? ==> now < publishAt.ms)
  {
  }

  /**
   * The record created for a submitted form reads back as a scheduled kind-1
   * post with the trimmed title, due at the chosen time in whole seconds.
   */
  lemma SubmittedReadsBack(f: DialogForm, publishAt: Date, now: int, id: string, nowMs: int, encrypted: string,
                           decrypt: string -> Option<string>, fetched: string -> Option<string>,
                           eventId: string, pubkey: string, createdAt: int)
    requires HandleSubmit(f, publishAt, now).Submit?
    requires id != "" && Clipped(publishAt) && Clipped(At(nowMs))
    requires encrypted != "" ==> decrypt(encrypted) == Some(Trim(f.content))
    ensures var d := HandleSubmit(f, publishAt, now).data;
      var p := ParseEvent(Event(eventId, pubkey, createdAt, ScheduledPostKind, CreateTags(id, d, nowMs), encrypted),
                          true, decrypt, fetched);
      p.Some? && p.value.id == id && p.value.title == Trim(f.title) && p.value.status == "scheduled"
      && p.value.targetKind == N(1) && p.value.publishAt == WholeSeconds(publishAt)
      && (p.value.images.Some? <==> f.images != [])
  {
    var d := HandleSubmit(f, publishAt, now).data;
    CreateRoundTrip(id, d, nowMs, encrypted, decrypt, fetched, eventId, pubkey, createdAt);
  }

  /** An invalid publish date is not caught: every comparison with it is false. */
  lemma InvalidDatePasses(f: DialogForm, now: int)
    requires Trim(f.title) != "" && Trim(f.content) != "" && f.publishDate != "" && f.publishTime != ""
    ensures HandleSubmit(f, Invalid, now).Submit?
    ensures Failures(f, Invalid, now) == []
  {
  }

  /** The fields after a submission: cleared only when the post was submitted and the mutation succeeded. */
  function AfterSubmit(f: DialogForm, check: Check, succeeded: bool): (r: DialogForm)
    ensures r == EmptyForm || r == f
  {
    if check.Submit? && succeeded then EmptyForm else f
  }

  /** A rejection or a failed mutation keeps every field as the user left it. */
  lemma ResetOnlyOnSuccess(f: DialogForm, publishAt: Date, now: int, succeeded: bool)
    requires f != EmptyForm
    ensures AfterSubmit(f, HandleSubmit(f, publishAt, now), succeeded) == EmptyForm
        <==> HandleSubmit(f, publishAt, now).Submit? && succeeded
  {
  }

  const MaxImageBytes: int := 10 * 1024 * 1024

  datatype UploadCheck = TooLarge | NotAnImage | Accepted

  /** `handleImageUpload`'s checks: the size first, then the MIME type. */
  function CheckUpload(size: int, mimeType: string): (r: UploadCheck)
    ensures r == Accepted <==> size <= MaxImageBytes && StartsWith(mimeType, "image/")
    ensures size > MaxImageBytes ==> r == TooLarge
  {
    if size > MaxImageBytes then TooLarge
    else if !StartsWith(mimeType, "image/") then NotAnImage
    else Accepted
  }

  /** An accepted upload's URL is appended; a failed upload changes nothing. */
  function AddUploaded(images: seq<string>, url: Option<string>): (r: seq<string>)
    ensures url.None? ==> r == images
    ensures url.Some? ==> |r| == |images| + 1 && r[..|images|] == images && r[|images|] == url.value
  {
    if url.Some? then images + [url.value] else images
  }

  /** `removeImage(index)`. */
  function RemoveImage(images: seq<string>, index: int): (r: seq<string>)
    ensures 0 <= index < |images| ==> |r| == |images| - 1
    ensures !(0 <= index < |images|) ==> r == images
  {
    WithoutIndex(images, index)
  }

  /** Removing drops exactly the image at the index, and uploading it again puts it last. */
  lemma RemoveImageExactly(images: seq<string>, index: int)
    requires 0 <= index < |images|
    ensures multiset(RemoveImage(images, index)) == multiset(images) - multiset{images[index]}
    ensures forall k :: 0 <= k < index ==> RemoveImage(images, index)[k] == images[k]
    ensures forall k :: index <= k < |images| - 1 ==> RemoveImage(images, index)[k] == images[k + 1]
    ensures index == |images| - 1 ==> AddUploaded(RemoveImage(images, index), Some(images[index])) == images
  {
    WithoutIndexMultiset(images, index);
    if index == |images| - 1 {
      assert images == images[..index] + [images[index]];
    }
  }
}
