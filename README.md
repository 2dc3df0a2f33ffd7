# NostrAPP post scheduler and record logic in Dafny

This project models the core of NostrAPP, a Nostr client that schedules notes
for later publication and groups them into campaigns.

- **The post scheduler** (`src/lib/postScheduler.ts`).
  - Its pending list, its timer table, its in-flight set, its running flag and
    the module-wide duplicate-prevention map (a 5000 ms window).
  - Its operations: `start`, `stop`, `schedulePost`, `unschedulePost`, the
    timer and retry callbacks, the sweep `checkForPostsToPublish`,
    `publishPost` and `updateScheduledPosts`.
  - The hook that owns it (`src/hooks/usePostScheduler.ts`).
- **The record codecs.**
  - The tags of kind-30401 scheduled-post records, written by
    `src/hooks/useSchedulePost.ts` and read by `src/hooks/useScheduledPosts.ts`.
  - The tags of kind-30402 campaign records (`src/hooks/useCampaigns.ts`).
- **The list logic of the screens**:
  - the two tables, with search, status filter, comparator, in-place sort,
    status counts, progress and sort toggle;
  - the campaign editor's tags, dates and drafts;
  - the draft list, with add, update, remove and move, and renumbering;
  - the scheduling dialog's validation, upload checks and reset;
  - the relative-time formatter.

The scheduler is modelled twice:

- `SchedulerSpec` is a state machine on values.
- `PostScheduler` holds classes whose fields the methods update as the
  TypeScript does. Every method's `ensures` equates the object's new state
  with the step of `SchedulerSpec` applied to its old state.

The properties are proved about the state machine in `SchedulerProps`.

JavaScript runs the scheduler on one event loop, so every step is sequential.
`publishPost` is cut at its first `await`:

- `PublishPost` is the synchronous part: the three guards, the claim and the
  publish call.
- `Complete` is what happens once that call and the status reports settle.

What the code receives from outside becomes a parameter:

- the clock reading: `now`, or `nowMs`;
- the publish call's outcome (`PublishOutcome`);
- the outcomes of the status-report calls (`Option<Thrown>`);
- the NIP-44 signer: `encrypt`, `decrypt`, and whether it exists (`hasNip44`);
- the relay fetch of a published event's content (`fetched`);
- the uploaded files' URLs;
- the date that the dialog builds from its date and time inputs.

The JavaScript values involved get their own types:

- Dates are `At(ms)` or `Invalid`, clipped to ±8.64e15 ms as `new Date` does.
- Numbers that may be `NaN` are `Num`.
- A possibly missing tag value (`tag?.[1]`) is `Value`.

## Model

| member | source | states |
|---|---|---|
| Builtins.MakeDate | src/hooks/useCampaigns.ts:44 | `new Date(ms)`: a valid date exactly when the time lies within ±8.64e15 ms |
| Builtins.DateFromSecondsOfSeconds | src/hooks/useScheduledPosts.ts:102 | a date written as whole seconds and read back by `new Date(parseInt(s) * 1000)` is that date truncated to whole seconds |
| Builtins.ParseIntToString | src/hooks/useScheduledPosts.ts:104 | `parseInt(n.toString())` gives n back for every integer printed in plain decimal digits (the JavaScript limits are under Left out) |
| Builtins.ParseNumToString | src/hooks/useCampaigns.ts:20-21 | `parseInt` of a count's `toString()` gives the count back, and NaN for NaN |
| Builtins.Trim | src/components/CampaignForm.tsx:85 | `trim()`: the result is the input with exactly its leading and trailing run of JavaScript whitespace removed; it neither starts nor ends with whitespace, and it is empty only when the input is all whitespace |
| Nostr.FirstValueAt | src/hooks/useScheduledPosts.ts:44-51 | `tags.find(([name]) => name === n)?.[1]` yields the second field of the first tag so named |
| Nostr.FirstValueAbsent | src/hooks/useScheduledPosts.ts:44-52 | with no tag of that name, the lookup is undefined and the filter is empty |
| Nostr.AllValuesAppend | src/hooks/useScheduledPosts.ts:52 | the values of every tag so named are collected in tag order: the collection distributes over concatenation |
| Nostr.NonEmptyOfNonEmpty | src/hooks/useCampaigns.ts:27-35 | a list without empty strings passes `.filter(Boolean)` unchanged |
| Sorting.SortInPlace | src/hooks/useScheduledPosts.ts:120 | the array ends as a permutation of its old contents, with no two neighbours out of comparator order |
| Sorting.AdjacentSortedOrdersAll | src/components/ScheduledPostsTable.tsx:163-195 | with a transitive comparator, neighbours in order means every two positions are in order |
| SchedulerSpec.Initial | src/lib/postScheduler.ts:14-29 | a new scheduler is stopped, with nothing pending, no timers and nothing in flight |
| SchedulerSpec.IndexOf | src/lib/postScheduler.ts:132 | `findIndex`: the first position holding the id, or none exactly when the id is absent |
| SchedulerSpec.AfterCheck | src/lib/postScheduler.ts:319-337 | a check deletes at most the checked id's entry and changes no other entry |
| SchedulerSpec.ImetaTags | src/lib/postScheduler.ts:167-169 | one `imeta` tag per image |
| SchedulerSpec.Due | src/lib/postScheduler.ts:236-238 | every post the sweep selects is pending and due |
| SchedulerSpec.KeepTimers | src/lib/postScheduler.ts:266-274 | exactly the timers whose ids are among the new posts remain, each unchanged |
| SchedulerSpec.GetDebugInfo | src/lib/postScheduler.ts:294-310 | the counts equal the sizes of the pending list, the timers and the in-flight set; each line has the post's id, the time left, and the first min(50, length) characters of its content followed by `...`; it throws (None) exactly when a pending date is invalid |
| PostScheduler.DedupGuard.constructor | src/lib/postScheduler.ts:316 | the shared map starts with the given entries |
| PostScheduler.DedupGuard.IsRecentlyPublished | src/lib/postScheduler.ts:319-337 | the result is `Blocked` on the old map, and the new map is `AfterCheck` of the old one |
| PostScheduler.DedupGuard.MarkAsPublished | src/lib/postScheduler.ts:339-341 | the id's entry becomes now; every other entry is kept |
| PostScheduler.Scheduler.constructor | src/lib/postScheduler.ts:14-29 | the state is `Initial` over the shared map |
| PostScheduler.Scheduler.Start | src/lib/postScheduler.ts:31-46 | the new state is `SchedulerSpec.Start` of the old one |
| PostScheduler.Scheduler.Stop | src/lib/postScheduler.ts:48-71 | the new state is `SchedulerSpec.Stop` of the old one |
| PostScheduler.Scheduler.UnschedulePost | src/lib/postScheduler.ts:109-116 | the id's timer is deleted and nothing else changes |
| PostScheduler.Scheduler.SchedulePost | src/lib/postScheduler.ts:73-107 | the new state is `Schedule` of the old one: unschedule, then publish at once when overdue, else arm a timer that captures the post; `threw` holds exactly for an invalid date |
| PostScheduler.Scheduler.PublishPost | src/lib/postScheduler.ts:118-178 | the new state is `PublishStart` of the old one; an event is handed to the publish action exactly when all three guards pass, and that event is `Payload(p)` |
| PostScheduler.Scheduler.BuildPayload | src/lib/postScheduler.ts:157-178 | the loop builds exactly `Payload(p)` |
| PostScheduler.Scheduler.Complete | src/lib/postScheduler.ts:180-220 | the new state and the reports made equal `SchedulerSpec.Complete` |
| PostScheduler.Scheduler.FireTimer | src/lib/postScheduler.ts:91-102 | the new state is `SchedulerSpec.FireTimer` of the old one |
| PostScheduler.Scheduler.FireRetry | src/lib/postScheduler.ts:209-216 | the new state is `SchedulerSpec.FireRetry` of the old one |
| PostScheduler.Scheduler.CheckForPostsToPublish | src/lib/postScheduler.ts:223-255 | the new state is `Sweep` of the old one: `publishPost` on each due post in pending order (the source's early end of the loop when a `publishPost` rejects is under Left out) |
| PostScheduler.Scheduler.UpdateScheduledPosts | src/lib/postScheduler.ts:258-291 | the new state and the thrown flag equal `ReconcileAsWritten` of the old state |
| PostScheduler.Scheduler.PruneTimers | src/lib/postScheduler.ts:266-274 | exactly the timers whose ids are among the new posts remain, each unchanged, and nothing else changes |
| PostScheduler.Scheduler.ArmFutureTimers | src/lib/postScheduler.ts:276-287 | the new state is `ArmAll` of the old one: `schedulePost` on each post whose time lies ahead, in list order |
| PostScheduler.Registry.constructor | src/lib/postScheduler.ts:312 | no scheduler is registered |
| PostScheduler.Registry.SetScheduler | src/lib/postScheduler.ts:348-355 | the registered scheduler becomes the argument; a different scheduler registered before is stopped when a non-null one replaces it, and is untouched otherwise |
| SchedulerProps.MarkThenCheck | src/lib/postScheduler.ts:319-341 | after marking at time t, the id is blocked exactly until t + 5000 |
| SchedulerProps.CheckDeletesOnlyStale | src/lib/postScheduler.ts:332-334 | a check deletes the entry exactly when it is older than 10000 ms, and touches no other id |
| SchedulerProps.BlockingCheckKeepsEntry | src/lib/postScheduler.ts:326-329 | a check that blocks leaves the map unchanged |
| SchedulerProps.GuardFailureChangesNothing | src/lib/postScheduler.ts:118-136 | when a guard fails, `publishPost` changes nothing but the dedup clean-up and makes no publish call |
| SchedulerProps.ClaimTakesPost | src/lib/postScheduler.ts:138-154 | once the guards pass, before the publish call the id is marked, in flight, out of the pending list and without a timer, and one attempt is added |
| SchedulerProps.InFlightBlocksClaim | src/lib/postScheduler.ts:125-129 | while an id is in flight, no further attempt is made for it |
| SchedulerProps.PayloadWithImages | src/lib/postScheduler.ts:162-170 | with images, the content is the text, a blank line and the images joined by new lines, and there is one `imeta` tag `url <u>` per image, in order |
| SchedulerProps.PayloadWithoutImages | src/lib/postScheduler.ts:158-178 | without images, the content is unchanged and `tags` is undefined |
| SchedulerProps.PayloadSingleImage | src/lib/postScheduler.ts:164 | a single image URL follows the text after a blank line |
| SchedulerProps.CompleteSettles | src/lib/postScheduler.ts:183-220 | success reports `published` with the event id; a failure reports `failed` with the message or 'Unknown error' and arms one retry when that report resolves; the id always leaves the in-flight set |
| SchedulerProps.RetryNeedsPending | src/lib/postScheduler.ts:210-216 | a retry makes a new attempt only if its id is not in flight and is pending again |
| SchedulerProps.PublishStartFrame | src/lib/postScheduler.ts:118-154 | `publishPost` changes at most its own post's attempt, timer, pending entry and in-flight mark |
| SchedulerProps.ClaimAllFrame | src/lib/postScheduler.ts:251-254 | a run of `publishPost` calls only removes pending entries and timers, and only adds attempts for posts of the run |
| SchedulerProps.StartStopNoOps | src/lib/postScheduler.ts:31-71 | `start` on a running scheduler and `stop` on a stopped one change nothing; afterwards the scheduler runs, or is stopped |
| SchedulerProps.StopSilencesTriggers | src/lib/postScheduler.ts:48-71 | after `stop`, the pending list, attempts and retries are kept and a sweep makes no attempt; after stopping a running scheduler, no timer remains, nothing is in flight, and a timer fire makes no attempt |
| SchedulerProps.SweepNoOp | src/lib/postScheduler.ts:223-226 | a sweep does nothing when stopped or when nothing is pending |
| SchedulerProps.SweepOnlyDue | src/lib/postScheduler.ts:236-254 | every attempt a sweep makes is for a pending post whose time has come |
| SchedulerProps.DueUnique | src/lib/postScheduler.ts:236-238 | distinct pending ids give distinct ids among the due posts |
| SchedulerProps.ClaimAllFresh | src/lib/postScheduler.ts:251-254 | posts with distinct ids that can all be claimed are claimed in turn, each adding one attempt |
| SchedulerProps.SweepClaimsEveryDuePost | src/lib/postScheduler.ts:223-255 | a sweep attempts exactly the due posts, in pending order, when none is blocked, assuming no `publishPost` of the sweep rejects (see Left out) |
| SchedulerProps.FireOnlyIfPending | src/lib/postScheduler.ts:91-102 | a timer fire makes an attempt only for a post that is still pending, and always deletes its own entry |
| SchedulerProps.ArmAllOnlyTimers | src/lib/postScheduler.ts:276-287 | the scheduling loop changes only the timers, because a future post never publishes at once |
| SchedulerProps.ArmTimersContents | src/lib/postScheduler.ts:73-107 | the scheduling loop arms one timer per future post, capturing the post, and keeps every other timer |
| SchedulerProps.ReconcileShape | src/lib/postScheduler.ts:258-291 | a reconcile is the timer pruning, the scheduling loop and a sweep, in that order |
| SchedulerProps.ReconcilePrunesTimers | src/lib/postScheduler.ts:266-274 | after a reconcile, no timer is left for an id that is not among the new posts |
| SchedulerProps.ReconcileArmsFuture | src/lib/postScheduler.ts:276-287 | with distinct ids, every future post has exactly one timer, and it captured the new post |
| SchedulerProps.ReconcileEmptyClears | src/hooks/usePostScheduler.ts:98-99 | reconciling with no posts empties the pending list, cancels every timer and publishes nothing |
| SchedulerProps.ReconcileOnlyPublishesDue | src/lib/postScheduler.ts:288-289 | a reconcile publishes only new posts whose time has come, and keeps the earlier attempts |
| SchedulerProps.ReconcileWithoutDue | src/lib/postScheduler.ts:258-291 | without overdue posts, a reconcile publishes nothing and leaves the new list pending as given |
| SchedulerProps.ReconcileClaimsDue | src/lib/postScheduler.ts:258-291 | a running reconcile attempts exactly the overdue new posts when none is blocked, counting every claim of its sweep as made within the call (see Left out) |
| SchedulerProps.DroppedPostNeverClaimed | src/lib/postScheduler.ts:266-274 | a post dropped from the new set has no timer in the reconciled state; a fire of its old timer leaves that state unchanged, and a `publishPost` from that state, at any later time, does not claim it |
| SchedulerProps.PublishStartHolds | src/lib/postScheduler.ts:138-147 | after `publishPost`, its id is blocked or in flight if it was pending or held before |
| SchedulerProps.ClaimAllHolds | src/lib/postScheduler.ts:251-254 | after a run of `publishPost` calls, every id of the run that was pending or held is held |
| SchedulerProps.ClaimAllHeldNoAttempt | src/lib/postScheduler.ts:120-129 | `publishPost` on ids that are all held makes no attempt |
| SchedulerProps.ReconcileTwiceNoNewAttempts | src/lib/postScheduler.ts:258-291 | a second reconcile with the same posts at the same time makes no new attempt, once the first reconcile's sweep has claimed every due post (see Left out) |
| SchedulerProps.ReconcileAsWrittenAgrees | src/lib/postScheduler.ts:258-291 | when every date is valid, `updateScheduledPosts` as written is the reconcile |
| SchedulerProps.ReconcileAsWrittenKeepsStaleTimer | src/lib/postScheduler.ts:262-264 | one invalid date in the new set leaves the timer of a dropped post armed |
| SchedulerProps.PublishStartKeepsExclusive | src/lib/postScheduler.ts:118-154 | `publishPost` keeps the in-flight set equal to the ids of the unsettled attempts, with at most one attempt per id |
| SchedulerProps.ClaimAllKeepsExclusive | src/lib/postScheduler.ts:251-254 | a sweep's run of claims keeps at most one attempt in flight per id |
| SchedulerProps.ReconcileKeepsExclusive | src/lib/postScheduler.ts:258-291 | `updateScheduledPosts` keeps at most one attempt in flight per id |
| SchedulerProps.StepKeepsExclusive | src/lib/postScheduler.ts:31-291 | every event except a `stop` with publish calls unsettled keeps at most one publish in flight per id |
| SchedulerProps.StopForgetsInFlight | src/lib/postScheduler.ts:66-67 | `stop` with publish calls unsettled empties the in-flight set, so their ids are no longer guarded |
| SchedulerProps.StepKeepsTimersKeyed | src/lib/postScheduler.ts:73-116 | every event keeps each timer keyed by the id of the post it captured |
| SchedulerHook.ToPost | src/hooks/usePostScheduler.ts:77-87 | the scheduler's view keeps id, publishAt, content, targetKind, images, event and title |
| SchedulerHook.SchedulerInput | src/hooks/usePostScheduler.ts:75-87 | the input never has more posts than the records |
| SchedulerHook.SchedulerInputAppend | src/hooks/usePostScheduler.ts:75-87 | the input keeps the records' relative order |
| SchedulerHook.SchedulerInputExactlyScheduled | src/hooks/usePostScheduler.ts:75-76 | a post is in the input exactly when it is the view of a record whose status is `scheduled` |
| SchedulerHook.SchedulerInputAllScheduled | src/hooks/usePostScheduler.ts:75-87 | when every record is scheduled, the input matches the records position by position |
| SchedulerHook.NothingScheduledClears | src/hooks/usePostScheduler.ts:98-99 | with no scheduled record, the update empties the pending list and cancels every timer |
| SchedulerHook.ReportToUpdate | src/hooks/usePostScheduler.ts:29-32 | the wrapper passes every field of a report, the title included, to `updateScheduledPost` |
| SchedulerHook.SuccessReportReadBack | src/lib/postScheduler.ts:183-191 | a success report's record is read back exactly when the target kind is truthy; it has the post's id and status `published`, and it is titled 'Untitled Post' |
| SchedulerHook.SuccessReportKeepingTitleReadBack | src/lib/postScheduler.ts:190 | with the title kept, the record reads back with the post's title |
| SchedulerHook.Hook.constructor | src/hooks/usePostScheduler.ts:13 | the ref starts empty |
| SchedulerHook.Hook.Release | src/hooks/usePostScheduler.ts:36-43 | an existing scheduler is stopped, the ref is emptied and the global slot is cleared; with none, nothing changes |
| SchedulerHook.Hook.UserEffect | src/hooks/usePostScheduler.ts:32-68 | without a user, release; with one, a scheduler is created over the shared map, started and registered only when the ref is empty |
| SchedulerHook.Hook.Cleanup | src/hooks/usePostScheduler.ts:60-67 | the effect's cleanup stops and drops the scheduler and clears the global slot |
| SchedulerHook.Hook.PostsEffect | src/hooks/usePostScheduler.ts:71-104 | with a scheduler in the ref, it always receives the scheduled records, even when there are none |
| SchedulerHook.Hook.IsRunning | src/hooks/usePostScheduler.ts:107-110 | the hook reports running exactly when its ref holds a scheduler |
| SchedulerHook.SchedulerStatus | src/hooks/usePostScheduler.ts:114-119 | running exactly when the global slot is set, whatever the scheduler's own flag |
| ScheduledPosts.ParseEvent | src/hooks/useScheduledPosts.ts:42-110 | a record exactly when d, publish_at, status, target_kind and created_at are truthy and the content can be obtained (for a scheduled record: decryption succeeds); a record keeps its event and has a non-empty title |
| ScheduledPosts.ParseAll | src/hooks/useScheduledPosts.ts:42-117 | never more records than events |
| ScheduledPosts.ParseEvents | src/hooks/useScheduledPosts.ts:40-117 | the push loop with `continue` yields exactly `ParseAll` |
| ScheduledPosts.ComparePublishAtConsistent | src/hooks/useScheduledPosts.ts:120 | the publish-time comparator never calls both of two posts greater |
| ScheduledPosts.LoadScheduledPosts | src/hooks/useScheduledPosts.ts:40-120 | the result is a permutation of the parsed records, sorted by publish time |
| ScheduledPosts.LoadedInPublishOrder | src/hooks/useScheduledPosts.ts:120 | with valid dates, publish times never decrease along the list |
| ScheduledPosts.ParseAllAppend | src/hooks/useScheduledPosts.ts:42-117 | parsing keeps the events' order |
| ScheduledPosts.ParseKeepsEveryRecord | src/hooks/useScheduledPosts.ts:98-110 | two accepted events give two records, even when they share a `d` value |
| ScheduledPosts.DecryptFailure | src/hooks/useScheduledPosts.ts:61-96 | a scheduled record whose decryption fails is dropped; a failed or cancelled one is kept, with empty content |
| SchedulePost.KindOrDefault | src/hooks/useSchedulePost.ts:50 | `targetKind \|\| 1` is always truthy; it is 1 exactly when the kind is missing, falsy or 1 |
| SchedulePost.BuildCreateTags | src/hooks/useSchedulePost.ts:47-61 | the tags are d, publish_at, target_kind, status `scheduled`, created_at and title, then one `image` tag per image |
| SchedulePost.CreateScheduledPost | src/hooks/useSchedulePost.ts:30-71 | it fails without a user or a NIP-44 signer; otherwise it gives a kind-30401 event whose content is the encrypted text |
| SchedulePost.UpdateTags | src/hooks/useSchedulePost.ts:96-120 | the tags start with d and status, and never include a title or an image |
| SchedulePost.BuildUpdateTags | src/hooks/useSchedulePost.ts:96-120 | the conditional pushes build exactly `UpdateTags` |
| SchedulePost.UpdateScheduledPost | src/hooks/useSchedulePost.ts:89-130 | it fails without a user; otherwise the event has kind 30401 and empty content |
| SchedulePost.UpdateTagsKeepingTitle | src/hooks/useSchedulePost.ts:96-120 | the tags as written, followed by the reported title |
| SchedulePost.SecondsTextReadBack | src/hooks/useSchedulePost.ts:102-104 | a supplied date is written, and reads back truncated to whole seconds |
| SchedulePost.KindTextReadBack | src/hooks/useSchedulePost.ts:106-108 | a kind is written exactly when it is truthy (so 0 is omitted), and it reads back unchanged |
| SchedulePost.CreateRoundTrip | src/hooks/useSchedulePost.ts:47-68 | a new record is never skipped; it reads back with its id, title (or 'Untitled Post'), decrypted content, whole-second times, status `scheduled`, target kind (default 1) and images in order |
| SchedulePost.UpdateReadBack | src/hooks/useSchedulePost.ts:96-127 | a status update reads back exactly when it carries a publish time, a truthy kind and a creation time; it then has the update's id and status, no images, and the title 'Untitled Post' |
| SchedulePost.CancelIsSkipped | src/hooks/useSchedulePost.ts:156-162 | a cancellation carries only d and status `cancelled`, so the reader skips it |
| SchedulePost.UpdateKeepingTitleReadBack | src/hooks/useSchedulePost.ts:96-120 | with the title kept, an update is read back exactly when the one as written is, and it has the reported title |
| SchedulePost.UpdateDropsTitle | src/hooks/useSchedulePost.ts:96-120 | a titled post's status update, as written, reads back as 'Untitled Post' |
| Campaigns.OrZero | src/hooks/useCampaigns.ts:20-21 | `v \|\| '0'` is never empty, and is v when v is truthy |
| Campaigns.EventToCampaign | src/hooks/useCampaigns.ts:11-57 | null exactly when d, title, start, end or status is missing or empty; topics and post ids carry no empty value; the author and event id come from the event |
| Campaigns.BuildCampaignTags | src/hooks/useCampaigns.ts:60-87 | the loops build the eight fixed tags, the audience when truthy, then one `t` tag per topic and one `post` tag per post id |
| Campaigns.DeletionIsSkipped | src/hooks/useCampaigns.ts:196-199 | a deletion record has no title, so it is read as null |
| Campaigns.CampaignRoundTrip | src/hooks/useCampaigns.ts:11-87 | reading back a campaign's tags recovers its id, title, description, status and counts; the dates come back truncated to whole seconds, the audience only when non-empty, and the topics and post ids when none is empty |
| Campaigns.MissingCountsDefault | src/hooks/useCampaigns.ts:20-21 | missing counts read as 0, and a missing description as the empty string |
| Campaigns.ParseCampaigns | src/hooks/useCampaigns.ts:107-109 | never more campaigns than events |
| Campaigns.ParseCampaignsExactly | src/hooks/useCampaigns.ts:107-109 | the list holds exactly the campaigns that the readable events yield |
| Campaigns.CompareCreatedDescConsistent | src/hooks/useCampaigns.ts:110 | the newest-first comparator never calls both of two campaigns greater |
| Campaigns.LoadCampaigns | src/hooks/useCampaigns.ts:107-112 | the result is a permutation of the readable campaigns, sorted by the newest-first comparator |
| Campaigns.LoadedNewestFirst | src/hooks/useCampaigns.ts:110 | with valid dates, creation times never increase along the list |
| TableSort.Flip | src/components/ScheduledPostsTable.tsx:99 | the other direction |
| TableSort.HandleSort | src/components/ScheduledPostsTable.tsx:97-104 | the chosen field becomes the sort field; the same field flips the direction, and a new field sorts ascending |
| TableSort.ToggleTwice | src/components/CampaignsTable.tsx:73-80 | choosing the same column twice restores the sort |
| TableSort.NewColumnTwice | src/components/CampaignsTable.tsx:73-80 | choosing a new column and then choosing it again sorts it descending |
| TableSort.Directed | src/components/ScheduledPostsTable.tsx:171-194 | the sign flips in descending order |
| TableSort.TimeOf | src/components/ScheduledPostsTable.tsx:172-177 | `getTime()`: a number exactly for a valid date |
| TableSort.KeyChain | src/components/ScheduledPostsTable.tsx:162-195 | comparable keys are ordered transitively |
| ScheduledPostsTable.FilterPosts | src/components/ScheduledPostsTable.tsx:134-148 | the filters never lengthen the list |
| ScheduledPostsTable.FilterPostsMembers | src/components/ScheduledPostsTable.tsx:138-148 | a post is shown exactly when it is in the input, its lower-cased title or content contains the lower-cased term, and its status matches |
| ScheduledPostsTable.FilterPostsSubMultiset | src/components/ScheduledPostsTable.tsx:138-148 | the shown posts are a sub-multiset of the input |
| ScheduledPostsTable.ComparePosts | src/components/ScheduledPostsTable.tsx:162-195 | -1, 0 or 1: in ascending order -1 exactly when a's key is smaller and 1 exactly when it is larger, the signs swapped in descending order |
| ScheduledPostsTable.DescNegatesAsc | src/components/ScheduledPostsTable.tsx:171-194 | descending order negates every ascending comparison |
| ScheduledPostsTable.ComparatorConsistent | src/components/ScheduledPostsTable.tsx:163-195 | the comparator never calls both of two posts greater |
| ScheduledPostsTable.ComparatorChains | src/components/ScheduledPostsTable.tsx:163-195 | with usable keys, the comparator is transitive on the list |
| ScheduledPostsTable.FilterAndSortPosts | src/components/ScheduledPostsTable.tsx:134-198 | the result holds exactly the filtered posts, in comparator order; with no filter it is the input array, sorted in place, otherwise a new array, and the input is kept |
| ScheduledPostsTable.SortedByKey | src/components/ScheduledPostsTable.tsx:163-195 | the sorted list is ordered by the selected key at every two positions, ascending or descending |
| ScheduledPostsTable.Count | src/components/ScheduledPostsTable.tsx:200-205 | a status's count is at most the number of posts |
| ScheduledPostsTable.StatusCounts | src/components/ScheduledPostsTable.tsx:200-205 | a status is a key exactly when some post has it, and its value is the number of posts with that status (accumulator modelled as a map; see Left out) |
| ScheduledPostsTable.ShownIsCount | src/components/ScheduledPostsTable.tsx:243-246 | `statusCounts[s] \|\| 0` is the number of posts with status s, zero included |
| ScheduledPostsTable.CountsSumToLength | src/components/ScheduledPostsTable.tsx:200-205 | when every post has one of the four statuses, the four counts add up to the number of posts |
| CampaignsTable.FilterCampaigns | src/components/CampaignsTable.tsx:96-111 | the filters never lengthen the list |
| CampaignsTable.FilterCampaignsMembers | src/components/CampaignsTable.tsx:99-111 | a campaign is shown exactly when it is in the input, its title, description or some tag contains the term without regard to case, and its status matches |
| CampaignsTable.FilterCampaignsSubMultiset | src/components/CampaignsTable.tsx:99-111 | the shown campaigns are a sub-multiset of the input |
| CampaignsTable.Difference | src/components/CampaignsTable.tsx:123-138 | a difference is negative exactly when the first number is smaller, and positive exactly when it is larger; NaN counts as 0 |
| CampaignsTable.CompareCampaigns | src/components/CampaignsTable.tsx:113-141 | negative exactly when a's key comes first in the chosen direction, and positive exactly when b's does: time difference for dates, lower-cased text for strings, difference for the post count |
| CampaignsTable.ComparatorConsistent | src/components/CampaignsTable.tsx:113-141 | the comparator never calls both of two campaigns greater |
| CampaignsTable.ComparatorChains | src/components/CampaignsTable.tsx:113-141 | with usable keys, the comparator is transitive on the list |
| CampaignsTable.FilterAndSortCampaigns | src/components/CampaignsTable.tsx:96-144 | the result holds exactly the filtered campaigns, in comparator order; with no filter it is the input array, sorted in place, otherwise a new array, and the input is kept |
| CampaignsTable.SortedByKey | src/components/CampaignsTable.tsx:113-141 | the sorted list is ordered by the selected key at every two positions |
| CampaignsTable.GetProgress | src/components/CampaignsTable.tsx:153-156 | 0 when no posts are planned; NaN exactly when a count is NaN and the plan is not 0 |
| CampaignsTable.ProgressComplete | src/components/CampaignsTable.tsx:155 | a campaign with every planned post done shows 100 |
| CampaignsTable.ProgressBounded | src/components/CampaignsTable.tsx:155 | with no more completed posts than planned, the progress lies between 0 and 100 |
| CampaignsTable.OfferedTransitions | src/components/CampaignsTable.tsx:310-330 | at most one status button is offered |
| CampaignsTable.OfferedExactly | src/components/CampaignsTable.tsx:310-330 | the buttons offered are exactly draft → scheduled and active → completed |
| CampaignsTable.StatusChange | src/components/CampaignsTable.tsx:89-94 | the status changes to the new one, and every other field is kept |
| CampaignsTable.StatusChangeReadBack | src/components/CampaignsTable.tsx:89-94 | the record written for the change reads back with the new status and the same identity |
| CampaignPostForm.Contents | src/components/CampaignPostForm.tsx:375-378 | the drafts without their numbers, position by position |
| CampaignPostForm.Renumber | src/components/CampaignPostForm.tsx:375-378 | the drafts numbered 1, 2, … in list order, with their contents kept |
| CampaignPostForm.NumberedByContents | src/components/CampaignPostForm.tsx:375-391 | two numbered lists with the same contents are equal |
| CampaignPostForm.AddPost | src/components/CampaignPostForm.tsx:356-364 | one blank draft numbered length + 1 is appended, and the others are untouched |
| CampaignPostForm.AddPostKeepsNumbering | src/components/CampaignPostForm.tsx:356-364 | adding keeps a numbered list numbered |
| CampaignPostForm.UpdatePost | src/components/CampaignPostForm.tsx:366-370 | only the draft at the index is replaced |
| CampaignPostForm.UpdatePostUndo | src/components/CampaignPostForm.tsx:366-370 | putting the old draft back undoes an update |
| CampaignPostForm.RemovePost | src/components/CampaignPostForm.tsx:372-380 | the result is numbered, and its contents are the list without that index |
| CampaignPostForm.RemovePostExactly | src/components/CampaignPostForm.tsx:372-380 | exactly the draft at the index is dropped, and the rest keep their order |
| CampaignPostForm.InsertAt | src/components/CampaignPostForm.tsx:385 | `splice(i, 0, x)`: x at i, the elements before kept and those after shifted by one |
| CampaignPostForm.Moved | src/components/CampaignPostForm.tsx:384-385 | the moved element lands at `to`, and the length is kept |
| CampaignPostForm.MovedProperties | src/components/CampaignPostForm.tsx:383-385 | taking the moved element out again gives the list without it, and nothing is lost or added |
| CampaignPostForm.MoveByOneSwaps | src/components/CampaignPostForm.tsx:382-393 | moving by one place swaps two neighbours |
| CampaignPostForm.MoveBack | src/components/CampaignPostForm.tsx:382-393 | moving back restores the list |
| CampaignPostForm.MovePost | src/components/CampaignPostForm.tsx:382-393 | the result is numbered 1..n, its contents are the old list with the draft moved to `to`, and the drafts are a permutation of the old ones |
| CampaignPostForm.ContentsMoved | src/components/CampaignPostForm.tsx:382-393 | stripping the numbers commutes with a move |
| CampaignPostForm.MaxReachedNoticeNeverShows | src/components/CampaignPostForm.tsx:451 | the notice's condition as written never holds |
| CampaignPostForm.MaxReachedNoticeExactly | src/components/CampaignPostForm.tsx:395 | the corrected notice shows exactly when no more drafts may be added |
| CampaignPostForm.RemoveImage | src/components/CampaignPostForm.tsx:73-79 | an empty list becomes undefined |
| CampaignPostForm.RemoveImageExactly | src/components/CampaignPostForm.tsx:73-79 | exactly the image at k is dropped; the list becomes undefined when it empties |
| CampaignPostForm.RemoveImageOutside | src/components/CampaignPostForm.tsx:73-79 | an index outside the list changes nothing |
| CampaignPostForm.AppendImages | src/components/CampaignPostForm.tsx:52-64 | the new URLs follow the existing images, in upload order; with no files nothing changes |
| CampaignForm.AddTag | src/components/CampaignForm.tsx:84-91 | the trimmed tag is appended exactly when it is non-empty and absent, and only then is the input cleared |
| CampaignForm.AddTagNoDuplicates | src/components/CampaignForm.tsx:84-91 | the tag list stays free of duplicates |
| CampaignForm.RemoveTag | src/components/CampaignForm.tsx:93-97 | the list never grows |
| CampaignForm.RemoveTagExactly | src/components/CampaignForm.tsx:93-97 | every occurrence of the tag goes, and the others stay in order |
| CampaignForm.OnSubmit | src/components/CampaignForm.tsx:99-148 | nothing happens exactly when a date is missing or the end is not after the start; it otherwise updates the edited campaign or creates a new one |
| CampaignForm.AcceptedDatesOrdered | src/components/CampaignForm.tsx:104-106 | with valid dates, a submission is accepted exactly when the start is before the end |
| CampaignForm.UpdateKeepsIdentity | src/components/CampaignForm.tsx:109-118 | an update keeps the id, status, posts, counts done and author, and takes the form's fields |
| CampaignForm.CreatedIsDraft | src/components/CampaignForm.tsx:136-148 | a new campaign is a draft without posts, its id made from the clock, and its record reads back as such |
| CampaignForm.ProceedIgnoresDateOrder | src/components/CampaignForm.tsx:175-178 | the posts step opens with a title, a count and both dates, whatever their order |
| CampaignForm.NoCountNoPosts | src/components/CampaignForm.tsx:175-178 | a count of 0 or NaN keeps the posts step closed |
| CampaignForm.ExistingDraftsAsWritten | src/components/CampaignForm.tsx:52-64 | each loaded post becomes a draft numbered by its 0-based index |
| CampaignForm.AsWrittenNumberingBroken | src/components/CampaignForm.tsx:59 | the first draft is numbered 0, and the next `addPost` skips a number |
| CampaignForm.ExistingDrafts | src/components/CampaignForm.tsx:52-64 | each loaded post becomes a draft numbered from 1 |
| CampaignForm.ExistingDraftsNumbered | src/components/CampaignForm.tsx:52-64 | the corrected drafts differ from the written ones only in their numbers, and stay numbered when a draft is added |
| SchedulePostDialog.HandleSubmit | src/components/SchedulePostDialog.tsx:33-80 | a submitted payload has the trimmed title and content, kind 1, and images only when there are some |
| SchedulePostDialog.Failures | src/components/SchedulePostDialog.tsx:33-71 | at most four checks fail |
| SchedulePostDialog.FirstFailureWins | src/components/SchedulePostDialog.tsx:33-71 | the form is submitted exactly when no check fails; otherwise the first failing check is the one reported |
| SchedulePostDialog.SubmittedPayload | src/components/SchedulePostDialog.tsx:64-80 | a submitted post has a non-blank title and content, kind 1, the form's images, and, when the date is valid, a time after now (an invalid date passes; see SchedulePostDialog.InvalidDatePasses) |
| SchedulePostDialog.SubmittedReadsBack | src/components/SchedulePostDialog.tsx:74-80 | the record created reads back as a scheduled kind-1 post with the trimmed title, due at the chosen time in whole seconds |
| SchedulePostDialog.InvalidDatePasses | src/components/SchedulePostDialog.tsx:61-64 | an invalid date passes the future check |
| SchedulePostDialog.AfterSubmit | src/components/SchedulePostDialog.tsx:82-88 | the fields are either cleared or kept |
| SchedulePostDialog.ResetOnlyOnSuccess | src/components/SchedulePostDialog.tsx:73-92 | the fields are cleared exactly when the post was submitted and the mutation succeeded |
| SchedulePostDialog.CheckUpload | src/components/SchedulePostDialog.tsx:99-117 | an upload is accepted exactly when it is at most 10·1024·1024 bytes and its type starts with `image/`; size is checked first |
| SchedulePostDialog.AddUploaded | src/components/SchedulePostDialog.tsx:119-138 | an uploaded URL is appended, and a failed upload changes nothing |
| SchedulePostDialog.RemoveImage | src/components/SchedulePostDialog.tsx:141-143 | an index in range removes one image, and any other index changes nothing |
| SchedulePostDialog.RemoveImageExactly | src/components/SchedulePostDialog.tsx:141-143 | exactly the image at the index is dropped, and the others keep their order |
| RelativeTime.DiffMs | src/components/ScheduledPostsTable.tsx:77 | a number exactly for a valid date |
| RelativeTime.Classify | src/components/ScheduledPostsTable.tsx:75-95 | past due exactly for a negative difference; otherwise minutes below an hour, hours below a day and days beyond, each count floored; NaN falls through to days |
| RelativeTime.PastDueExactlyBefore | src/components/ScheduledPostsManager.tsx:56-58 | 'Past due' exactly when the date is before now |
| RelativeTime.PluralUnlessOne | src/components/ScheduledPostsTable.tsx:86-94 | the unit takes an `s` exactly when the count is not 1 |
| RelativeTime.NowIsZeroMinutes | src/components/ScheduledPostsManager.tsx:60-62 | no time left reads `in 0 mins` |
| RelativeTime.OneMinute | src/components/ScheduledPostsManager.tsx:60-62 | the minute form reads `1 min` exactly when between one and two minutes are left |
| RelativeTime.PastDueBadgeAgrees | src/components/ScheduledPostsManager.tsx:174-175 | for a scheduled post, the past-due badge shows exactly when the text says 'Past due', when both read the same clock value |
| RelativeTime.PastDueBadgeTwoReadings | src/components/ScheduledPostsManager.tsx:48-51 | with the badge's clock reading no later than the text's, a badge is always matched by 'Past due', and 'Past due' shows without the badge exactly when the publish time lies between the two readings |

## Left out

- Real timers and the clock: `setTimeout`, `setInterval` and `Date.now` are left out. The clock is an input, timers are a map, and their firing is an explicit step. The 30 s sweep interval and the 5 min retry delay are not modelled as durations.
- PostScheduler.Scheduler.CheckForPostsToPublish: the source awaits each `publishPost` in turn, so other events may run between two claims; the model makes the claims back to back. Moreover, a `publishPost` whose failure report throws (`src/lib/postScheduler.ts:195-210`) rejects after its `finally`, which ends the sweep's loop (`:251-254`) and leaves the due posts after it untried in that sweep; the model still claims the remaining due posts. The same holds for SchedulerSpec.Sweep.
- SchedulerProps.SweepClaimsEveryDuePost: it holds of the source only while no `publishPost` earlier in the same sweep rejects; after such a rejection the source tries no further due post in that sweep (see CheckForPostsToPublish).
- RelativeTime.PastDueBadgeAgrees: it uses one clock reading for the badge (`src/components/ScheduledPostsManager.tsx:175`) and the text (`:50`), which the source reads separately; RelativeTime.PastDueBadgeTwoReadings states what holds for two readings, including the disagreement at the boundary.
- The publish action (signing, relay transport) and the network effect of the status reports: their outcomes are inputs.
- NIP-44 encryption and decryption, and the relay fetch of a published event's content: these are the parameters `encrypt`, `decrypt` and `fetched`.
- React state, effects, queries, caching, toasts and `console` logging.
- The `window.debugScheduler` global (`src/lib/postScheduler.ts:358-368`): it only logs.
- The analytics hooks: they are relay queries and floating-point scores.
- Local-time date handling: `new Date(`${date}T${time}`)`, the date-range filters of the posts table, `getMinDateTime` and `toLocaleString`. The dialog receives the date it would build as a parameter.
- `useCreateScheduledPostsFromCampaign` and the loading of a campaign's posts: this code is not part of this model.
- CampaignsTable.GetProgress: it uses exact real arithmetic, where the source divides in floating point before rounding.
- CampaignPostForm.UpdatePost: it requires an index inside the list. In the source, an index past the end grows the array with holes.
- CampaignPostForm.MovePost: it requires both indices inside the list. In the source, `splice` clamps indices that lie outside it.
- ScheduledPostsTable.FilterAndSortPosts: the result is proved a permutation in comparator order. The engine's order among equal keys is not stated. The same holds for CampaignsTable.FilterAndSortCampaigns, ScheduledPosts.LoadScheduledPosts and Campaigns.LoadCampaigns.
- Builtins.ToLower: `toLowerCase` is modelled on ASCII letters only.
- Builtins.ParseIntToString: the model's numbers are unbounded integers printed in plain decimal digits. JavaScript numbers are doubles: `toString` prints a magnitude of 1e21 or more in exponent form (`1e+21`, which `parseInt` reads as 1), and integers past 2^53 are rounded. The round trip is therefore JavaScript's only for integers below 2^53 in magnitude. Every date in the model is clipped to ±8.64e15 ms, well inside that range.
- Builtins.ParseNumToString: the same limit as ParseIntToString; the counts of Campaigns.CampaignRoundTrip (`total_posts`, `completed_posts`) inherit it.
- Campaigns.CampaignRoundTrip: its post counts are recovered only for counts below 2^53 in magnitude in JavaScript, not for every integer as in the model (see ParseIntToString).
- Builtins.NumToString: it prints plain decimal digits for every integer, where JavaScript switches to exponent form at 1e21.
- Builtins.StrLess: strings are sequences of code points and `<` compares them code point by code point. JavaScript compares UTF-16 code units, so strings with characters outside the Basic Multilingual Plane (such as emoji) may sort differently in the title and status columns of both tables.
- Builtins.Prefix: `substring(0, 50)` counts UTF-16 code units in JavaScript; the model counts code points, so a prefix may differ from the source's where an astral character (a surrogate pair) is involved. The same holds for SchedulerSpec.GetDebugInfo.
- Sorting.SortInPlace: stability, which `Array.prototype.sort` guarantees since ES2019, is not stated or proved. Moreover, with an invalid date the comparators read NaN as 0 and are then not consistent comparators; ECMAScript leaves the resulting order to the engine, so AdjacentSorted describes the model's insertion sort rather than every engine's result in that case.
- SchedulerSpec.Schedule: it takes the clock reading of the step that calls it. The source reads `Date.now()` separately at `src/lib/postScheduler.ts:77`, `:228`, `:277`, `:323` and `:340`; the model assumes all readings within one synchronous step are equal. If the clock moves between the loop's test and `schedulePost`'s own reading, a post due within a millisecond may be published inside the loop, a branch the model cannot reach from there. The same assumption holds for SchedulerSpec.ArmAll and SchedulerSpec.Reconcile.
- SchedulerProps.ArmAllOnlyTimers: "a future post never publishes at once" holds only under one clock reading per step (see SchedulerSpec.Schedule).
- SchedulerProps.ReconcileWithoutDue: "nothing is published without overdue posts" holds only under one clock reading per step (see SchedulerSpec.Schedule).
- SchedulerProps.ReconcileTwiceNoNewAttempts: both reconciles, and the duplicate-prevention checks inside them, use one clock reading (see SchedulerSpec.Schedule). Moreover, `updateScheduledPosts` starts `checkForPostsToPublish` without awaiting it (`src/lib/postScheduler.ts:289`), and the sweep awaits each `publishPost` (`:251-254`), so within the call the source claims only the first due post and claims each later one only as the previous publish settles. A second reconcile before then starts the next due post: with due posts A and B, the first call claims A and the second, made at once, leads to B's claim. The model makes every claim of the first sweep within the first call, so it proves no new attempt in the second; the lemma describes the state after the first sweep has run to its end.
- SchedulerProps.ReconcileClaimsDue: "exactly the overdue new posts" holds of the source only once the un-awaited sweep (`src/lib/postScheduler.ts:289`, `:251-254`) has run to its end, with the later claims made as each earlier publish settles, and only while no `publishPost` of that sweep rejects (see SchedulerProps.SweepClaimsEveryDuePost).
- ScheduledPostsTable.StatusCounts: the source's accumulator is a plain object `{}` (`src/components/ScheduledPostsTable.tsx:201-204`), so `acc[post.status] || 0` reads inherited `Object.prototype` members. A status named after one of them ("constructor", "toString", …) stores a string such as `"function Object() { [native code] }1"`, and "__proto__" never becomes an own key. The model's map counts such statuses like any other. The four counts shown (`:243-246`) are unaffected.
- The uploads themselves (NIP-94 file upload): their URLs, or their failure, are inputs.
- ScheduledPosts.ParseEvent: the `try`/`catch` around each event is left out. No call in the modelled loop throws except those given as parameters.

Behaviours of the code that the model follows as written:

- `start` does not sweep at once.
- Every failure arms another retry, so there is no bound of one retry.
- A status report that throws after a successful publish is caught and reported as a failure, with a retry.
- A failure report that throws escapes `publishPost`, and no retry is armed. (That the escape also ends the surrounding sweep is not modelled; see Left out.)
- `stop` empties the in-flight set while publish calls may still be pending (SchedulerProps.StopForgetsInFlight).

## Findings

| source | as written | input that shows it | evidently intended | confidence | as-written member | corrected member |
|---|---|---|---|---|---|---|
| src/lib/postScheduler.ts:262-264 | the new posts' `publishAt.toISOString()` is logged before the timers are pruned; an Invalid Date throws a RangeError there | a scheduler with an armed timer for post A, updated with one post B whose publish date is invalid: A's timer stays armed although A was dropped | prune and arm the timers whatever the dates | not executed | SchedulerProps.ReconcileAsWrittenKeepsStaleTimer | SchedulerProps.ReconcilePrunesTimers |
| src/hooks/useSchedulePost.ts:96-120 | a status update's tags never include the title that the scheduler reports, so the record that replaces the original has no title | the `published` report for post "1700000000000-abc" titled "Launch" reads back titled 'Untitled Post' | keep the reported title in the replacement record | not executed | SchedulePost.UpdateDropsTitle | SchedulePost.UpdateKeepingTitleReadBack |
| src/components/CampaignForm.tsx:59 | loaded posts become drafts with `order: index`, counted from 0, while every other list change numbers them from 1 | one loaded post shows as "Post #0", and the next `addPost` numbers its draft 2 | `order: index + 1` | not executed | CampaignForm.AsWrittenNumberingBroken | CampaignForm.ExistingDraftsNumbered |
| src/components/CampaignPostForm.tsx:451 | the "reached the maximum" notice requires both `!canAddMore` and `posts.length < totalPosts`, which contradict each other | 3 drafts of 3 planned posts: no notice | show it when `!canAddMore` | not executed | CampaignPostForm.MaxReachedNoticeNeverShows | CampaignPostForm.MaxReachedNoticeExactly |
