/**
 * `usePostScheduler` and `useSchedulerStatus` of `src/hooks/usePostScheduler.ts`:
 * the hook's scheduler ref and its two effects, run explicitly. The first
 * effect follows the signed-in user (creating and starting one scheduler,
 * or stopping and dropping it); the second hands the scheduler the records
 * whose status is `scheduled`. The status reports the scheduler makes go to
 * `updateScheduledPost` unchanged.
 */
module SchedulerHook {
  import opened Builtins
  import opened Nostr
  import opened ScheduledPosts
  import opened SchedulerSpec
  import opened PostScheduler
  import opened SchedulePost

  /** The scheduler's view of a record. */
  function ToPost(p: ScheduledPost): (q: Post)
    ensures q.id == p.id && q.publishAt == p.publishAt && q.content == p.content && q.targetKind == p.targetKind
    ensures q.images == p.images && q.event == p.event && q.title == Some(p.title)
  {
    Post(p.id, p.publishAt, p.content, p.targetKind, p.images, p.event, Some(p.title))
  }

  /** `scheduledPosts.filter(post => post.status === 'scheduled').map(...)`. */
  function SchedulerInput(posts: seq<ScheduledPost>): (r: seq<Post>)
    ensures |r| <= |posts|
  {
    if posts == [] then []
    else (if posts[0].status == "scheduled" then [ToPost(posts[0])] else []) + SchedulerInput(posts[1..])
  }

  /** The input keeps the relative order of the records: it distributes over concatenation. */
  lemma {:induction false} SchedulerInputAppend(a: seq<ScheduledPost>, b: seq<ScheduledPost>)
    ensures SchedulerInput(a + b) == SchedulerInput(a) + SchedulerInput(b)
    decreases |a|
  {
    if a == [] {
      assert a + b == b;
    } else {
      var head := if a[0].status == "scheduled" then [ToPost(a[0])] else [];
      assert (a + b)[0] == a[0];
      assert (a + b)[1..] == a[1..] + b;
      assert SchedulerInput(a + b) == head + SchedulerInput(a[1..] + b);
      SchedulerInputAppend(a[1..], b);
      assert SchedulerInput(a) == head + SchedulerInput(a[1..]);
      assert head + (SchedulerInput(a[1..]) + SchedulerInput(b)) == (head + SchedulerInput(a[1..])) + SchedulerInput(b);
    }
  }

  /** Every post handed to the scheduler is the view of a scheduled record, and every scheduled record is handed over. */
  lemma {:induction false} SchedulerInputExactlyScheduled(posts: seq<ScheduledPost>)
    ensures forall q :: q in SchedulerInput(posts) <==> exists p :: p in posts && p.status == "scheduled" && q == ToPost(p)
    decreases |posts|
  {
    if posts != [] {
      SchedulerInputExactlyScheduled(posts[1..]);
      assert posts == [posts[0]] + posts[1..];
      forall q | q in SchedulerInput(posts)
        ensures exists p :: p in posts && p.status == "scheduled" && q == ToPost(p)
      {
        if posts[0].status == "scheduled" && q == ToPost(posts[0]) {
          assert posts[0] in posts;
        } else {
          var p :| p in posts[1..] && p.status == "scheduled" && q == ToPost(p);
          assert p in posts;
        }
      }
      forall p | p in posts && p.status == "scheduled"
        ensures ToPost(p) in SchedulerInput(posts)
      {
        if p != posts[0] {
          assert p in posts[1..];
        }
      }
    }
  }

  /** With every record scheduled, the input is the records' views position by position. */
  lemma {:induction false} SchedulerInputAllScheduled(posts: seq<ScheduledPost>)
    requires forall i :: 0 <= i < |posts| ==> posts[i].status == "scheduled"
    ensures |SchedulerInput(posts)| == |posts|
    ensures forall i :: 0 <= i < |posts| ==> SchedulerInput(posts)[i] == ToPost(posts[i])
    decreases |posts|
  {
    if posts != [] {
      SchedulerInputAllScheduled(posts[1..]);
    }
  }

  /** With no scheduled record the input is empty, and the update clears the pending list and every timer. */
  lemma NothingScheduledClears(posts: seq<ScheduledPost>, s: State, now: int)
    requires forall i :: 0 <= i < |posts| ==> posts[i].status != "scheduled"
    ensures SchedulerInput(posts) == []
    ensures var (t, threw) := ReconcileAsWritten(s, SchedulerInput(posts), now);
      !threw && t.pending == [] && t.timers == map[]
  {
    NoneScheduledEmpty(posts);
    assert !AnyInvalid([]);
    assert ReconcileAsWritten(s, [], now) == (Reconcile(s, [], now), false);
    ReconcileEmptyClearsHere(s, now);
  }

  lemma {:induction false} NoneScheduledEmpty(posts: seq<ScheduledPost>)
    requires forall i :: 0 <= i < |posts| ==> posts[i].status != "scheduled"
    ensures SchedulerInput(posts) == []
    decreases |posts|
  {
    if posts != [] {
      assert posts[0].status != "scheduled";
      NoneScheduledEmpty(posts[1..]);
    }
  }

  lemma ReconcileEmptyClearsHere(s: State, now: int)
    ensures Reconcile(s, [], now).pending == [] && Reconcile(s, [], now).timers == map[]
  {
    assert KeepTimers(s.timers, []) == map[];
    assert Due([], now) == [];
  }

  /** The update the hook's wrapper passes on for a status report: every field, the title included. */
  function ReportToUpdate(r: Report): (u: UpdateData)
    ensures u.id == r.id && u.status == r.status && u.title == r.title
    ensures u.publishAt == Some(r.publishAt) && u.targetKind == Some(r.targetKind) && u.createdAt == Some(r.createdAt)
    ensures u.publishedEventId == r.publishedEventId && u.error == r.error
  {
    UpdateData(r.id, r.status, r.publishedEventId, r.error, Some(r.publishAt), Some(r.targetKind), Some(r.createdAt), r.title)
  }

  /**
   * The status record of a successful publish, as written: accepted by the
   * reader exactly when the target kind is truthy, with status `published`
   * and the event id, and always titled 'Untitled Post'.
   */
  lemma SuccessReportReadBack(p: Post, eventId: string, now: int, hasNip44: bool,
                              decrypt: string -> Option<string>, fetched: string -> Option<string>,
                              id: string, pubkey: string, createdAt: int)
    requires p.id != "" && Clipped(p.publishAt) && Clipped(At(now))
    ensures var ev := Event(id, pubkey, createdAt, ScheduledPostKind, UpdateTags(ReportToUpdate(SuccessReport(p, eventId, now))), "");
      var r := ParseEvent(ev, hasNip44, decrypt, fetched);
      && (r.Some? <==> NumTruthy(p.targetKind))
      && (r.Some? ==> r.value.id == p.id && r.value.status == "published" && r.value.title == "Untitled Post"
                      && r.value.publishAt == WholeSeconds(p.publishAt) && r.value.targetKind == p.targetKind
                      && r.value.publishedEventId == (if eventId != "" then Some(eventId) else None))
  {
    UpdateReadBack(ReportToUpdate(SuccessReport(p, eventId, now)), hasNip44, decrypt, fetched, id, pubkey, createdAt);
  }

  /** With the title kept, the same status record reads back with the post's title. */
  lemma SuccessReportKeepingTitleReadBack(p: Post, eventId: string, now: int, hasNip44: bool,
                                          decrypt: string -> Option<string>, fetched: string -> Option<string>,
                                          id: string, pubkey: string, createdAt: int)
    requires p.id != "" && Clipped(p.publishAt) && Clipped(At(now)) && NumTruthy(p.targetKind)
    requires p.title.Some? && p.title.value != ""
    ensures var ev := Event(id, pubkey, createdAt, ScheduledPostKind,
                            UpdateTagsKeepingTitle(ReportToUpdate(SuccessReport(p, eventId, now))), "");
      var r := ParseEvent(ev, hasNip44, decrypt, fetched);
      r.Some? && r.value.title == p.title.value && r.value.status == "published"
  {
    var u := ReportToUpdate(SuccessReport(p, eventId, now));
    UpdateReadBack(u, hasNip44, decrypt, fetched, id, pubkey, createdAt);
    UpdateKeepingTitleReadBack(u, hasNip44, decrypt, fetched, id, pubkey, createdAt);
  }

  /** The hook's `schedulerRef`, together with the global slot and the shared dedup map. */
  class Hook {
    var schedulerRef: Scheduler?
    const registry: Registry
    const guard: DedupGuard

    constructor(registry: Registry, guard: DedupGuard)
      ensures schedulerRef == null && this.registry == registry && this.guard == guard
    {
      schedulerRef := null;
      this.registry := registry;
      this.guard := guard;
    }

    /** Stop and drop the hook's scheduler, and clear the global slot; nothing when there is none. */
    method Release()
      modifies this, schedulerRef, registry, registry.current
      ensures schedulerRef == null
      ensures old(schedulerRef) != null ==>
        old(schedulerRef).State() == SchedulerSpec.Stop(old(schedulerRef.State())) && registry.current == null
      ensures old(schedulerRef) == null ==> unchanged(registry)
    {
      if schedulerRef != null {
        var s := schedulerRef;
        s.Stop();
        schedulerRef := null;
        registry.SetScheduler(null);
      }
    }

    /**
     * The first effect, run when the user changes. Without a user the
     * scheduler is released. With one, a scheduler is created over the
     * shared dedup map, started and registered, only when the ref is empty;
     * registering it stops a different scheduler registered before.
     */
    method UserEffect(hasUser: bool)
      modifies this, schedulerRef, registry, registry.current
      ensures !hasUser ==> schedulerRef == null
      ensures !hasUser && old(schedulerRef) != null ==>
        old(schedulerRef).State() == SchedulerSpec.Stop(old(schedulerRef.State())) && registry.current == null
      ensures !hasUser && old(schedulerRef) == null ==> unchanged(registry)
      ensures hasUser && old(schedulerRef) != null ==>
        schedulerRef == old(schedulerRef) && unchanged(registry) && unchanged(schedulerRef)
      ensures hasUser && old(schedulerRef) == null ==>
        && schedulerRef != null && fresh(schedulerRef) && schedulerRef.guard == guard
        && schedulerRef.State() == SchedulerSpec.Start(Initial(guard.entries))
        && registry.current == schedulerRef
        && (old(registry.current) != null ==>
              old(registry.current).State() == SchedulerSpec.Stop(old(registry.current.State())))
    {
      if !hasUser {
        Release();
        return;
      }
      if schedulerRef == null {
        var s := new Scheduler(guard);
        s.Start();
        schedulerRef := s;
        registry.SetScheduler(s);
      }
    }

    /** The first effect's cleanup, run on unmount or before it runs again. */
    method Cleanup()
      modifies this, schedulerRef, registry, registry.current
      ensures schedulerRef == null
      ensures old(schedulerRef) != null ==>
        old(schedulerRef).State() == SchedulerSpec.Stop(old(schedulerRef.State())) && registry.current == null
      ensures old(schedulerRef) == null ==> unchanged(registry)
    {
      Release();
    }

    /**
     * The second effect, run when the records change: with a scheduler in
     * the ref, it always receives the scheduled records, even when there are
     * none; `threw` is set when that update throws.
     */
    method PostsEffect(posts: seq<ScheduledPost>, now: int) returns (threw: bool)
      requires schedulerRef != null ==> schedulerRef.guard == guard
      modifies schedulerRef, guard
      ensures old(schedulerRef) == null ==> !threw
      ensures old(schedulerRef) != null ==>
        (schedulerRef.State(), threw) == ReconcileAsWritten(old(schedulerRef.State()), SchedulerInput(posts), now)
    {
      if schedulerRef == null {
        return false;
      }
      var schedulerPosts := SchedulerInput(posts);
      threw := schedulerRef.UpdateScheduledPosts(schedulerPosts, now);
    }

    /** `isRunning` of the hook: a scheduler is in the ref. */
    method IsRunning() returns (isRunning: bool)
      ensures isRunning <==> schedulerRef != null
    {
      isRunning := schedulerRef != null;
    }
  }

  /** `useSchedulerStatus().isRunning`: the global slot is set, whatever the scheduler's own flag. */
  method SchedulerStatus(registry: Registry) returns (isRunning: bool, scheduler: Scheduler?)
    ensures scheduler == registry.current
    ensures isRunning <==> registry.current != null
  {
    scheduler := registry.current;
    isRunning := scheduler != null;
  }
}
