/**
 * `PostScheduler` of `src/lib/postScheduler.ts` as objects: the scheduler's
 * fields, the module-wide dedup map and the global scheduler slot. Each
 * method changes the fields as the source does and is proved equal to the
 * corresponding transition of `SchedulerSpec`, whose properties are proved
 * in `SchedulerProps`.
 */
module PostScheduler {
  import opened Builtins
  import opened Nostr
  import opened SchedulerSpec
  import opened Lists

  /** The module-level `recentlyPublished` map, shared by every scheduler instance. */
  class DedupGuard {
    var entries: map<string, int>

    constructor(entries0: map<string, int>)
      ensures entries == entries0
    {
      entries := entries0;
    }

    /** `isRecentlyPublished(id)`: blocks a truthy entry younger than the window; deletes one older than twice the window. */
    method IsRecentlyPublished(id: string, now: int) returns (blocked: bool)
      modifies this
      ensures blocked == Blocked(old(entries), id, now)
      ensures entries == AfterCheck(old(entries), id, now)
    {
      if id !in entries || entries[id] == 0 {
        return false;
      }
      var timeSinceLastPublish := now - entries[id];
      if timeSinceLastPublish < Window {
        return true;
      }
      if timeSinceLastPublish > Window * 2 {
        entries := entries - {id};
      }
      return false;
    }

    /** `markAsPublished(id)`: records the current time. */
    method MarkAsPublished(id: string, now: int)
      modifies this
      ensures entries == old(entries)[id := now]
    {
      entries := entries[id := now];
    }
  }

  class Scheduler {
    var pending: seq<Post>
    var timers: map<string, Post>
    var publishing: set<string>
    var running: bool
    /** Publish calls made and not yet settled. */
    var attempts: seq<Post>
    /** Retry timers armed and not yet fired. */
    var retries: seq<Post>
    const guard: DedupGuard

    /** The scheduler's state together with the shared dedup map. */
    function State(): State
      reads this, guard
    {
      SchedulerSpec.State(pending, timers, publishing, running, attempts, retries, guard.entries)
    }

    constructor(guard: DedupGuard)
      ensures this.guard == guard
      ensures State() == Initial(guard.entries)
    {
      pending := [];
      timers := map[];
      publishing := {};
      running := false;
      attempts := [];
      retries := [];
      this.guard := guard;
    }

    method Start()
      modifies this
      ensures State() == SchedulerSpec.Start(old(State()))
    {
      if running {
        return;
      }
      running := true;
    }

    method Stop()
      modifies this
      ensures State() == SchedulerSpec.Stop(old(State()))
    {
      if !running {
        return;
      }
      running := false;
      timers := map[];
      publishing := {};
    }

    method UnschedulePost(id: string)
      modifies this
      ensures State() == Unschedule(old(State()), id)
    {
      if id in timers {
        timers := timers - {id};
      }
    }

    /** `schedulePost(p)`; `threw` is set when its last log line throws on an Invalid Date. */
    method SchedulePost(p: Post, now: int) returns (threw: bool)
      modifies this, guard
      ensures State() == Schedule(old(State()), p, now)
      ensures threw == ScheduleThrows(p)
    {
      UnschedulePost(p.id);
      if p.publishAt.At? && p.publishAt.ms - now <= 0 {
        var _ := PublishPost(p, now);
        return false;
      }
      timers := timers[p.id := p];
      threw := p.publishAt.Invalid?;
    }

    /**
     * The synchronous part of `publishPost(p)`: the three guards, then the
     * claim and the publish call, whose event is returned; None when a guard
     * stopped it.
     */
    method PublishPost(p: Post, now: int) returns (draft: Option<Draft>)
      modifies this, guard
      ensures State() == PublishStart(old(State()), p, now)
      ensures draft.Some? <==> Claims(old(State()), p, now)
      ensures draft.Some? ==> draft.value == Payload(p)
    {
      ghost var s0 := State();
      var blocked := guard.IsRecentlyPublished(p.id, now);
      ghost var checked := s0.(recent := guard.entries);
      assert State() == checked;
      if blocked {
        return None;
      }
      if p.id in publishing {
        return None;
      }
      var postIndex := IndexOf(pending, p.id);
      if postIndex.None? {
        return None;
      }
      guard.MarkAsPublished(p.id, now);
      publishing := publishing + {p.id};
      pending := RemoveAt(pending, postIndex.value);
      if p.id in timers {
        timers := timers - {p.id};
      }
      assert timers == s0.timers - {p.id};
      var d := BuildPayload(p);
      attempts := attempts + [p];
      return Some(d);
    }

    /** The content and the `imeta` tags of the published event. */
    static method BuildPayload(p: Post) returns (d: Draft)
      ensures d == Payload(p)
    {
      var finalContent := p.content;
      var tags: seq<Tag> := [];
      if p.images.Some? && |p.images.value| > 0 {
        var images := p.images.value;
        finalContent := p.content + "\n\n" + Join(seq(|images|, i requires 0 <= i < |images| => JoinedText(images[i])), "\n");
        var i := 0;
        while i < |images|
          invariant 0 <= i <= |images|
          invariant |tags| == i
          invariant forall k :: 0 <= k < i ==> tags[k] == ["imeta", "url " + TemplateText(images[k])]
        {
          tags := tags + [["imeta", "url " + TemplateText(images[i])]];
          i := i + 1;
        }
        assert tags == ImetaTags(images);
      }
      d := Draft(p.targetKind, finalContent, if |tags| > 0 then Some(tags) else None);
    }

    /**
     * The continuation of the publish call for attempt k: the status reports
     * as far as they are reached, the retry when a caught error's report
     * resolves, and the `finally` clause.
     */
    method Complete(k: nat, outcome: PublishOutcome, successReport: Option<Thrown>,
                    failureReport: Option<Thrown>, now: int) returns (reports: seq<Report>)
      requires k < |attempts|
      modifies this
      ensures var c := SchedulerSpec.Complete(old(State()), k, outcome, successReport, failureReport, now);
        State() == c.state && reports == c.reports
    {
      var p := attempts[k];
      attempts := RemoveAt(attempts, k);
      reports := [];
      var caught: Option<Thrown>;
      match outcome {
        case Published(eventId) =>
          reports := reports + [SuccessReport(p, eventId, now)];
          caught := successReport;
        case PublishFailed(e) =>
          caught := Some(e);
      }
      if caught.Some? {
        reports := reports + [FailureReport(p, caught.value, now)];
        if failureReport.None? {
          retries := retries + [p];
        }
      }
      publishing := publishing - {p.id};
    }

    /** The callback of the timer armed for `id`. */
    method FireTimer(id: string, now: int)
      modifies this, guard
      ensures State() == SchedulerSpec.FireTimer(old(State()), id, now)
    {
      if id !in timers {
        return;
      }
      var p := timers[id];
      if Contains(pending, p.id) {
        var _ := PublishPost(p, now);
      }
      timers := timers - {p.id};
    }

    /** The callback of retry timer k. */
    method FireRetry(k: nat, now: int)
      requires k < |retries|
      modifies this, guard
      ensures State() == SchedulerSpec.FireRetry(old(State()), k, now)
    {
      var p := retries[k];
      retries := RemoveAt(retries, k);
      if p.id !in publishing {
        var _ := PublishPost(p, now);
      }
    }

    /** `checkForPostsToPublish()`: publishPost on every pending post whose time has come, in order. */
    method CheckForPostsToPublish(now: int)
      modifies this, guard
      ensures State() == Sweep(old(State()), now)
    {
      if !running || |pending| == 0 {
        return;
      }
      var postsToPublish := Due(pending, now);
      var i := 0;
      while i < |postsToPublish|
        invariant 0 <= i <= |postsToPublish|
        invariant State() == ClaimAll(old(State()), postsToPublish[..i], now)
      {
        var _ := PublishPost(postsToPublish[i], now);
        assert postsToPublish[..i + 1][..i] == postsToPublish[..i];
        i := i + 1;
      }
      assert postsToPublish[..i] == postsToPublish;
    }

    /**
     * `updateScheduledPosts(posts)`: replace the pending list; stop with
     * `threw` set when the log line throws on an Invalid Date; otherwise clear
     * the timers of dropped ids, schedule every future post and sweep.
     */
    method UpdateScheduledPosts(posts: seq<Post>, now: int) returns (threw: bool)
      modifies this, guard
      ensures (State(), threw) == ReconcileAsWritten(old(State()), posts, now)
    {
      pending := posts;
      if AnyInvalid(posts) {
        return true;
      }
      PruneTimers(posts);
      ArmFutureTimers(posts, now);
      CheckForPostsToPublish(now);
      return false;
    }

    /** The first loop of `updateScheduledPosts`: clear the timer of every id not among the new posts. */
    method PruneTimers(posts: seq<Post>)
      modifies this
      ensures State() == old(State()).(timers := KeepTimers(old(timers), posts))
    {
      var currentIds := Ids(posts);
      ghost var before := timers;
      var toCheck := timers.Keys;
      while toCheck != {}
        invariant toCheck <= before.Keys
        invariant forall id :: id in timers <==> id in before && (id in toCheck || id in currentIds)
        invariant forall id :: id in timers ==> timers[id] == before[id]
        invariant pending == old(pending) && running == old(running) && publishing == old(publishing)
        invariant attempts == old(attempts) && retries == old(retries)
        decreases toCheck
      {
        var id :| id in toCheck;
        if id !in currentIds {
          timers := timers - {id};
        }
        toCheck := toCheck - {id};
      }
      assert timers == KeepTimers(before, posts);
    }

    /** The second loop of `updateScheduledPosts`: schedule every post whose time is still ahead. */
    method ArmFutureTimers(posts: seq<Post>, now: int)
      modifies this, guard
      ensures State() == ArmAll(old(State()), posts, now)
    {
      var i := 0;
      while i < |posts|
        invariant 0 <= i <= |posts|
        invariant State() == ArmAll(old(State()), posts[..i], now)
      {
        var post := posts[i];
        if post.publishAt.At? && post.publishAt.ms > now {
          var _ := SchedulePost(post, now);
        }
        assert posts[..i + 1][..i] == posts[..i];
        i := i + 1;
      }
      assert posts[..i] == posts;
    }
  }

  /** The global scheduler slot of `getScheduler` / `setScheduler`. */
  class Registry {
    var current: Scheduler?

    constructor()
      ensures current == null
    {
      current := null;
    }

    /** `setScheduler(s)`: a different registered scheduler is stopped when a new non-null one replaces it. */
    method SetScheduler(s: Scheduler?)
      modifies this, current
      ensures current == s
      ensures old(current) != null && s != null && old(current) != s ==>
        old(current).State() == SchedulerSpec.Stop(old(current.State()))
      ensures old(current) != null && (s == null || old(current) == s) ==> unchanged(old(current))
    {
      if s != null && current != null && current != s {
        current.Stop();
      }
      current := s;
    }
  }
}
