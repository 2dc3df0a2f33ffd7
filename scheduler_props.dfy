/**
 * What the post scheduler promises, proved about the state machine of
 * `SchedulerSpec`: the dedup window, the three guards and the claim, the
 * publish payload, completion and retry, the two triggers, the reconcile
 * of `updateScheduledPosts`, and the in-flight invariant.
 */
module SchedulerProps {
  import opened Builtins
  import opened Nostr
  import opened SchedulerSpec
  import opened Lists

  // ---------------------------------------------------------------------
  // Dedup window

  /** After `markAsPublished(id)` at time t (t non-zero), `isRecentlyPublished(id)` holds exactly until t + 5000. */
  lemma MarkThenCheck(recent: map<string, int>, id: string, t: int, now: int)
    requires t != 0
    ensures Blocked(recent[id := t], id, now) <==> now < t + Window
  {
  }

  /** A check deletes the id's entry exactly when it is non-zero and older than twice the window, and touches no other id. */
  lemma CheckDeletesOnlyStale(recent: map<string, int>, id: string, now: int)
    requires id in recent
    ensures id !in AfterCheck(recent, id, now) <==> recent[id] != 0 && now - recent[id] > 2 * Window
    ensures forall k :: k != id ==> (k in AfterCheck(recent, id, now) <==> k in recent)
  {
  }

  /** A check that blocks never deletes the entry, so a blocking entry keeps blocking at the same time. */
  lemma BlockingCheckKeepsEntry(recent: map<string, int>, id: string, now: int)
    requires Blocked(recent, id, now)
    ensures AfterCheck(recent, id, now) == recent
  {
  }

  // ---------------------------------------------------------------------
  // publishPost: guards and claim

  /** When a guard fails, publishPost adds no attempt and changes nothing but the dedup check's clean-up. */
  lemma GuardFailureChangesNothing(s: State, p: Post, now: int)
    requires !Claims(s, p, now)
    ensures PublishStart(s, p, now) == s.(recent := AfterCheck(s.recent, p.id, now))
  {
  }

  /**
   * When the guards pass, before the publish call: the post becomes the
   * newest attempt, the id is marked at `now` and is in flight, its first
   * pending occurrence is spliced out (the id leaves the list when it was
   * there once), and its timer is gone.
   */
  lemma ClaimTakesPost(s: State, p: Post, now: int)
    requires Claims(s, p, now)
    ensures var r := PublishStart(s, p, now);
      && r.attempts == s.attempts + [p]
      && p.id in r.publishing && r.publishing == s.publishing + {p.id}
      && p.id in r.recent && r.recent[p.id] == now
      && p.id !in r.timers
      && |r.pending| == |s.pending| - 1
      && multiset(r.pending) <= multiset(s.pending)
      && (UniqueIds(s.pending) ==> !Contains(r.pending, p.id))
      && r.running == s.running && r.retries == s.retries
  {
    var i := IndexOf(s.pending, p.id).value;
    var r := PublishStart(s, p, now);
    assert r.pending == RemoveAt(s.pending, i);
    assert s.pending == s.pending[..i] + [s.pending[i]] + s.pending[i + 1..];
    if UniqueIds(s.pending) {
      forall k | i <= k < |r.pending| ensures r.pending[k].id != p.id {
        assert r.pending[k] == s.pending[k + 1];
      }
    }
  }

  /** While an id is in flight, no publishPost for it gets past the guards. */
  lemma InFlightBlocksClaim(s: State, p: Post, now: int)
    requires p.id in s.publishing
    ensures PublishStart(s, p, now).attempts == s.attempts
    ensures p.id in PublishStart(s, p, now).publishing
  {
  }

  /** The publish payload: images are appended to the text and each gets one `imeta` tag, in order. */
  lemma PayloadWithImages(p: Post)
    requires p.images.Some? && |p.images.value| > 0
    ensures var d := Payload(p);
      && d.kind == p.targetKind
      && StartsWith(d.content, p.content + "\n\n")
      && d.tags.Some? && |d.tags.value| == |p.images.value|
      && forall i :: 0 <= i < |p.images.value| ==>
           d.tags.value[i][0] == "imeta" && StartsWith(d.tags.value[i][1], "url ")
           && d.tags.value[i][1][4..] == TemplateText(p.images.value[i])
  {
    var d := Payload(p);
    var prefix := p.content + "\n\n";
    assert d.content[..|prefix|] == prefix;
    forall i | 0 <= i < |p.images.value|
      ensures d.tags.value[i][0] == "imeta" && StartsWith(d.tags.value[i][1], "url ")
        && d.tags.value[i][1][4..] == TemplateText(p.images.value[i])
    {
      var u := "url " + TemplateText(p.images.value[i]);
      assert d.tags.value[i] == ["imeta", u];
      assert u[..4] == "url ";
    }
  }

  /** Without images the text goes out unchanged and `tags` is undefined. */
  lemma PayloadWithoutImages(p: Post)
    requires p.images.None? || p.images.value == []
    ensures Payload(p) == Draft(p.targetKind, p.content, None)
  {
  }

  /** Each image URL is recovered from the two joined lines that follow the text. */
  lemma PayloadSingleImage(p: Post, url: string)
    requires p.images == Some([Some(url)])
    ensures Payload(p).content == p.content + "\n\n" + url
  {
    var images := p.images.value;
    assert seq(|images|, i requires 0 <= i < |images| => JoinedText(images[i])) == [url];
  }

  // ---------------------------------------------------------------------
  // Completion and retry

  /**
   * Completion of attempt k: the attempt is retired and its id leaves the
   * in-flight set. A publish that resolves with a resolving success report
   * yields exactly the `published` report and no retry; every caught error
   * ends with a `failed` report carrying the error's message or
   * 'Unknown error', and exactly one retry is armed iff that report resolves.
   */
  lemma CompleteSettles(s: State, k: nat, outcome: PublishOutcome, successReport: Option<Thrown>,
                        failureReport: Option<Thrown>, now: int)
    requires k < |s.attempts|
    ensures var c := Complete(s, k, outcome, successReport, failureReport, now);
      var p := s.attempts[k];
      var caught := outcome.PublishFailed? || successReport.Some?;
      && c.state.attempts == RemoveAt(s.attempts, k)
      && p.id !in c.state.publishing
      && c.state.pending == s.pending && c.state.timers == s.timers
      && (outcome.Published? <==> |c.reports| > 0 && c.reports[0].status == "published")
      && (outcome.Published? ==> c.reports[0].publishedEventId == Some(outcome.eventId))
      && (!caught <==> outcome.Published? && c.reports == [SuccessReport(p, outcome.eventId, now)])
      && (caught ==> c.reports[|c.reports| - 1].status == "failed"
                     && c.reports[|c.reports| - 1].error.Some?
                     && c.reports[|c.reports| - 1].error.value ==
                          ReasonText(if outcome.PublishFailed? then outcome.reason else successReport.value))
      && (c.state.retries == s.retries + [p] <==> caught && failureReport.None?)
      && (c.state.retries == s.retries <==> !(caught && failureReport.None?))
  {
  }

  /** A retry fire re-enters the guards: it makes a new attempt only if the id is not in flight and is pending again. */
  lemma RetryNeedsPending(s: State, k: nat, now: int)
    requires k < |s.retries|
    ensures var p := s.retries[k];
      |FireRetry(s, k, now).attempts| > |s.attempts| <==>
        p.id !in s.publishing && !Blocked(s.recent, p.id, now) && Contains(s.pending, p.id)
    ensures |FireRetry(s, k, now).retries| == |s.retries| - 1
  {
  }

  // ---------------------------------------------------------------------
  // Lists of posts

  lemma ContainsRemoveAt(ps: seq<Post>, i: nat, id: string)
    requires i < |ps| && ps[i].id != id
    ensures Contains(RemoveAt(ps, i), id) <==> Contains(ps, id)
  {
    var r := RemoveAt(ps, i);
    if Contains(ps, id) {
      var k :| 0 <= k < |ps| && ps[k].id == id;
      if k < i { assert r[k] == ps[k]; } else { assert r[k - 1] == ps[k]; }
    }
  }

  lemma MultisetRemoveAt<T>(s: seq<T>, i: nat)
    requires i < |s|
    ensures multiset(RemoveAt(s, i)) + multiset{s[i]} == multiset(s)
  {
    assert s == s[..i] + [s[i]] + s[i + 1..];
  }

  lemma IdsAppend(ps: seq<Post>, p: Post)
    ensures Ids(ps + [p]) == Ids(ps) + {p.id}
  {
    var qs := ps + [p];
    forall id | id in Ids(qs) ensures id in Ids(ps) + {p.id} {
      var k :| 0 <= k < |qs| && qs[k].id == id;
      if k < |ps| { assert ps[k].id == id; }
    }
    forall id | id in Ids(ps) ensures id in Ids(qs) {
      var k :| 0 <= k < |ps| && ps[k].id == id;
      assert qs[k].id == id;
    }
    assert qs[|ps|].id == p.id;
  }

  lemma IdsRemoveAt(ps: seq<Post>, k: nat)
    requires k < |ps| && UniqueIds(ps)
    ensures Ids(RemoveAt(ps, k)) == Ids(ps) - {ps[k].id}
    ensures UniqueIds(RemoveAt(ps, k))
  {
    var r := RemoveAt(ps, k);
    forall id | id in Ids(r) ensures id in Ids(ps) - {ps[k].id} {
      var j :| 0 <= j < |r| && r[j].id == id;
      if j < k { assert r[j] == ps[j]; } else { assert r[j] == ps[j + 1]; }
    }
    forall id | id in Ids(ps) - {ps[k].id} ensures id in Ids(r) {
      var j :| 0 <= j < |ps| && ps[j].id == id;
      if j < k { assert r[j] == ps[j]; } else { assert j != k && r[j - 1] == ps[j]; }
    }
    forall i, j | 0 <= i < |r| && 0 <= j < |r| && i != j ensures r[i].id != r[j].id {
      var i' := if i < k then i else i + 1;
      var j' := if j < k then j else j + 1;
      assert r[i] == ps[i'] && r[j] == ps[j'];
    }
  }

  lemma ContainsIds(ps: seq<Post>, id: string)
    ensures Contains(ps, id) <==> id in Ids(ps)
  {
  }

  lemma MultisetContains(a: seq<Post>, b: seq<Post>, id: string)
    requires multiset(a) <= multiset(b) && Contains(a, id)
    ensures Contains(b, id)
  {
    var k :| 0 <= k < |a| && a[k].id == id;
    assert a[k] in multiset(a);
    assert a[k] in multiset(b);
    var j :| 0 <= j < |b| && b[j] == a[k];
  }

  // ---------------------------------------------------------------------
  // Frames of publishPost and of a sweep

  /** What publishPost can change: an attempt for this post at most, its own timer, one pending entry, its in-flight mark. */
  lemma PublishStartFrame(s: State, p: Post, now: int)
    ensures var r := PublishStart(s, p, now);
      && r.running == s.running && r.retries == s.retries
      && multiset(r.pending) <= multiset(s.pending)
      && (forall id :: id in r.timers ==> id in s.timers && r.timers[id] == s.timers[id])
      && (forall id :: id != p.id && id in s.timers ==> id in r.timers)
      && (if Claims(s, p, now) then r.attempts == s.attempts + [p] else r.attempts == s.attempts)
      && (forall id :: id != p.id ==> (id in r.publishing <==> id in s.publishing))
      && (forall id :: id != p.id ==> (Contains(r.pending, id) <==> Contains(s.pending, id)))
      && (forall id :: id != p.id ==> (Blocked(r.recent, id, now) <==> Blocked(s.recent, id, now)))
  {
    if Claims(s, p, now) {
      var i := IndexOf(s.pending, p.id).value;
      MultisetRemoveAt(s.pending, i);
      forall id | id != p.id ensures Contains(RemoveAt(s.pending, i), id) <==> Contains(s.pending, id) {
        ContainsRemoveAt(s.pending, i, id);
      }
    }
  }

  /** A run of publishPost calls only removes pending entries and timers, and only appends attempts for posts of the run. */
  lemma {:induction false} ClaimAllFrame(s: State, ps: seq<Post>, now: int)
    ensures var r := ClaimAll(s, ps, now);
      && r.running == s.running && r.retries == s.retries
      && multiset(r.pending) <= multiset(s.pending)
      && (forall id :: id in r.timers ==> id in s.timers && r.timers[id] == s.timers[id])
      && (forall id :: id !in Ids(ps) && id in s.timers ==> id in r.timers)
      && |s.attempts| <= |r.attempts| && r.attempts[..|s.attempts|] == s.attempts
      && (forall k :: |s.attempts| <= k < |r.attempts| ==> r.attempts[k] in ps)
  {
    ClaimAllKeepsRest(s, ps, now);
    ClaimAllAttempts(s, ps, now);
  }

  /** The part of the frame of a run of claims that is not about the attempts. */
  lemma ClaimAllKeepsRest(s: State, ps: seq<Post>, now: int)
    ensures var r := ClaimAll(s, ps, now);
      && r.running == s.running && r.retries == s.retries
      && multiset(r.pending) <= multiset(s.pending)
      && (forall id :: id in r.timers ==> id in s.timers && r.timers[id] == s.timers[id])
      && (forall id :: id !in Ids(ps) && id in s.timers ==> id in r.timers)
  {
    ClaimAllShrinksPending(s, ps, now);
    ClaimAllTimers(s, ps, now);
  }

  /** A run of claims keeps the run flag and the retries, and only removes pending entries. */
  lemma {:induction false} ClaimAllShrinksPending(s: State, ps: seq<Post>, now: int)
    ensures var r := ClaimAll(s, ps, now);
      r.running == s.running && r.retries == s.retries && multiset(r.pending) <= multiset(s.pending)
  {
    if ps != [] {
      var init := ps[..|ps| - 1];
      ClaimAllShrinksPending(s, init, now);
      PublishStartFrame(ClaimAll(s, init, now), ps[|ps| - 1], now);
    }
  }

  /** A run of claims only deletes timers, and only those of its own posts. */
  lemma {:induction false} ClaimAllTimers(s: State, ps: seq<Post>, now: int)
    ensures var r := ClaimAll(s, ps, now);
      && (forall id :: id in r.timers ==> id in s.timers && r.timers[id] == s.timers[id])
      && (forall id :: id !in Ids(ps) && id in s.timers ==> id in r.timers)
  {
    if ps != [] {
      var init := ps[..|ps| - 1];
      var last := ps[|ps| - 1];
      ClaimAllTimers(s, init, now);
      var m := ClaimAll(s, init, now);
      var r := ClaimAll(s, ps, now);
      assert r == PublishStart(m, last, now);
      PublishStartFrame(m, last, now);
      assert ps == init + [last];
      IdsAppend(init, last);
    }
  }

  /** A run of claims only appends attempts, each for a post of the run. */
  lemma {:induction false} ClaimAllAttempts(s: State, ps: seq<Post>, now: int)
    ensures var r := ClaimAll(s, ps, now);
      && |s.attempts| <= |r.attempts| && r.attempts[..|s.attempts|] == s.attempts
      && (forall k :: |s.attempts| <= k < |r.attempts| ==> r.attempts[k] in ps)
  {
    if ps != [] {
      var init := ps[..|ps| - 1];
      var last := ps[|ps| - 1];
      ClaimAllAttempts(s, init, now);
      var m := ClaimAll(s, init, now);
      var r := ClaimAll(s, ps, now);
      assert r == PublishStart(m, last, now);
      assert r.attempts == m.attempts || r.attempts == m.attempts + [last];
      forall k | |s.attempts| <= k < |r.attempts| ensures r.attempts[k] in ps {
        if k < |m.attempts| {
          assert r.attempts[k] == m.attempts[k];
          assert m.attempts[k] in init;
        } else {
          assert r.attempts[k] == last;
        }
      }
      assert r.attempts[..|s.attempts|] == m.attempts[..|s.attempts|];
    }
  }


  // ---------------------------------------------------------------------
  // Triggers

  /** `start` on a running scheduler and `stop` on a stopped one change nothing. */
  lemma StartStopNoOps(s: State)
    ensures s.running ==> Start(s) == s
    ensures !s.running ==> Stop(s) == s
    ensures Start(s).running && !Stop(s).running
  {
  }

  /**
   * `stop` keeps the pending list (and the unsettled attempts and retries) and
   * the sweep does nothing afterwards; stopping a running scheduler clears
   * every timer, so no timer fires. (While stopped, `schedulePost` can still
   * arm timers.)
   */
  lemma StopSilencesTriggers(s: State, id: string, now: int)
    ensures var t := Stop(s);
      && t.pending == s.pending && t.attempts == s.attempts && t.retries == s.retries
      && Sweep(t, now) == t
      && (s.running ==> t.timers == map[] && t.publishing == {} && FireTimer(t, id, now) == t)
  {
  }

  /** A sweep does nothing when stopped or when nothing is pending. */
  lemma SweepNoOp(s: State, now: int)
    requires !s.running || s.pending == []
    ensures Sweep(s, now) == s
  {
  }

  /** Every attempt a sweep makes is for a pending post whose time has come. */
  lemma SweepOnlyDue(s: State, now: int)
    ensures var r := Sweep(s, now);
      && |s.attempts| <= |r.attempts| && r.attempts[..|s.attempts|] == s.attempts
      && forall k :: |s.attempts| <= k < |r.attempts| ==> Ready(r.attempts[k], now) && r.attempts[k] in s.pending
  {
    if s.running && s.pending != [] {
      ClaimAllFrame(s, Due(s.pending, now), now);
    }
  }

  lemma {:induction false} DueUnique(ps: seq<Post>, now: int)
    requires UniqueIds(ps)
    ensures UniqueIds(Due(ps, now))
  {
    if ps != [] {
      var init := ps[..|ps| - 1];
      var last := ps[|ps| - 1];
      assert UniqueIds(init) by {
        forall i, j | 0 <= i < |init| && 0 <= j < |init| && i != j ensures init[i].id != init[j].id {
          assert init[i] == ps[i] && init[j] == ps[j];
        }
      }
      DueUnique(init, now);
      var d := Due(init, now);
      forall k | 0 <= k < |d| ensures d[k].id != last.id {
        assert d[k] in init;
        var j :| 0 <= j < |init| && init[j] == d[k];
        assert ps[j] == d[k];
      }
    }
  }

  /** publishPost on posts that can all be claimed, with distinct ids, claims every one of them in turn. */
  lemma {:induction false} ClaimAllFresh(s: State, ps: seq<Post>, now: int)
    requires UniqueIds(ps)
    requires forall k :: 0 <= k < |ps| ==> Claims(s, ps[k], now)
    ensures var r := ClaimAll(s, ps, now);
      && r.attempts == s.attempts + ps
      && forall id :: id !in Ids(ps) ==>
           (id in r.publishing <==> id in s.publishing)
           && (Contains(r.pending, id) <==> Contains(s.pending, id))
           && (Blocked(r.recent, id, now) <==> Blocked(s.recent, id, now))
  {
    if ps != [] {
      var init := ps[..|ps| - 1];
      var last := ps[|ps| - 1];
      assert ps == init + [last];
      IdsAppend(init, last);
      assert UniqueIds(init) by {
        forall i, j | 0 <= i < |init| && 0 <= j < |init| && i != j ensures init[i].id != init[j].id {
          assert init[i] == ps[i] && init[j] == ps[j];
        }
      }
      ClaimAllFresh(s, init, now);
      var m := ClaimAll(s, init, now);
      assert last.id !in Ids(init) by {
        forall k | 0 <= k < |init| ensures init[k].id != last.id {
          assert init[k] == ps[k];
        }
      }
      assert Claims(m, last, now);
      PublishStartFrame(m, last, now);
    }
  }

  /**
   * A running sweep over pending posts with distinct ids, none of whose due
   * posts is in flight or dedup-blocked, attempts exactly the due posts, in
   * pending order.
   */
  lemma SweepClaimsEveryDuePost(s: State, now: int)
    requires s.running
    requires UniqueIds(s.pending)
    requires forall k :: 0 <= k < |s.pending| && Ready(s.pending[k], now) ==>
      s.pending[k].id !in s.publishing && !Blocked(s.recent, s.pending[k].id, now)
    ensures Sweep(s, now).attempts == s.attempts + Due(s.pending, now)
  {
    var d := Due(s.pending, now);
    if s.pending != [] {
      DueUnique(s.pending, now);
      forall k | 0 <= k < |d| ensures Claims(s, d[k], now) {
        assert d[k] in s.pending;
        var j :| 0 <= j < |s.pending| && s.pending[j] == d[k];
      }
      ClaimAllFresh(s, d, now);
    }
  }

  /** A timer fire makes an attempt only for a post that is still pending, and always removes its own entry. */
  lemma FireOnlyIfPending(s: State, id: string, now: int)
    requires TimersKeyed(s)
    ensures var r := FireTimer(s, id, now);
      && (|r.attempts| > |s.attempts| ==> Contains(s.pending, id))
      && id !in r.timers
      && (forall other :: other != id ==> (other in r.timers <==> other in s.timers))
  {
    if id in s.timers {
      PublishStartFrame(s, s.timers[id], now);
    }
  }

  // ---------------------------------------------------------------------
  // Arming timers (the scheduling loop of updateScheduledPosts)

  /** The timer map after `schedulePost` of each future post of `posts`, in order. */
  function ArmTimers(timers: map<string, Post>, posts: seq<Post>, now: int): map<string, Post> {
    if posts == [] then timers
    else
      var t1 := ArmTimers(timers, posts[..|posts| - 1], now);
      var p := posts[|posts| - 1];
      if Future(p, now) then t1[p.id := p] else t1
  }

  /** The scheduling loop only touches the timers: a future post is never overdue, so it never publishes at once. */
  lemma {:induction false} ArmAllOnlyTimers(s: State, posts: seq<Post>, now: int)
    ensures ArmAll(s, posts, now) == s.(timers := ArmTimers(s.timers, posts, now))
  {
    if posts != [] {
      var init := posts[..|posts| - 1];
      var p := posts[|posts| - 1];
      ArmAllOnlyTimers(s, init, now);
      if Future(p, now) {
        var t1 := ArmTimers(s.timers, init, now);
        assert (t1 - {p.id})[p.id := p] == t1[p.id := p];
      }
    }
  }

  /** A scheduling loop arms a timer for each future post and for nothing else, keeping the timers it does not replace. */
  lemma ArmTimersContents(timers: map<string, Post>, posts: seq<Post>, now: int)
    ensures var r := ArmTimers(timers, posts, now);
      && (forall id :: id in r ==> id in timers || Contains(posts, id))
      && (forall id :: id in timers ==> id in r)
      && (forall id :: id in r && !Contains(posts, id) ==> r[id] == timers[id])
      && (forall k :: 0 <= k < |posts| && Future(posts[k], now) ==> posts[k].id in r)
      && (UniqueIds(posts) ==> forall k :: 0 <= k < |posts| && Future(posts[k], now) ==> r[posts[k].id] == posts[k])
      && ((forall id :: id in timers ==> timers[id].id == id) ==> forall id :: id in r ==> r[id].id == id)
  {
    ArmTimersDomain(timers, posts, now);
    ArmTimersKeepsOthers(timers, posts, now);
    ArmTimersFuture(timers, posts, now);
    if UniqueIds(posts) {
      ArmTimersCaptures(timers, posts, now);
    }
    if forall id :: id in timers ==> timers[id].id == id {
      ArmTimersKeyed(timers, posts, now);
    }
  }

  /** The loop's timers are the old ones and those of the posts. */
  lemma {:induction false} ArmTimersDomain(timers: map<string, Post>, posts: seq<Post>, now: int)
    ensures var r := ArmTimers(timers, posts, now);
      && (forall id :: id in r ==> id in timers || Contains(posts, id))
      && (forall id :: id in timers ==> id in r)
  {
    if posts != [] {
      var init := posts[..|posts| - 1];
      var p := posts[|posts| - 1];
      ArmTimersDomain(timers, init, now);
      var r := ArmTimers(timers, posts, now);
      forall id | id in r ensures id in timers || Contains(posts, id) {
        if id != p.id && !(id in timers) {
          var k :| 0 <= k < |init| && init[k].id == id;
          assert posts[k] == init[k];
        }
      }
    }
  }

  /** A timer whose id is not among the posts is kept as it was. */
  lemma {:induction false} ArmTimersKeepsOthers(timers: map<string, Post>, posts: seq<Post>, now: int)
    ensures var r := ArmTimers(timers, posts, now);
      forall id :: id in r && !Contains(posts, id) ==> id in timers && r[id] == timers[id]
  {
    if posts != [] {
      var init := posts[..|posts| - 1];
      var p := posts[|posts| - 1];
      ArmTimersKeepsOthers(timers, init, now);
      var r := ArmTimers(timers, posts, now);
      forall id | id in r && !Contains(posts, id) ensures id in timers && r[id] == timers[id] {
        assert id != p.id;
        assert !Contains(init, id);
      }
    }
  }

  /** Every future post has a timer. */
  lemma {:induction false} ArmTimersFuture(timers: map<string, Post>, posts: seq<Post>, now: int)
    ensures var r := ArmTimers(timers, posts, now);
      forall k :: 0 <= k < |posts| && Future(posts[k], now) ==> posts[k].id in r
  {
    if posts != [] {
      var init := posts[..|posts| - 1];
      ArmTimersFuture(timers, init, now);
      var r := ArmTimers(timers, posts, now);
      forall k | 0 <= k < |posts| && Future(posts[k], now) ensures posts[k].id in r {
        if k < |init| { assert posts[k] == init[k]; }
      }
    }
  }

  /** With distinct ids, the timer of a future post captured that post. */
  lemma {:induction false} ArmTimersCaptures(timers: map<string, Post>, posts: seq<Post>, now: int)
    requires UniqueIds(posts)
    ensures var r := ArmTimers(timers, posts, now);
      forall k :: 0 <= k < |posts| && Future(posts[k], now) ==> posts[k].id in r && r[posts[k].id] == posts[k]
  {
    if posts != [] {
      var init := posts[..|posts| - 1];
      var p := posts[|posts| - 1];
      assert UniqueIds(init) by {
        forall i, j | 0 <= i < |init| && 0 <= j < |init| && i != j ensures init[i].id != init[j].id {
          assert init[i] == posts[i] && init[j] == posts[j];
        }
      }
      ArmTimersCaptures(timers, init, now);
      var r := ArmTimers(timers, posts, now);
      forall k | 0 <= k < |posts| && Future(posts[k], now) ensures posts[k].id in r && r[posts[k].id] == posts[k] {
        if k < |init| {
          assert posts[k] == init[k];
          assert posts[k].id != p.id;
        }
      }
    }
  }

  /** Keyed timers stay keyed. */
  lemma {:induction false} ArmTimersKeyed(timers: map<string, Post>, posts: seq<Post>, now: int)
    requires forall id :: id in timers ==> timers[id].id == id
    ensures forall id :: id in ArmTimers(timers, posts, now) ==> ArmTimers(timers, posts, now)[id].id == id
  {
    if posts != [] {
      var init := posts[..|posts| - 1];
      var p := posts[|posts| - 1];
      ArmTimersKeyed(timers, init, now);
      var t1 := ArmTimers(timers, init, now);
      var r := ArmTimers(timers, posts, now);
      assert r == if Future(p, now) then t1[p.id := p] else t1;
      forall id | id in r ensures r[id].id == id {
        if id != p.id || !Future(p, now) {
          assert id in t1 && r[id] == t1[id];
        }
      }
    }
  }

  // ---------------------------------------------------------------------
  // updateScheduledPosts

  /** The sweep at the end of a reconcile over `posts`, from the state the scheduling loop left. */
  lemma ReconcileShape(s: State, posts: seq<Post>, now: int)
    ensures var a := s.(pending := posts, timers := ArmTimers(KeepTimers(s.timers, posts), posts, now));
      Reconcile(s, posts, now) == Sweep(a, now)
  {
    ArmAllOnlyTimers(s.(pending := posts, timers := KeepTimers(s.timers, posts)), posts, now);
  }

  /** After a reconcile no timer is left for an id that is not among the new posts. */
  lemma ReconcilePrunesTimers(s: State, posts: seq<Post>, now: int)
    ensures forall id :: id in Reconcile(s, posts, now).timers ==> Contains(posts, id)
  {
    ReconcileShape(s, posts, now);
    var a := s.(pending := posts, timers := ArmTimers(KeepTimers(s.timers, posts), posts, now));
    ArmTimersContents(KeepTimers(s.timers, posts), posts, now);
    if a.running && a.pending != [] {
      ClaimAllFrame(a, Due(posts, now), now);
    }
  }

  /** With distinct ids, after a reconcile every future post has a timer, and that timer captured the new post object. */
  lemma ReconcileArmsFuture(s: State, posts: seq<Post>, now: int)
    requires UniqueIds(posts)
    ensures forall k :: 0 <= k < |posts| && Future(posts[k], now) ==>
      posts[k].id in Reconcile(s, posts, now).timers && Reconcile(s, posts, now).timers[posts[k].id] == posts[k]
  {
    ReconcileShape(s, posts, now);
    var t := ArmTimers(KeepTimers(s.timers, posts), posts, now);
    var a := s.(pending := posts, timers := t);
    ArmTimersContents(KeepTimers(s.timers, posts), posts, now);
    if a.running && a.pending != [] {
      var d := Due(posts, now);
      ClaimAllFrame(a, d, now);
    }
  }

  /** Reconciling with no posts empties the pending list and cancels every timer, and publishes nothing. */
  lemma ReconcileEmptyClears(s: State, now: int)
    ensures var r := Reconcile(s, [], now);
      r.pending == [] && r.timers == map[] && r.attempts == s.attempts && r.publishing == s.publishing
  {
    ReconcileShape(s, [], now);
  }

  /** A reconcile publishes only new posts whose time has come, and keeps the earlier attempts. */
  lemma ReconcileOnlyPublishesDue(s: State, posts: seq<Post>, now: int)
    ensures var r := Reconcile(s, posts, now);
      && |s.attempts| <= |r.attempts| && r.attempts[..|s.attempts|] == s.attempts
      && forall k :: |s.attempts| <= k < |r.attempts| ==> Ready(r.attempts[k], now) && r.attempts[k] in posts
  {
    ReconcileShape(s, posts, now);
    SweepOnlyDue(s.(pending := posts, timers := ArmTimers(KeepTimers(s.timers, posts), posts, now)), now);
  }

  /** A reconcile without overdue posts publishes nothing and leaves the new list pending as given. */
  lemma ReconcileWithoutDue(s: State, posts: seq<Post>, now: int)
    requires Due(posts, now) == []
    ensures Reconcile(s, posts, now).pending == posts && Reconcile(s, posts, now).attempts == s.attempts
  {
    ReconcileShape(s, posts, now);
  }

  /**
   * A running reconcile over posts with distinct ids, none of whose overdue
   * ones is in flight or dedup-blocked, publishes exactly the overdue posts,
   * in list order.
   */
  lemma ReconcileClaimsDue(s: State, posts: seq<Post>, now: int)
    requires s.running && UniqueIds(posts)
    requires forall k :: 0 <= k < |posts| && Ready(posts[k], now) ==>
      posts[k].id !in s.publishing && !Blocked(s.recent, posts[k].id, now)
    ensures Reconcile(s, posts, now).attempts == s.attempts + Due(posts, now)
  {
    ReconcileShape(s, posts, now);
    var a := s.(pending := posts, timers := ArmTimers(KeepTimers(s.timers, posts), posts, now));
    if posts == [] {
      assert Due(posts, now) == [];
    } else {
      SweepClaimsEveryDuePost(a, now);
    }
  }

  /**
   * A post dropped from the list has no timer after the reconcile, and no
   * later publishPost for its id gets past the guards until it is listed again.
   */
  lemma DroppedPostNeverClaimed(s: State, posts: seq<Post>, now: int, p: Post, later: int)
    requires !Contains(posts, p.id)
    ensures p.id !in Reconcile(s, posts, now).timers
    ensures FireTimer(Reconcile(s, posts, now), p.id, later) == Reconcile(s, posts, now)
    ensures !Claims(Reconcile(s, posts, now), p, later)
  {
    ReconcilePrunesTimers(s, posts, now);
    ReconcileShape(s, posts, now);
    var a := s.(pending := posts, timers := ArmTimers(KeepTimers(s.timers, posts), posts, now));
    var r := Reconcile(s, posts, now);
    if a.running && a.pending != [] {
      ClaimAllFrame(a, Due(posts, now), now);
    }
    if Contains(r.pending, p.id) {
      MultisetContains(r.pending, posts, p.id);
    }
  }

  // ---------------------------------------------------------------------
  // Reconciling twice (the effect runs again with the same list)

  /** The id is dedup-blocked or in flight: no publishPost for it gets past the guards. */
  ghost predicate Held(s: State, id: string, now: int) {
    Blocked(s.recent, id, now) || id in s.publishing
  }

  /** The id is still pending or already held. */
  ghost predicate Covered(s: State, id: string, now: int) {
    Contains(s.pending, id) || Held(s, id, now)
  }

  lemma PublishStartHolds(s: State, p: Post, now: int)
    ensures var r := PublishStart(s, p, now);
      && (forall x :: Held(s, x, now) ==> Held(r, x, now))
      && (forall x :: Covered(s, x, now) ==> Covered(r, x, now))
      && (now != 0 && Covered(s, p.id, now) ==> Held(r, p.id, now))
      && (Held(s, p.id, now) ==> r.attempts == s.attempts)
  {
    PublishStartFrame(s, p, now);
  }

  /** After publishPost on each post of a run, every run id that was pending or held is held. */
  lemma {:induction false} ClaimAllHolds(s: State, ps: seq<Post>, now: int)
    requires now != 0
    ensures var r := ClaimAll(s, ps, now);
      && (forall x :: Held(s, x, now) ==> Held(r, x, now))
      && (forall x :: Covered(s, x, now) ==> Covered(r, x, now))
      && (forall k :: 0 <= k < |ps| && Covered(s, ps[k].id, now) ==> Held(r, ps[k].id, now))
  {
    if ps != [] {
      var init := ps[..|ps| - 1];
      var last := ps[|ps| - 1];
      ClaimAllHolds(s, init, now);
      var m := ClaimAll(s, init, now);
      PublishStartHolds(m, last, now);
      forall k | 0 <= k < |ps| - 1 && Covered(s, ps[k].id, now) ensures Held(ClaimAll(s, ps, now), ps[k].id, now) {
        assert ps[k] == init[k];
      }
    }
  }

  /** publishPost on posts whose ids are all held makes no attempt. */
  lemma {:induction false} ClaimAllHeldNoAttempt(s: State, ps: seq<Post>, now: int)
    requires forall k :: 0 <= k < |ps| ==> Held(s, ps[k].id, now)
    ensures var r := ClaimAll(s, ps, now);
      r.attempts == s.attempts && forall x :: Held(s, x, now) ==> Held(r, x, now)
  {
    if ps != [] {
      var init := ps[..|ps| - 1];
      var last := ps[|ps| - 1];
      forall k | 0 <= k < |init| ensures Held(s, init[k].id, now) {
        assert init[k] == ps[k];
      }
      ClaimAllHeldNoAttempt(s, init, now);
      PublishStartHolds(ClaimAll(s, init, now), last, now);
    }
  }

  /**
   * Reconciling a second time with the same list at the same instant makes no
   * new publish call: each overdue post was claimed (or held off) by the
   * first sweep, and is in flight or dedup-blocked now. `now != 0` is no
   * guard of the source: the proof goes through ClaimAllHolds and
   * PublishStartHolds, which show a claimed id dedup-blocked, and the
   * duplicate check reads a stored 0 as falsy, so this lemma leaves the
   * instant 0 out.
   */
  lemma ReconcileTwiceNoNewAttempts(s: State, posts: seq<Post>, now: int)
    requires now != 0
    ensures Reconcile(Reconcile(s, posts, now), posts, now).attempts == Reconcile(s, posts, now).attempts
  {
    var r1 := Reconcile(s, posts, now);
    ReconcileShape(s, posts, now);
    ReconcileShape(r1, posts, now);
    var a1 := s.(pending := posts, timers := ArmTimers(KeepTimers(s.timers, posts), posts, now));
    var a2 := r1.(pending := posts, timers := ArmTimers(KeepTimers(r1.timers, posts), posts, now));
    var d := Due(posts, now);
    if s.running && posts != [] {
      ClaimAllHolds(a1, d, now);
      forall k | 0 <= k < |d| ensures Held(a2, d[k].id, now) {
        assert d[k] in posts;
        var i :| 0 <= i < |posts| && posts[i] == d[k];
        assert Covered(a1, d[k].id, now);
      }
      ClaimAllHeldNoAttempt(a2, d, now);
      ClaimAllFrame(a1, d, now);
    }
  }

  // ---------------------------------------------------------------------
  // The as-written reconcile

  /** When every date is valid, the reconcile as written is the reconcile with its logging taken out. */
  lemma ReconcileAsWrittenAgrees(s: State, posts: seq<Post>, now: int)
    requires !AnyInvalid(posts)
    ensures ReconcileAsWritten(s, posts, now) == (Reconcile(s, posts, now), false)
  {
  }

  /**
   * One post with an Invalid Date in the new list: the reconcile as written
   * throws and keeps the timer of a dropped post, which the intended
   * reconcile cancels.
   */
  lemma ReconcileAsWrittenKeepsStaleTimer()
    ensures var ev := Event("", "", 0, 30402, [], "");
      var dropped := Post("a", At(2000000), "", N(1), None, ev, None);
      var bad := Post("b", Invalid, "", N(1), None, ev, None);
      var s := Initial(map[]).(running := true, pending := [dropped], timers := map["a" := dropped]);
      && ReconcileAsWritten(s, [bad], 1000).1
      && "a" in ReconcileAsWritten(s, [bad], 1000).0.timers
      && "a" !in Reconcile(s, [bad], 1000).timers
  {
    var ev := Event("", "", 0, 30402, [], "");
    var dropped := Post("a", At(2000000), "", N(1), None, ev, None);
    var bad := Post("b", Invalid, "", N(1), None, ev, None);
    var s := Initial(map[]).(running := true, pending := [dropped], timers := map["a" := dropped]);
    assert [bad][0].publishAt.Invalid?;
    ReconcilePrunesTimers(s, [bad], 1000);
    assert !Contains([bad], "a");
  }

  // ---------------------------------------------------------------------
  // The in-flight invariant

  lemma PublishStartKeepsExclusive(s: State, p: Post, now: int)
    requires Exclusive(s)
    ensures Exclusive(PublishStart(s, p, now))
  {
    if Claims(s, p, now) {
      IdsAppend(s.attempts, p);
      var q := s.attempts + [p];
      forall i, j | 0 <= i < |q| && 0 <= j < |q| && i != j ensures q[i].id != q[j].id {
        if i == |s.attempts| { assert q[j] == s.attempts[j]; }
        else if j == |s.attempts| { assert q[i] == s.attempts[i]; }
        else { assert q[i] == s.attempts[i] && q[j] == s.attempts[j]; }
      }
    }
  }

  lemma {:induction false} ClaimAllKeepsExclusive(s: State, ps: seq<Post>, now: int)
    requires Exclusive(s)
    ensures Exclusive(ClaimAll(s, ps, now))
  {
    if ps != [] {
      ClaimAllKeepsExclusive(s, ps[..|ps| - 1], now);
      PublishStartKeepsExclusive(ClaimAll(s, ps[..|ps| - 1], now), ps[|ps| - 1], now);
    }
  }

  lemma ReconcileKeepsExclusive(s: State, posts: seq<Post>, now: int)
    requires Exclusive(s)
    ensures Exclusive(ReconcileAsWritten(s, posts, now).0)
  {
    ReconcileShape(s, posts, now);
    var a := s.(pending := posts, timers := ArmTimers(KeepTimers(s.timers, posts), posts, now));
    if a.running && a.pending != [] {
      ClaimAllKeepsExclusive(a, Due(posts, now), now);
    }
  }

  /**
   * Every event except stopping a scheduler with unsettled publish calls keeps
   * the in-flight set equal to the ids of the unsettled calls, with no id
   * published twice at once.
   */
  lemma StepKeepsExclusive(s: State, step: Step, now: int)
    requires Exclusive(s)
    requires !(step.StopStep? && s.running && s.attempts != [])
    ensures Exclusive(Next(s, step, now))
  {
    match step
    case StartStep =>
    case StopStep =>
    case ScheduleStep(p) =>
      PublishStartKeepsExclusive(Unschedule(s, p.id), p, now);
    case UnscheduleStep(id) =>
    case TimerStep(id) =>
      if id in s.timers {
        PublishStartKeepsExclusive(s, s.timers[id], now);
      }
    case RetryStep(k) =>
      if k < |s.retries| {
        PublishStartKeepsExclusive(s.(retries := RemoveAt(s.retries, k)), s.retries[k], now);
      }
    case CompleteStep(k, outcome, a, b) =>
      if k < |s.attempts| {
        IdsRemoveAt(s.attempts, k);
      }
    case SweepStep =>
      if s.running && s.pending != [] {
        ClaimAllKeepsExclusive(s, Due(s.pending, now), now);
      }
    case UpdateStep(posts) =>
      ReconcileKeepsExclusive(s, posts, now);
  }

  /** `stop` while publish calls are unsettled empties the in-flight set, so the invariant no longer holds. */
  lemma StopForgetsInFlight(s: State)
    requires s.running && s.attempts != []
    ensures !Exclusive(Stop(s))
  {
    assert s.attempts[0].id in Ids(s.attempts);
  }

  /** A state whose timers are a sub-map of a keyed state's timers is keyed. */
  lemma KeyedBySubMap(s: State, r: State)
    requires TimersKeyed(s)
    requires forall id :: id in r.timers ==> id in s.timers && r.timers[id] == s.timers[id]
    ensures TimersKeyed(r)
  {
  }

  lemma ScheduleKeepsTimersKeyed(s: State, p: Post, now: int)
    requires TimersKeyed(s)
    ensures TimersKeyed(Schedule(s, p, now))
  {
    var s1 := Unschedule(s, p.id);
    if p.publishAt.At? && p.publishAt.ms - now <= 0 {
      PublishStartFrame(s1, p, now);
      KeyedBySubMap(s1, PublishStart(s1, p, now));
    }
  }

  lemma FireTimerKeepsTimersKeyed(s: State, id: string, now: int)
    requires TimersKeyed(s)
    ensures TimersKeyed(FireTimer(s, id, now))
  {
    if id in s.timers && Contains(s.pending, s.timers[id].id) {
      PublishStartFrame(s, s.timers[id], now);
      KeyedBySubMap(s, PublishStart(s, s.timers[id], now));
    }
  }

  lemma FireRetryKeepsTimersKeyed(s: State, k: nat, now: int)
    requires TimersKeyed(s) && k < |s.retries|
    ensures TimersKeyed(FireRetry(s, k, now))
  {
    var s1 := s.(retries := RemoveAt(s.retries, k));
    PublishStartFrame(s1, s.retries[k], now);
    KeyedBySubMap(s1, PublishStart(s1, s.retries[k], now));
  }

  lemma SweepKeepsTimersKeyed(s: State, now: int)
    requires TimersKeyed(s)
    ensures TimersKeyed(Sweep(s, now))
  {
    if s.running && s.pending != [] {
      ClaimAllFrame(s, Due(s.pending, now), now);
      KeyedBySubMap(s, ClaimAll(s, Due(s.pending, now), now));
    }
  }

  lemma UpdateKeepsTimersKeyed(s: State, posts: seq<Post>, now: int)
    requires TimersKeyed(s)
    ensures TimersKeyed(ReconcileAsWritten(s, posts, now).0)
  {
    if !AnyInvalid(posts) {
      ReconcileShape(s, posts, now);
      var kept := KeepTimers(s.timers, posts);
      var a := s.(pending := posts, timers := ArmTimers(kept, posts, now));
      ArmTimersContents(kept, posts, now);
      assert TimersKeyed(a);
      SweepKeepsTimersKeyed(a, now);
    }
  }

  /** Every event keeps each timer entry keyed by the id of the post it captured. */
  lemma StepKeepsTimersKeyed(s: State, step: Step, now: int)
    requires TimersKeyed(s)
    ensures TimersKeyed(Next(s, step, now))
  {
    match step
    case StartStep =>
    case StopStep =>
    case ScheduleStep(p) => ScheduleKeepsTimersKeyed(s, p, now);
    case UnscheduleStep(id) =>
    case TimerStep(id) => FireTimerKeepsTimersKeyed(s, id, now);
    case RetryStep(k) =>
      if k < |s.retries| {
        FireRetryKeepsTimersKeyed(s, k, now);
      }
    case CompleteStep(k, outcome, a, b) =>
    case SweepStep => SweepKeepsTimersKeyed(s, now);
    case UpdateStep(posts) => UpdateKeepsTimersKeyed(s, posts, now);
  }
}
