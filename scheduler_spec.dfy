/**
 * The post scheduler of `src/lib/postScheduler.ts` as a state machine on
 * values. Everything its methods do on the single JavaScript event loop is
 * a function from the old state (and the clock reading `now`) to the new one:
 *
 *  - `pending`    the `scheduledPosts` array;
 *  - `timers`     the `timers` Map; each entry is the post its timer callback captured;
 *  - `publishing` the `publishingPosts` Set;
 *  - `running`    the `isRunning` flag;
 *  - `attempts`   publish calls that have been made and not yet settled, oldest first;
 *  - `retries`    retry timers that have been armed and have not fired;
 *  - `recent`     the module-wide `recentlyPublished` Map (post id to time stamp).
 *
 * `publishPost` is split at its first `await`: `PublishStart` is the
 * synchronous part (the three guards, the claim and the publish call), and
 * `Complete` is what happens when that call and the status reports settle.
 */
module SchedulerSpec {
  import opened Builtins
  import opened Nostr
  import opened Lists

  /** DUPLICATE_PREVENTION_WINDOW, in milliseconds. */
  const Window: int := 5000

  /** A post handed to the scheduler (`ScheduledPostEvent`). */
  datatype Post = Post(
    id: string,
    publishAt: Date,
    content: string,
    targetKind: Num,
    images: Option<seq<Value>>,
    event: Event,
    title: Option<string>)

  /** The partial event handed to the publish action. */
  datatype Draft = Draft(kind: Num, content: string, tags: Option<seq<Tag>>)

  /** What a rejected promise carries: an `Error` with its message, or any other value. */
  datatype Thrown = ErrorValue(message: string) | OtherValue

  /** How the publish call settled. */
  datatype PublishOutcome = Published(eventId: string) | PublishFailed(reason: Thrown)

  /** The argument of one status-report call. */
  datatype Report = Report(
    id: string,
    status: string,
    publishedEventId: Option<string>,
    error: Option<string>,
    publishAt: Date,
    targetKind: Num,
    createdAt: Date,
    title: Option<string>)

  datatype State = State(
    pending: seq<Post>,
    timers: map<string, Post>,
    publishing: set<string>,
    running: bool,
    attempts: seq<Post>,
    retries: seq<Post>,
    recent: map<string, int>)

  /** A freshly constructed scheduler over the shared dedup map. */
  function Initial(recent: map<string, int>): (s: State)
    ensures !s.running && s.pending == [] && s.timers == map[] && s.publishing == {}
  {
    State([], map[], {}, false, [], [], recent)
  }

  // ---------------------------------------------------------------------
  // Posts in lists

  /** `ps.some(p => p.id === id)`. */
  predicate Contains(ps: seq<Post>, id: string) {
    exists k :: 0 <= k < |ps| && ps[k].id == id
  }

  /** `ps.findIndex(p => p.id === id)`, with -1 as None. */
  function IndexOf(ps: seq<Post>, id: string): (r: Option<nat>)
    ensures r.Some? ==> r.value < |ps| && ps[r.value].id == id
    ensures r.Some? ==> forall k :: 0 <= k < r.value ==> ps[k].id != id
    ensures r.None? <==> !Contains(ps, id)
  {
    if ps == [] then None
    else if ps[0].id == id then Some(0)
    else match IndexOf(ps[1..], id)
      case None => None
      case Some(k) => Some(k + 1)
  }

  /** The ids of a list of posts. */
  function Ids(ps: seq<Post>): set<string> {
    set k | 0 <= k < |ps| :: ps[k].id
  }

  /** No two positions of `ps` hold the same id. */
  ghost predicate UniqueIds(ps: seq<Post>) {
    forall i, j :: 0 <= i < |ps| && 0 <= j < |ps| && i != j ==> ps[i].id != ps[j].id
  }

  // ---------------------------------------------------------------------
  // The dedup map (isRecentlyPublished, markAsPublished)

  /** `isRecentlyPublished(id)`: an entry that is truthy (non-zero) and younger than the window blocks. */
  predicate Blocked(recent: map<string, int>, id: string, now: int) {
    id in recent && recent[id] != 0 && now - recent[id] < Window
  }

  /** The dedup map after `isRecentlyPublished(id)`: a non-zero entry more than twice the window old is deleted. */
  function AfterCheck(recent: map<string, int>, id: string, now: int): (r: map<string, int>)
    ensures forall k :: k != id ==> (k in r <==> k in recent)
    ensures forall k :: k != id && k in r ==> r[k] == recent[k]
    ensures id in r ==> id in recent && r[id] == recent[id]
  {
    if id in recent && recent[id] != 0 && now - recent[id] > 2 * Window then recent - {id} else recent
  }

  // ---------------------------------------------------------------------
  // publishPost

  /** The three guards of `publishPost` pass: not dedup-blocked, not in flight, still pending. */
  predicate Claims(s: State, p: Post, now: int) {
    !Blocked(s.recent, p.id, now) && p.id !in s.publishing && Contains(s.pending, p.id)
  }

  /**
   * The synchronous part of `publishPost(p)`: the dedup check (which may
   * delete a stale entry), then, if all three guards pass, the claim: mark
   * the id in the dedup map, add it to the in-flight set, splice its first
   * occurrence out of the pending list, delete its timer, and make the publish
   * call.
   */
  function PublishStart(s: State, p: Post, now: int): State {
    var recent := AfterCheck(s.recent, p.id, now);
    if Blocked(s.recent, p.id, now) || p.id in s.publishing then s.(recent := recent)
    else match IndexOf(s.pending, p.id)
      case None => s.(recent := recent)
      case Some(i) =>
        s.(recent := recent[p.id := now],
           publishing := s.publishing + {p.id},
           pending := RemoveAt(s.pending, i),
           timers := s.timers - {p.id},
           attempts := s.attempts + [p])
  }

  /** `images.join('\n')` writes an undefined element as the empty string. */
  function JoinedText(v: Value): string {
    if v.Some? then v.value else ""
  }

  /** A template literal writes an undefined value as `undefined`. */
  function TemplateText(v: Value): string {
    if v.Some? then v.value else "undefined"
  }

  /** One NIP-92 `imeta` tag per image, in order. */
  function ImetaTags(images: seq<Value>): (r: seq<Tag>)
    ensures |r| == |images|
  {
    seq(|images|, i requires 0 <= i < |images| => ["imeta", "url " + TemplateText(images[i])])
  }

  /** The event `publishPost` asks the publish action to sign and send. */
  function Payload(p: Post): Draft {
    if p.images.Some? && |p.images.value| > 0 then
      var images := p.images.value;
      Draft(p.targetKind,
            p.content + "\n\n" + Join(seq(|images|, i requires 0 <= i < |images| => JoinedText(images[i])), "\n"),
            Some(ImetaTags(images)))
    else
      Draft(p.targetKind, p.content, None)
  }

  /** `error instanceof Error ? error.message : 'Unknown error'`. */
  function ReasonText(e: Thrown): string {
    match e
    case ErrorValue(m) => m
    case OtherValue => "Unknown error"
  }

  function SuccessReport(p: Post, eventId: string, now: int): Report {
    Report(p.id, "published", Some(eventId), None, p.publishAt, p.targetKind, At(now), p.title)
  }

  function FailureReport(p: Post, e: Thrown, now: int): Report {
    Report(p.id, "failed", None, Some(ReasonText(e)), p.publishAt, p.targetKind, At(now), p.title)
  }

  datatype Completion = Completion(state: State, reports: seq<Report>)

  /**
   * The rest of `publishPost` for the attempt at position k, once its
   * publish call settled (`outcome`), and, as far as they are reached, the
   * success report (`successReport`: None when it resolved, else what it
   * threw) and the failure report (`failureReport`, likewise). An error of
   * the publish call or of the success report is caught: the failure is
   * reported, and a retry timer is armed when that report resolves. In every
   * case the `finally` clause takes the id out of the in-flight set.
   */
  function Complete(s: State, k: nat, outcome: PublishOutcome, successReport: Option<Thrown>,
                    failureReport: Option<Thrown>, now: int): Completion
    requires k < |s.attempts|
  {
    var p := s.attempts[k];
    var settled := s.(attempts := RemoveAt(s.attempts, k), publishing := s.publishing - {p.id});
    var caught := match outcome
      case Published(_) => successReport
      case PublishFailed(e) => Some(e);
    var reported := match outcome
      case Published(eventId) => [SuccessReport(p, eventId, now)]
      case PublishFailed(_) => [];
    match caught
    case None => Completion(settled, reported)
    case Some(e) =>
      Completion(if failureReport.None? then settled.(retries := settled.retries + [p]) else settled,
                 reported + [FailureReport(p, e, now)])
  }

  // ---------------------------------------------------------------------
  // Lifecycle and triggers

  /** `start()`: a no-op when running; otherwise sets the flag (and the periodic sweep). */
  function Start(s: State): State {
    if s.running then s else s.(running := true)
  }

  /** `stop()`: a no-op when stopped; otherwise clears the flag, every timer and the in-flight set. */
  function Stop(s: State): State {
    if !s.running then s else s.(running := false, timers := map[], publishing := {})
  }

  /** `unschedulePost(id)`. */
  function Unschedule(s: State, id: string): State {
    s.(timers := s.timers - {id})
  }

  /**
   * `schedulePost(p)`: unschedule, then publish at once when the delay is
   * `<= 0`, else arm a timer that captures `p`. An Invalid Date gives a NaN
   * delay, which is not `<= 0`, so its timer is armed.
   */
  function Schedule(s: State, p: Post, now: int): State {
    var s1 := Unschedule(s, p.id);
    if p.publishAt.At? && p.publishAt.ms - now <= 0 then PublishStart(s1, p, now)
    else s1.(timers := s1.timers[p.id := p])
  }

  /** `schedulePost` throws after arming when it logs `toISOString()` of an Invalid Date. */
  predicate ScheduleThrows(p: Post) {
    p.publishAt.Invalid?
  }

  /**
   * The callback of the timer armed for `id` fires: publish the captured post
   * if its id is still pending, then delete the timer entry. A timer that was
   * cleared never fires, so an id without an entry changes nothing.
   */
  function FireTimer(s: State, id: string, now: int): State {
    if id !in s.timers then s
    else
      var p := s.timers[id];
      var s1 := if Contains(s.pending, p.id) then PublishStart(s, p, now) else s;
      s1.(timers := s1.timers - {p.id})
  }

  /** The retry timer at position k fires: publish again unless the id is in flight. */
  function FireRetry(s: State, k: nat, now: int): State
    requires k < |s.retries|
  {
    var p := s.retries[k];
    var s1 := s.(retries := RemoveAt(s.retries, k));
    if p.id in s1.publishing then s1 else PublishStart(s1, p, now)
  }

  /** `publishTime <= now`; false for an Invalid Date (NaN). */
  predicate Ready(p: Post, now: int) {
    p.publishAt.At? && p.publishAt.ms <= now
  }

  /** The posts the sweep selects, in pending order. */
  function Due(ps: seq<Post>, now: int): (r: seq<Post>)
    ensures |r| <= |ps|
    ensures forall k :: 0 <= k < |r| ==> Ready(r[k], now) && r[k] in ps
  {
    if ps == [] then []
    else Due(ps[..|ps| - 1], now) + (if Ready(ps[|ps| - 1], now) then [ps[|ps| - 1]] else [])
  }

  /** `publishPost` on each post of `ps` in turn. */
  function ClaimAll(s: State, ps: seq<Post>, now: int): State {
    if ps == [] then s else PublishStart(ClaimAll(s, ps[..|ps| - 1], now), ps[|ps| - 1], now)
  }

  /** `checkForPostsToPublish()`: nothing when stopped or when nothing is pending. */
  function Sweep(s: State, now: int): State {
    if !s.running || s.pending == [] then s else ClaimAll(s, Due(s.pending, now), now)
  }

  /** The timers whose ids are among the given posts. */
  function KeepTimers(timers: map<string, Post>, posts: seq<Post>): (r: map<string, Post>)
    ensures forall id :: id in r <==> id in timers && Contains(posts, id)
    ensures forall id :: id in r ==> r[id] == timers[id]
  {
    map id | id in timers && Contains(posts, id) :: timers[id]
  }

  /** `publishTime > now`; false for an Invalid Date. */
  predicate Future(p: Post, now: int) {
    p.publishAt.At? && p.publishAt.ms > now
  }

  /** `schedulePost` for each future post of `posts`, in order. */
  function ArmAll(s: State, posts: seq<Post>, now: int): State {
    if posts == [] then s
    else
      var s1 := ArmAll(s, posts[..|posts| - 1], now);
      var p := posts[|posts| - 1];
      if Future(p, now) then Schedule(s1, p, now) else s1
  }

  /**
   * `updateScheduledPosts(posts)` with its logging taken out: replace the
   * pending list, delete the timers of ids no longer present, (re)arm a timer
   * for every future post, then sweep for overdue ones.
   */
  function Reconcile(s: State, posts: seq<Post>, now: int): State {
    var s1 := s.(pending := posts, timers := KeepTimers(s.timers, posts));
    Sweep(ArmAll(s1, posts, now), now)
  }

  predicate AnyInvalid(posts: seq<Post>) {
    exists k :: 0 <= k < |posts| && posts[k].publishAt.Invalid?
  }

  /**
   * `updateScheduledPosts(posts)` as written: right after replacing the
   * pending list it logs every post's `publishAt.toISOString()`, which throws
   * a RangeError for an Invalid Date; the timers are then neither pruned
   * nor armed and no sweep runs. The boolean says whether it threw.
   */
  function ReconcileAsWritten(s: State, posts: seq<Post>, now: int): (State, bool) {
    if AnyInvalid(posts) then (s.(pending := posts), true) else (Reconcile(s, posts, now), false)
  }

  /** One line of `getDebugInfo().scheduledPosts` (the ISO date string is left out). */
  datatype DebugPost = DebugPost(id: string, timeUntilPublish: int, content: string)

  datatype DebugInfo = DebugInfo(
    isRunning: bool,
    scheduledPostsCount: nat,
    activeTimersCount: nat,
    publishingPostsCount: nat,
    publishingPostIds: set<string>,
    scheduledPosts: seq<DebugPost>)

  /** `getDebugInfo()`; None when it throws on a pending post's Invalid Date. */
  function GetDebugInfo(s: State, now: int): (r: Option<DebugInfo>)
    ensures r.Some? <==> !AnyInvalid(s.pending)
    ensures r.Some? ==> r.value.scheduledPostsCount == |s.pending| == |r.value.scheduledPosts|
    ensures r.Some? ==> r.value.activeTimersCount == |s.timers| && r.value.publishingPostsCount == |s.publishing|
    ensures r.Some? ==> r.value.publishingPostIds == s.publishing && r.value.isRunning == s.running
    ensures r.Some? ==> forall k :: 0 <= k < |s.pending| ==>
      r.value.scheduledPosts[k].id == s.pending[k].id
      && r.value.scheduledPosts[k].timeUntilPublish == s.pending[k].publishAt.ms - now
      && |r.value.scheduledPosts[k].content| == (if |s.pending[k].content| <= 50 then |s.pending[k].content| else 50) + 3
      && StartsWith(s.pending[k].content, r.value.scheduledPosts[k].content[..|r.value.scheduledPosts[k].content| - 3])
      && r.value.scheduledPosts[k].content[|r.value.scheduledPosts[k].content| - 3..] == "..."
  {
    if AnyInvalid(s.pending) then None
    else
      Some(DebugInfo(s.running, |s.pending|, |s.timers|, |s.publishing|, s.publishing,
        seq(|s.pending|, k requires 0 <= k < |s.pending| =>
          DebugPost(s.pending[k].id, s.pending[k].publishAt.ms - now, Prefix(s.pending[k].content, 50) + "..."))))
  }

  // ---------------------------------------------------------------------
  // Every event the scheduler reacts to

  datatype Step =
    | StartStep
    | StopStep
    | ScheduleStep(post: Post)
    | UnscheduleStep(id: string)
    | TimerStep(id: string)
    | RetryStep(retry: nat)
    | CompleteStep(attempt: nat, outcome: PublishOutcome, successReport: Option<Thrown>, failureReport: Option<Thrown>)
    | SweepStep
    | UpdateStep(posts: seq<Post>)

  /** The state after one event at time `now`; a retry or attempt that does not exist changes nothing. */
  function Next(s: State, step: Step, now: int): State {
    match step
    case StartStep => Start(s)
    case StopStep => Stop(s)
    case ScheduleStep(p) => Schedule(s, p, now)
    case UnscheduleStep(id) => Unschedule(s, id)
    case TimerStep(id) => FireTimer(s, id, now)
    case RetryStep(k) => if k < |s.retries| then FireRetry(s, k, now) else s
    case CompleteStep(k, outcome, a, b) => if k < |s.attempts| then Complete(s, k, outcome, a, b, now).state else s
    case SweepStep => Sweep(s, now)
    case UpdateStep(posts) => ReconcileAsWritten(s, posts, now).0
  }

  /** Every in-flight id belongs to exactly one unsettled attempt, and no two unsettled attempts share an id. */
  ghost predicate Exclusive(s: State) {
    s.publishing == Ids(s.attempts) && UniqueIds(s.attempts)
  }

  /** Every timer entry is keyed by the id of the post it captured. */
  ghost predicate TimersKeyed(s: State) {
    forall id :: id in s.timers ==> s.timers[id].id == id
  }
}
