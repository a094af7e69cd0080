/**
  The protocol that restores a conversation's scroll position: timed locks,
  revision-guarded timers and cancellation by the user. Every step is a function
  of the runtime state and of what the browser shows at that moment, so a run is
  any interleaving of timers, syncs, navigations, saves and user input.
*/
module ThreadScroll {
  import opened Text
  import opened SessionKeys
  import opened RecencyTable
  import opened ThreadScrollCache

  const RESTORE_WINDOW_MS := 3200
  const USER_INTENT_WINDOW_MS := 1200
  const DUPLICATE_NAVIGATION_MS := 5000

  datatype Geometry = Geometry(scrollTop: real, scrollHeight: real, clientHeight: real, reversed: bool)

  /**
    What one step sees: settings, clock, the session shown, the scroller that
    shows it, and every scroller's geometry.
  */
  datatype Env = Env(enabled: bool, now: nat, current: string, scroller: int, geometry: int -> Geometry)

  datatype Lock = Lock(sessionId: string, targetTop: real, expiresAt: int)

  datatype Navigation = Navigation(target: string, at: nat)

  datatype LastSaved = LastSaved(top: real, height: real, clientHeight: real)

  const NOTHING_SAVED := LastSaved(-1.0, -1.0, -1.0)

  /** A scheduled callback remembers the revision, and the argument, it was created with. */
  datatype RestoreTimer = RestoreTimer(revision: nat, key: string)
  datatype SyncTimer = SyncTimer(revision: nat, force: bool)

  /**
    `restoreTimers` and `syncTimers` hold every timer ever created: cancelling a
    timer is not relied upon, only the revision it carries.
  */
  datatype Runtime = Runtime(
    active: string, scroller: Option<int>, saved: LastSaved, lock: Option<Lock>, applying: bool,
    pending: Option<Navigation>, intentUntil: int, cancelled: string,
    restoreRevision: nat, syncRevision: nat, restoreTimers: set<RestoreTimer>, syncTimers: set<SyncTimer>,
    syncPending: Option<bool>, cache: Cache)

  // --------------------------------------------------------------- geometry

  function Abs(x: real): real { if x >= 0.0 then x else -x }

  function Extent(g: Geometry): real {
    if g.scrollHeight - g.clientHeight >= 0.0 then g.scrollHeight - g.clientHeight else 0.0
  }

  function RangeMin(g: Geometry): real { if g.reversed then -Extent(g) else 0.0 }

  function RangeMax(g: Geometry): real { if g.reversed then 0.0 else Extent(g) }

  function Bottom(g: Geometry): real { if g.reversed then 0.0 else Extent(g) }

  function TargetTop(g: Geometry, top: real): real {
    var upper := if RangeMax(g) <= top then RangeMax(g) else top;
    if RangeMin(g) >= upper then RangeMin(g) else upper
  }

  predicate NearBottom(g: Geometry, top: real) {
    var slack := g.clientHeight * 0.15;
    Abs(Bottom(g) - top) <= (if slack >= 24.0 then slack else 24.0)
  }

  // ------------------------------------------------------------------ locks

  function ActiveLock(rt: Runtime, sessionId: string, now: nat): Option<Lock> {
    var key := ValidKey(sessionId);
    if rt.lock.None? || key == "" || rt.lock.value.sessionId != key || rt.lock.value.expiresAt <= now then None
    else rt.lock
  }

  /** Looking up a lock drops it when it has expired. */
  function DropExpired(rt: Runtime, sessionId: string, now: nat): Runtime {
    var key := ValidKey(sessionId);
    if rt.lock.Some? && key != "" && rt.lock.value.sessionId == key && rt.lock.value.expiresAt <= now
    then rt.(lock := None) else rt
  }

  predicate IntentActive(rt: Runtime, now: nat) {
    rt.intentUntil > now
  }

  predicate CancelledFor(rt: Runtime, sessionId: string) {
    ValidKey(sessionId) != "" && rt.cancelled == ValidKey(sessionId)
  }

  function PrepareLock(rt: Runtime, sessionId: string, now: nat): Runtime {
    var key := ValidKey(sessionId);
    if key == "" then rt
    else
      var entry := Find(Entries(rt.cache), key);
      var rt := rt.(cache := Loaded(rt.cache));
      if entry.Some? then rt.(lock := Some(Lock(key, entry.value.value.top, now + RESTORE_WINDOW_MS))) else rt
  }

  // ------------------------------------------------------------ user intent

  /** The session whose restore a user gesture cancels. */
  function CancelTarget(rt: Runtime, env: Env): string {
    var locked := if rt.lock.Some? then ValidKey(rt.lock.value.sessionId) else "";
    if locked != "" then locked
    else if ValidKey(env.current) != "" then ValidKey(env.current)
    else ValidKey(rt.active)
  }

  function CancelForUserIntent(rt: Runtime, env: Env): Runtime {
    rt.(intentUntil := env.now + USER_INTENT_WINDOW_MS, cancelled := CancelTarget(rt, env),
        restoreRevision := rt.restoreRevision + 1, syncRevision := rt.syncRevision + 1, lock := None)
  }

  // ----------------------------------------------------------------- saving

  predicate NearlySame(saved: LastSaved, snapshot: LastSaved) {
    Abs(saved.top - snapshot.top) < 2.0 && saved.height == snapshot.height && saved.clientHeight == snapshot.clientHeight
  }

  function Snapshot(g: Geometry): LastSaved {
    LastSaved(g.scrollTop, NonNegative(g.scrollHeight), NonNegative(g.clientHeight))
  }

  /** `saveThreadScrollPositionNow()` for the active session and its scroller. */
  function SaveNow(rt: Runtime, env: Env): Runtime {
    var key := ValidKey(rt.active);
    if !env.enabled || key == "" || rt.scroller.None? then rt
    else if ActiveLock(rt, key, env.now).Some? then rt
    else
      var rt := DropExpired(rt, key, env.now);
      var snapshot := Snapshot(env.geometry(rt.scroller.value));
      if NearlySame(rt.saved, snapshot) then rt
      else
        var position := Position(snapshot.top, snapshot.height, snapshot.clientHeight);
        rt.(cache := Saved(rt.cache, Item(key, position, env.now)), saved := snapshot)
  }

  // -------------------------------------------------------------- restoring

  datatype Effect = NoEffect | ScrollWrite(key: string, scroller: int, top: real)

  predicate RestoreBlocked(rt: Runtime, key: string, env: Env) {
    !env.enabled || key == "" || rt.active != key || IntentActive(rt, env.now) || CancelledFor(rt, key)
  }

  function RestoreTop(rt: Runtime, key: string, now: nat): Option<real> {
    if ActiveLock(rt, key, now).Some? then Some(ActiveLock(rt, key, now).value.targetTop)
    else
      var entry := Find(Entries(rt.cache), key);
      if entry.Some? then Some(entry.value.value.top) else None
  }

  function AfterLookup(rt: Runtime, key: string, now: nat): Runtime {
    var rt' := DropExpired(rt, key, now);
    if ActiveLock(rt, key, now).Some? then rt' else rt'.(cache := Loaded(rt'.cache))
  }

  /** Binds the current scroller and scrolls it, through the guard, unless it is already there. */
  function ScrollTo(rt: Runtime, key: string, top: real, env: Env): (Runtime, Effect) {
    var g := env.geometry(env.scroller);
    var bound, target := rt.(scroller := Some(env.scroller)), TargetTop(g, top);
    if Abs(g.scrollTop - target) <= 1.0 then (bound, NoEffect)
    else (AfterGuard(bound, env).(applying := false,
            saved := LastSaved(target, NonNegative(g.scrollHeight), NonNegative(g.clientHeight))),
          ScrollWrite(key, env.scroller, target))
  }

  /** `restoreThreadScrollPosition`. */
  function Restore(rt: Runtime, sessionId: string, env: Env): (Runtime, Effect) {
    var key := ValidKey(sessionId);
    if RestoreBlocked(rt, key, env) then (rt, NoEffect)
    else
      var top, looked := RestoreTop(rt, key, env.now), AfterLookup(rt, key, env.now);
      if top.None? then (looked, NoEffect) else ScrollTo(looked, key, top.value, env)
  }

  /** A fresh lock, and timers under a fresh revision. */
  function WithRestoreTimers(rt: Runtime, key: string, top: real, now: nat): Runtime {
    var revision := rt.restoreRevision + 1;
    rt.(lock := Some(Lock(key, top, now + RESTORE_WINDOW_MS)), restoreRevision := revision,
        restoreTimers := rt.restoreTimers + {RestoreTimer(revision, key)})
  }

  /** `scheduleThreadScrollRestore`. */
  function ScheduleRestore(rt: Runtime, sessionId: string, env: Env): Runtime {
    var key := ValidKey(sessionId);
    if !env.enabled || key == "" || IntentActive(rt, env.now) || CancelledFor(rt, key) then rt
    else
      var entry, loaded := Find(Entries(rt.cache), key), rt.(cache := Loaded(rt.cache));
      if entry.None? then loaded.(lock := None)
      else WithRestoreTimers(loaded, key, entry.value.value.top, env.now)
  }

  // ---------------------------------------------------- sync and navigation

  /** The active session becomes `next`; a cancellation survives only for `next` itself. */
  function Switched(rt: Runtime, next: string, env: Env): Runtime {
    PrepareLock(rt, next, env.now).(
      scroller := Some(env.scroller), saved := NOTHING_SAVED, lock := None, active := next, pending := None,
      intentUntil := 0, cancelled := if rt.cancelled != next then "" else rt.cancelled)
  }

  /** `syncThreadScrollState`. */
  function Sync(rt: Runtime, force: bool, env: Env): Runtime {
    var next := ValidKey(env.current);
    if next == "" then rt
    else if !env.enabled then rt.(scroller := None, lock := None, active := next)
    else if rt.active != next then
      ScheduleRestore(Switched(rt, next, env), next, env)
    else
      var bound := rt.(scroller := Some(env.scroller));
      if force && !IntentActive(bound, env.now) && !CancelledFor(bound, next) then ScheduleRestore(bound, next, env)
      else bound
  }

  /** `scheduleThreadScrollSyncAttempts`. */
  function ScheduleSyncAttempts(rt: Runtime, force: bool, env: Env): Runtime {
    var key := if ValidKey(env.current) != "" then ValidKey(env.current) else ValidKey(rt.active);
    if IntentActive(rt, env.now) || CancelledFor(rt, key) then rt else WithSyncTimers(rt, force)
  }

  function WithSyncTimers(rt: Runtime, force: bool): Runtime {
    var revision := rt.syncRevision + 1;
    rt.(syncRevision := revision, syncTimers := rt.syncTimers + {SyncTimer(revision, force)})
  }

  predicate DuplicateNavigation(rt: Runtime, target: string, now: nat) {
    target != "" && rt.pending.Some? && rt.pending.value.target == target
    && now - rt.pending.value.at < DUPLICATE_NAVIGATION_MS
  }

  /** A navigation to another session forgives an earlier cancellation. */
  function Retargeted(rt: Runtime, target: string): Runtime {
    if target != "" && target != rt.active then rt.(intentUntil := 0, cancelled := "") else rt
  }

  function SaveBeforeLeaving(rt: Runtime, target: string, env: Env): Runtime {
    if DuplicateNavigation(rt, target, env.now) then rt else SaveNow(rt, env)
  }

  function Aimed(rt: Runtime, target: string, now: nat): Runtime {
    if target == "" then rt else PrepareLock(rt.(pending := Some(Navigation(target, now))), target, now)
  }

  /** `captureThreadScrollNavigation`. */
  function CaptureNavigation(rt: Runtime, targetSessionId: string, env: Env): Runtime {
    if !env.enabled then rt
    else
      var target := ValidKey(targetSessionId);
      ScheduleSyncAttempts(Aimed(SaveBeforeLeaving(Retargeted(rt, target), target, env), target, env.now), true, env)
  }

  // -------------------------------------------------------------- the guard

  /** `shouldBlockThreadScrollAutobottom` for a scroller that is the active or the current one. */
  predicate BlocksAutobottom(rt: Runtime, scroller: int, top: real, env: Env) {
    var lock := if rt.lock.Some? then ActiveLock(rt, rt.lock.value.sessionId, env.now) else None;
    if lock.None? || !env.enabled || rt.applying || !(rt.scroller == Some(scroller) || scroller == env.scroller) then false
    else
      var g := env.geometry(scroller);
      Abs(top - TargetTop(g, lock.value.targetTop)) > 8.0 && NearBottom(g, top)
  }

  function AfterGuard(rt: Runtime, env: Env): Runtime {
    if rt.lock.Some? then DropExpired(rt, rt.lock.value.sessionId, env.now) else rt
  }

  // ------------------------------------------------------------------ steps

  datatype Event =
    | UserIntent
    | RestoreTimerFires(restoreTimer: RestoreTimer)
    | SyncTimerFires(syncTimer: SyncTimer)
    | RequestSync(force: bool)
    | SyncRuns
    | Navigate(target: string)
    | RequestSyncAttempts(attemptForce: bool)
    | Save
    | Guard

  function QueueSync(rt: Runtime, force: bool): Runtime {
    if rt.syncPending.Some? then rt else rt.(syncPending := Some(force))
  }

  /** Only timers that were created can fire, and a sync runs only when one is queued. */
  predicate Possible(rt: Runtime, event: Event) {
    match event
    case RestoreTimerFires(timer) => timer in rt.restoreTimers
    case SyncTimerFires(timer) => timer in rt.syncTimers
    case SyncRuns => rt.syncPending.Some?
    case _ => true
  }

  function Step(rt: Runtime, event: Event, env: Env): (Runtime, Effect)
    requires Possible(rt, event)
  {
    match event
    case UserIntent => (CancelForUserIntent(rt, env), NoEffect)
    case RestoreTimerFires(timer) =>
      if rt.restoreRevision != timer.revision then (rt, NoEffect) else Restore(rt, timer.key, env)
    case SyncTimerFires(timer) =>
      (if rt.syncRevision != timer.revision then rt else QueueSync(rt, timer.force), NoEffect)
    case RequestSync(force) => (QueueSync(rt, force), NoEffect)
    case SyncRuns => (Sync(rt.(syncPending := None), rt.syncPending.value, env), NoEffect)
    case Navigate(target) => (CaptureNavigation(rt, target, env), NoEffect)
    case RequestSyncAttempts(force) => (ScheduleSyncAttempts(rt, force, env), NoEffect)
    case Save => (SaveNow(rt, env), NoEffect)
    case Guard => (AfterGuard(rt, env), NoEffect)
  }

  datatype Moment = Moment(event: Event, env: Env)

  ghost predicate IsRun(rt: Runtime, moments: seq<Moment>)
    decreases |moments|
  {
    moments != [] ==>
      Possible(rt, moments[0].event) && IsRun(Step(rt, moments[0].event, moments[0].env).0, moments[1..])
  }

  ghost function After(rt: Runtime, moments: seq<Moment>): Runtime
    requires IsRun(rt, moments)
    decreases |moments|
  {
    if moments == [] then rt else After(Step(rt, moments[0].event, moments[0].env).0, moments[1..])
  }

  ghost function Effects(rt: Runtime, moments: seq<Moment>): seq<Effect>
    requires IsRun(rt, moments)
    decreases |moments|
  {
    if moments == [] then []
    else
      var next := Step(rt, moments[0].event, moments[0].env);
      [next.1] + Effects(next.0, moments[1..])
  }

  // ------------------------------------------------------- user intent wins

  /** Exactly the steps that end the cancellation of a session's restore. */
  predicate Lifts(rt: Runtime, event: Event, env: Env) {
    match event
    case UserIntent => CancelTarget(rt, env) != rt.cancelled
    case Navigate(target) => env.enabled && ValidKey(target) != "" && ValidKey(target) != rt.active
    case SyncRuns => env.enabled && ValidKey(env.current) !in {"", rt.active, rt.cancelled}
    case _ => false
  }

  /** Saving and aiming leave alone what decides about restoring. */
  ghost predicate SameGuards(a: Runtime, b: Runtime) {
    && a.active == b.active && a.cancelled == b.cancelled
    && a.restoreRevision == b.restoreRevision && a.restoreTimers == b.restoreTimers
  }

  lemma SaveFrame(rt: Runtime, target: string, env: Env)
    ensures SameGuards(SaveBeforeLeaving(rt, target, env), rt)
    ensures SaveBeforeLeaving(rt, target, env).syncRevision == rt.syncRevision
    ensures SaveBeforeLeaving(rt, target, env).syncTimers == rt.syncTimers
  {
  }

  lemma AimFrame(rt: Runtime, target: string, env: Env)
    ensures SameGuards(Aimed(rt, target, env.now), rt)
    ensures Aimed(rt, target, env.now).syncRevision == rt.syncRevision
    ensures Aimed(rt, target, env.now).syncTimers == rt.syncTimers
    ensures Entries(Aimed(rt, target, env.now).cache) == Entries(rt.cache)
  {
  }

  lemma AttemptsFrame(rt: Runtime, force: bool, env: Env)
    ensures var next := ScheduleSyncAttempts(rt, force, env);
      && SameGuards(next, rt) && next.cache == rt.cache
      && rt.syncRevision <= next.syncRevision
      && forall t :: t in next.syncTimers && t !in rt.syncTimers ==> t.revision <= next.syncRevision
  {
  }

  /** A navigation decides the cancellation, saves, and creates sync timers; restore timers stay as they are. */
  lemma CaptureFrame(rt: Runtime, target: string, env: Env)
    ensures var next := CaptureNavigation(rt, target, env);
      && SameGuards(next, rt.(cancelled := if Lifts(rt, Navigate(target), env) then "" else rt.cancelled))
      && rt.syncRevision <= next.syncRevision
      && (forall t :: t in next.syncTimers && t !in rt.syncTimers ==> t.revision <= next.syncRevision)
      && Entries(next.cache)
         == if env.enabled then Entries(SaveBeforeLeaving(Retargeted(rt, ValidKey(target)), ValidKey(target), env).cache)
            else Entries(rt.cache)
  {
    if env.enabled {
      var key := ValidKey(target);
      var changed := Retargeted(rt, key);
      var saved := SaveBeforeLeaving(changed, key, env);
      SaveFrame(changed, key, env);
      AimFrame(saved, key, env);
      AttemptsFrame(Aimed(saved, key, env.now), true, env);
    }
  }

  lemma ScheduleFrame(rt: Runtime, sessionId: string, env: Env)
    ensures var next := ScheduleRestore(rt, sessionId, env);
      && next.active == rt.active && next.cancelled == rt.cancelled && Entries(next.cache) == Entries(rt.cache)
      && next.syncRevision == rt.syncRevision && next.syncTimers == rt.syncTimers
      && rt.restoreRevision <= next.restoreRevision && rt.restoreTimers <= next.restoreTimers
      && forall t :: t in next.restoreTimers && t !in rt.restoreTimers ==>
           rt.restoreRevision < t.revision <= next.restoreRevision
  {
  }

  lemma SyncFrame(rt: Runtime, force: bool, env: Env)
    ensures var next := Sync(rt, force, env);
      && next.cancelled == (if Lifts(rt, SyncRuns, env) then "" else rt.cancelled)
      && Entries(next.cache) == Entries(rt.cache)
      && next.syncRevision == rt.syncRevision && next.syncTimers == rt.syncTimers
      && rt.restoreRevision <= next.restoreRevision && rt.restoreTimers <= next.restoreTimers
      && forall t :: t in next.restoreTimers && t !in rt.restoreTimers ==>
           rt.restoreRevision < t.revision <= next.restoreRevision
  {
    var next := ValidKey(env.current);
    if next != "" && env.enabled {
      if rt.active != next {
        ScheduleFrame(Switched(rt, next, env), next, env);
      } else {
        ScheduleFrame(rt.(scroller := Some(env.scroller)), next, env);
      }
    }
  }

  lemma LookupFrame(rt: Runtime, key: string, now: nat)
    ensures var next := AfterLookup(rt, key, now);
      && SameGuards(next, rt) && Entries(next.cache) == Entries(rt.cache)
      && next.syncRevision == rt.syncRevision && next.syncTimers == rt.syncTimers
  {
  }

  lemma ScrollFrame(rt: Runtime, key: string, top: real, env: Env)
    ensures var next := ScrollTo(rt, key, top, env).0;
      && SameGuards(next, rt) && next.cache == rt.cache
      && next.syncRevision == rt.syncRevision && next.syncTimers == rt.syncTimers
  {
  }

  lemma RestoreFrame(rt: Runtime, sessionId: string, env: Env)
    ensures var next := Restore(rt, sessionId, env).0;
      && SameGuards(next, rt) && Entries(next.cache) == Entries(rt.cache)
      && next.syncRevision == rt.syncRevision && next.syncTimers == rt.syncTimers
  {
    var key := ValidKey(sessionId);
    if !RestoreBlocked(rt, key, env) {
      LookupFrame(rt, key, env.now);
      var top := RestoreTop(rt, key, env.now);
      if top.Some? {
        ScrollFrame(AfterLookup(rt, key, env.now), key, top.value, env);
      }
    }
  }

  lemma CancellationPersists(rt: Runtime, event: Event, env: Env)
    requires Possible(rt, event) && rt.cancelled != ""
    ensures Step(rt, event, env).0.cancelled == rt.cancelled <==> !Lifts(rt, event, env)
  {
    match event
    case Navigate(target) =>
      CaptureFrame(rt, target, env);
    case SyncRuns =>
      SyncFrame(rt.(syncPending := None), rt.syncPending.value, env);
    case RestoreTimerFires(timer) =>
      RestoreFrame(rt, timer.key, env);
    case _ =>
  }

  lemma CancelledIsNotWritten(rt: Runtime, event: Event, env: Env)
    requires Possible(rt, event) && Step(rt, event, env).1.ScrollWrite?
    ensures Step(rt, event, env).1.key != rt.cancelled && Step(rt, event, env).1.key == rt.active
  {
    ValidKeyStable(event.restoreTimer.key);
  }

  ghost predicate NeverLifted(rt: Runtime, moments: seq<Moment>)
    requires IsRun(rt, moments)
    decreases |moments|
  {
    moments != [] ==>
      !Lifts(rt, moments[0].event, moments[0].env) &&
      NeverLifted(Step(rt, moments[0].event, moments[0].env).0, moments[1..])
  }

  /**
    A restore timer with everything it needs to scroll: its session is the active
    one, and its position is known and not yet reached.
  */
  predicate Due(rt: Runtime, timer: RestoreTimer, env: Env) {
    var key := ValidKey(timer.key);
    && env.enabled && timer.revision == rt.restoreRevision && !IntentActive(rt, env.now)
    && key != "" && key == rt.active && key != rt.cancelled
    && RestoreTop(rt, key, env.now).Some?
    && var g := env.geometry(env.scroller);
       Abs(g.scrollTop - TargetTop(g, RestoreTop(rt, key, env.now).value)) > 1.0
  }

  /** A restore write scrolls what is shown, whatever session it acts for, and happens exactly when a timer is due. */
  lemma WritesIffDue(rt: Runtime, event: Event, env: Env)
    requires Possible(rt, event)
    ensures Step(rt, event, env).1.ScrollWrite? <==> event.RestoreTimerFires? && Due(rt, event.restoreTimer, env)
    ensures Step(rt, event, env).1.ScrollWrite? ==>
      Step(rt, event, env).1.scroller == env.scroller && Step(rt, event, env).1.key == rt.active
  {
    if event.RestoreTimerFires? {
      ValidKeyStable(event.restoreTimer.key);
    }
  }

  /** The step scrolls the session that the user is looking at and has taken over. */
  predicate ScrollsCancelled(rt: Runtime, event: Event, env: Env)
    requires Possible(rt, event)
  {
    Step(rt, event, env).1.ScrollWrite? && rt.cancelled != "" && ValidKey(env.current) == rt.cancelled
  }

  /** A timer of the active session is due while another session, the cancelled one, is already shown. */
  predicate Strays(rt: Runtime, event: Event, env: Env) {
    && event.RestoreTimerFires? && Due(rt, event.restoreTimer, env)
    && rt.cancelled != "" && ValidKey(env.current) == rt.cancelled && rt.active != ValidKey(env.current)
  }

  /**
    A restore scrolls the shown, cancelled session exactly when a timer strays;
    never, therefore, once a sync has made the shown session the active one.
  */
  lemma ScrollsCancelledIff(rt: Runtime, event: Event, env: Env)
    requires Possible(rt, event)
    ensures ScrollsCancelled(rt, event, env) <==> Strays(rt, event, env)
    ensures rt.active == ValidKey(env.current) ==> !ScrollsCancelled(rt, event, env)
  {
    WritesIffDue(rt, event, env);
  }

  /** No step of the run scrolls the cancelled session while it is shown. */
  ghost predicate NeverScrolled(rt: Runtime, moments: seq<Moment>)
    requires IsRun(rt, moments)
    decreases |moments|
  {
    moments != [] ==>
      !ScrollsCancelled(rt, moments[0].event, moments[0].env) &&
      NeverScrolled(Step(rt, moments[0].event, moments[0].env).0, moments[1..])
  }

  ghost predicate NeverStrays(rt: Runtime, moments: seq<Moment>)
    requires IsRun(rt, moments)
    decreases |moments|
  {
    moments != [] ==>
      !Strays(rt, moments[0].event, moments[0].env) &&
      NeverStrays(Step(rt, moments[0].event, moments[0].env).0, moments[1..])
  }

  /** Whenever a restore timer fires, the session shown is the active one. */
  ghost predicate InStep(rt: Runtime, moments: seq<Moment>)
    requires IsRun(rt, moments)
    decreases |moments|
  {
    moments != [] ==>
      (moments[0].event.RestoreTimerFires? ==> rt.active == ValidKey(moments[0].env.current)) &&
      InStep(Step(rt, moments[0].event, moments[0].env).0, moments[1..])
  }

  /**
    User intent wins. In every run, from the moment a session's restore is
    cancelled until a step lifts it, no timer of that session scrolls anything,
    whenever it was scheduled. And nothing at all scrolls that session while it is
    shown, exactly as long as no timer of another session strays: in particular in
    every run in which timers fire only while the active session is the one shown.
  */
  lemma {:induction false} UserIntentWins(rt: Runtime, moments: seq<Moment>)
    requires rt.cancelled != "" && IsRun(rt, moments) && NeverLifted(rt, moments)
    ensures After(rt, moments).cancelled == rt.cancelled
    ensures forall e :: e in Effects(rt, moments) && e.ScrollWrite? ==> e.key != rt.cancelled
    ensures NeverScrolled(rt, moments) <==> NeverStrays(rt, moments)
    ensures InStep(rt, moments) ==> NeverScrolled(rt, moments)
    decreases |moments|
  {
    if moments != [] {
      var next := Step(rt, moments[0].event, moments[0].env);
      CancellationPersists(rt, moments[0].event, moments[0].env);
      ScrollsCancelledIff(rt, moments[0].event, moments[0].env);
      if next.1.ScrollWrite? {
        CancelledIsNotWritten(rt, moments[0].event, moments[0].env);
      }
      UserIntentWins(next.0, moments[1..]);
    }
  }

  /** A scroller at its top, with room below. */
  const AT_TOP := Geometry(0.0, 2000.0, 500.0, false)

  /** Session a is active, unlocked, and was last left at 500. */
  ghost predicate Resting(rt: Runtime, a: string) {
    && rt.active == a && rt.lock == None && rt.syncPending == None
    && Find(Entries(rt.cache), a).Some? && Find(Entries(rt.cache), a).value.value.top == 500.0
  }

  lemma GestureElsewhere(rt: Runtime, env: Env, a: string, b: string)
    requires Resting(rt, a) && Valid(a) && Valid(b) && a != b && env.current == b
    ensures var next := Step(rt, UserIntent, env).0;
      Resting(next, a) && next.cancelled == b && next.restoreRevision == rt.restoreRevision + 1
      && next.intentUntil == env.now + USER_INTENT_WINDOW_MS
    ensures rt.cancelled == b ==> !Lifts(rt, UserIntent, env)
  {
  }

  /** A forced sync of the active session, after the gesture has worn off, schedules a restore for it. */
  lemma ForcedSync(rt: Runtime, env: Env, a: string)
    requires Valid(a) && env.enabled && env.current == a && rt.active == a && rt.cancelled != a && rt.intentUntil <= env.now
    ensures Sync(rt, true, env) == ScheduleRestore(rt.(scroller := Some(env.scroller)), a, env)
  {
  }

  lemma Scheduled(rt: Runtime, env: Env, a: string)
    requires Valid(a) && env.enabled && rt.cancelled != a && rt.intentUntil <= env.now && Find(Entries(rt.cache), a).Some?
    ensures ScheduleRestore(rt, a, env)
         == WithRestoreTimers(rt.(cache := Loaded(rt.cache)), a, Find(Entries(rt.cache), a).value.value.top, env.now)
  {
  }

  lemma SyncedBack(rt: Runtime, env: Env, a: string, next: Runtime)
    requires Resting(rt, a) && rt.cancelled != a && Valid(a) && env.enabled && env.current == a && rt.intentUntil <= env.now
    requires next == WithRestoreTimers(rt.(scroller := Some(env.scroller), cache := Loaded(rt.cache)), a, 500.0, env.now)
    ensures Sync(rt, true, env) == next
  {
    ForcedSync(rt, env, a);
    Scheduled(rt.(scroller := Some(env.scroller)), env, a);
  }

  lemma TimersStarted(rt: Runtime, a: string, now: nat, next: Runtime)
    requires next == WithRestoreTimers(rt, a, 500.0, now)
    ensures next.active == rt.active && next.cancelled == rt.cancelled && next.intentUntil == rt.intentUntil
    ensures next.restoreRevision == rt.restoreRevision + 1 && RestoreTimer(next.restoreRevision, a) in next.restoreTimers
    ensures next.lock == Some(Lock(a, 500.0, now + RESTORE_WINDOW_MS))
  {
  }

  lemma SyncOfActiveLiftsNothing(rt: Runtime, env: Env)
    requires Valid(rt.active) && env.current == rt.active
    ensures !Lifts(rt, SyncRuns, env)
  {
  }

  lemma TimerStrays(rt: Runtime, env: Env, a: string, b: string)
    requires Valid(a) && Valid(b) && a != b && rt.active == a && rt.cancelled == b && rt.intentUntil <= env.now
    requires env.enabled && env.current == b && env.geometry(env.scroller) == AT_TOP
    requires rt.lock.Some? && rt.lock.value.sessionId == a && rt.lock.value.targetTop == 500.0 && env.now < rt.lock.value.expiresAt
    ensures Strays(rt, RestoreTimerFires(RestoreTimer(rt.restoreRevision, a)), env)
  {
  }

  /** No step of the run lifts the cancellation, and yet some step scrolls the cancelled session while it is shown. */
  ghost predicate Overruled(rt: Runtime, moments: seq<Moment>) {
    IsRun(rt, moments) && NeverLifted(rt, moments) && !NeverScrolled(rt, moments)
  }

  lemma StrayTail(rt: Runtime, moment: Moment)
    requires Possible(rt, moment.event) && Strays(rt, moment.event, moment.env)
    ensures Overruled(rt, [moment])
  {
    ScrollsCancelledIff(rt, moment.event, moment.env);
    assert [moment][1..] == [];
  }

  lemma StrayCons(rt: Runtime, moment: Moment, next: Runtime, rest: seq<Moment>)
    requires Possible(rt, moment.event) && !Lifts(rt, moment.event, moment.env)
    requires next == Step(rt, moment.event, moment.env).0 && Overruled(next, rest)
    ensures Overruled(rt, [moment] + rest)
  {
    assert ([moment] + rest)[1..] == rest;
  }

  /** A sync while a is shown and the gesture has worn off, then the new timer of a while b is shown. */
  ghost predicate OutOfStep(intentUntil: int, revision: nat, a: string, b: string, sync: Moment, fires: Moment) {
    && sync.event == SyncRuns && sync.env.enabled && sync.env.current == a
    && intentUntil <= sync.env.now <= fires.env.now < sync.env.now + RESTORE_WINDOW_MS
    && fires.event == RestoreTimerFires(RestoreTimer(revision + 1, a))
    && fires.env.enabled && fires.env.current == b && fires.env.geometry(fires.env.scroller) == AT_TOP
  }

  lemma StrayAfterSync(rt: Runtime, idle: Runtime, a: string, b: string, sync: Moment, fires: Moment)
    requires idle == rt.(syncPending := None) && Resting(idle, a) && rt.syncPending == Some(true) && idle.cancelled == b
    requires Valid(a) && Valid(b) && a != b && OutOfStep(idle.intentUntil, idle.restoreRevision, a, b, sync, fires)
    ensures Overruled(rt, [sync] + [fires])
  {
    var bound := idle.(scroller := Some(sync.env.scroller), cache := Loaded(idle.cache));
    var synced := WithRestoreTimers(bound, a, 500.0, sync.env.now);
    SyncedBack(idle, sync.env, a, synced);
    TimersStarted(bound, a, sync.env.now, synced);
    TimerStrays(synced, fires.env, a, b);
    StrayTail(synced, fires);
    SyncOfActiveLiftsNothing(rt, sync.env);
    StrayCons(rt, sync, synced, [fires]);
  }

  lemma StrayAfterRequest(rt: Runtime, request: Moment, queued: Runtime, rest: seq<Moment>)
    requires request.event == RequestSync(true) && rt.syncPending == None
    requires queued == rt.(syncPending := Some(true)) && Overruled(queued, rest)
    ensures Overruled(rt, [request] + rest)
  {
    StrayCons(rt, request, queued, rest);
  }

  lemma StrayAfterGesture(rt: Runtime, a: string, b: string, request: Moment, sync: Moment, fires: Moment)
    requires Resting(rt, a) && rt.cancelled == b && Valid(a) && Valid(b) && a != b
    requires request.event == RequestSync(true) && OutOfStep(rt.intentUntil, rt.restoreRevision, a, b, sync, fires)
    ensures Overruled(rt, [request] + ([sync] + [fires]))
  {
    var queued := rt.(syncPending := Some(true));
    StrayAfterSync(queued, rt, a, b, sync, fires);
    StrayAfterRequest(rt, request, queued, [sync] + [fires]);
  }

  /**
    The stray timer is no mere possibility: a gesture in b while a is still the
    active session, a sync while a is shown again, and b is shown once more when
    the new timer of a fires. Nothing has lifted the cancellation, and b is scrolled.
  */
  lemma StrayRun(rt: Runtime, a: string, b: string, inA: Env, inB: Env, back: Env, request: Moment, sync: Moment, fires: Moment)
    requires Resting(rt, a) && Valid(a) && Valid(b) && a != b
    requires inB == Env(true, 1000, b, 1, _ => AT_TOP) && inA == Env(true, 5000, a, 1, _ => AT_TOP)
    requires back == Env(true, 5100, b, 1, _ => AT_TOP)
    requires request == Moment(RequestSync(true), inB) && sync == Moment(SyncRuns, inA)
    requires fires == Moment(RestoreTimerFires(RestoreTimer(rt.restoreRevision + 2, a)), back)
    ensures Step(rt, UserIntent, inB).0.cancelled == b
    ensures Overruled(Step(rt, UserIntent, inB).0, [request] + ([sync] + [fires]))
  {
    var gestured := Step(rt, UserIntent, inB).0;
    GestureElsewhere(rt, inB, a, b);
    StrayAfterGesture(gestured, a, b, request, sync, fires);
  }

  /** No timer carries a revision that has not been handed out yet. */
  ghost predicate TimersIssued(rt: Runtime) {
    && (forall t :: t in rt.restoreTimers ==> t.revision <= rt.restoreRevision)
    && forall t :: t in rt.syncTimers ==> t.revision <= rt.syncRevision
  }

  /** Revisions only grow, and a restore timer created by a step carries a new one. */
  lemma RevisionsGrow(rt: Runtime, event: Event, env: Env)
    requires Possible(rt, event) && TimersIssued(rt)
    ensures var next := Step(rt, event, env).0;
      && TimersIssued(next) && next.restoreRevision >= rt.restoreRevision
      && rt.restoreTimers <= next.restoreTimers
      && forall t :: t in next.restoreTimers && t !in rt.restoreTimers ==> t.revision > rt.restoreRevision
  {
    match event
    case Navigate(target) =>
      CaptureFrame(rt, target, env);
    case SyncRuns =>
      SyncFrame(rt.(syncPending := None), rt.syncPending.value, env);
    case RestoreTimerFires(timer) =>
      RestoreFrame(rt, timer.key, env);
    case _ =>
  }

  /** The revisions of the restore timers that scroll, over a run. */
  ghost predicate OnlyLaterTimersWrite(rt: Runtime, moments: seq<Moment>, revision: nat)
    requires IsRun(rt, moments)
    decreases |moments|
  {
    moments != [] ==>
      var next := Step(rt, moments[0].event, moments[0].env);
      && (next.1.ScrollWrite? ==> moments[0].event.RestoreTimerFires? && moments[0].event.restoreTimer.revision > revision)
      && OnlyLaterTimersWrite(next.0, moments[1..], revision)
  }

  lemma {:induction false} StaleTimersNeverWrite(rt: Runtime, moments: seq<Moment>, revision: nat)
    requires TimersIssued(rt) && IsRun(rt, moments) && rt.restoreRevision > revision
    ensures OnlyLaterTimersWrite(rt, moments, revision)
    decreases |moments|
  {
    if moments != [] {
      RevisionsGrow(rt, moments[0].event, moments[0].env);
      StaleTimersNeverWrite(Step(rt, moments[0].event, moments[0].env).0, moments[1..], revision);
    }
  }

  /**
    A gesture kills every restore timer pending at that moment for good: in no
    later run, not even once the cancellation has been lifted, does one of them
    scroll anything.
  */
  lemma GestureKillsPendingTimers(rt: Runtime, env: Env, moments: seq<Moment>)
    requires TimersIssued(rt)
    requires IsRun(Step(rt, UserIntent, env).0, moments)
    ensures OnlyLaterTimersWrite(Step(rt, UserIntent, env).0, moments, rt.restoreRevision)
    ensures forall t :: t in rt.restoreTimers ==> t.revision <= rt.restoreRevision
  {
    RevisionsGrow(rt, UserIntent, env);
    StaleTimersNeverWrite(Step(rt, UserIntent, env).0, moments, rt.restoreRevision);
  }

  /**
    Navigating to the cancelled session itself lifts the cancellation when that
    session is shown but not yet the synced one: the guard compares the target
    with the active session only.
  */
  lemma RenavigationLifts(rt: Runtime, env: Env)
    requires env.enabled && Valid(rt.cancelled) && rt.cancelled != rt.active
    ensures Lifts(rt, Navigate(rt.cancelled), env)
    ensures Step(rt, Navigate(rt.cancelled), env).0.cancelled == ""
  {
    CaptureFrame(rt, rt.cancelled, env);
  }

  // ------------------------------------------------- what every step keeps

  /** No timer is ahead of its revision, and memory is what a reload would read. */
  ghost predicate Sane(rt: Runtime) {
    TimersIssued(rt) && Coherent(rt.cache)
  }

  /** The timers and their revisions are the same. */
  ghost predicate SameTimers(a: Runtime, b: Runtime) {
    && a.restoreRevision == b.restoreRevision && a.restoreTimers == b.restoreTimers
    && a.syncRevision == b.syncRevision && a.syncTimers == b.syncTimers
  }

  lemma LoadedCoherent(cache: Cache)
    requires Coherent(cache)
    ensures Coherent(Loaded(cache)) && Entries(Loaded(cache)) == Entries(cache)
  {
  }

  lemma PrepareSane(rt: Runtime, sessionId: string, now: nat)
    requires Sane(rt)
    ensures Sane(PrepareLock(rt, sessionId, now)) && SameTimers(PrepareLock(rt, sessionId, now), rt)
  {
    LoadedCoherent(rt.cache);
  }

  /** A gesture leaves no pending timer with a current revision. */
  lemma GestureOutdates(rt: Runtime, env: Env)
    requires Sane(rt)
    ensures var next := CancelForUserIntent(rt, env);
      && Sane(next)
      && (forall t :: t in next.restoreTimers ==> t.revision != next.restoreRevision)
      && (forall t :: t in next.syncTimers ==> t.revision != next.syncRevision)
  {
  }

  lemma SaveSane(rt: Runtime, env: Env)
    requires Sane(rt)
    ensures Sane(SaveNow(rt, env)) && SameTimers(SaveNow(rt, env), rt)
  {
    if rt.scroller.Some? && ValidKey(rt.active) != "" {
      SnapshotCoherent(rt.cache, rt.active, Snapshot(env.geometry(rt.scroller.value)), env.now);
    }
  }

  lemma SnapshotCoherent(cache: Cache, sessionId: string, snapshot: LastSaved, now: nat)
    requires Coherent(cache) && ValidKey(sessionId) != "" && snapshot.height >= 0.0 && snapshot.clientHeight >= 0.0
    ensures Coherent(Saved(cache, Item(ValidKey(sessionId), Position(snapshot.top, snapshot.height, snapshot.clientHeight), now)))
  {
    ValidKeyStable(sessionId);
    SavedSpec(cache, Item(ValidKey(sessionId), Position(snapshot.top, snapshot.height, snapshot.clientHeight), now));
  }

  lemma LookupSane(rt: Runtime, key: string, now: nat)
    requires Sane(rt)
    ensures Sane(AfterLookup(rt, key, now))
  {
    LoadedCoherent(rt.cache);
  }

  lemma ScrollSane(rt: Runtime, key: string, top: real, env: Env)
    requires Sane(rt)
    ensures Sane(ScrollTo(rt, key, top, env).0)
  {
    ScrollFrame(rt, key, top, env);
  }

  lemma RestoreSane(rt: Runtime, sessionId: string, env: Env)
    requires Sane(rt)
    ensures Sane(Restore(rt, sessionId, env).0)
  {
    var key := ValidKey(sessionId);
    if !RestoreBlocked(rt, key, env) {
      LookupSane(rt, key, env.now);
      var top := RestoreTop(rt, key, env.now);
      if top.Some? {
        ScrollSane(AfterLookup(rt, key, env.now), key, top.value, env);
      }
    }
  }

  lemma ScheduleSane(rt: Runtime, sessionId: string, env: Env)
    requires Sane(rt)
    ensures Sane(ScheduleRestore(rt, sessionId, env))
  {
    LoadedCoherent(rt.cache);
  }

  lemma SwitchedSane(rt: Runtime, next: string, env: Env)
    requires Sane(rt)
    ensures Sane(Switched(rt, next, env))
  {
    PrepareSane(rt, next, env.now);
  }

  lemma SyncSane(rt: Runtime, force: bool, env: Env)
    requires Sane(rt)
    ensures Sane(Sync(rt, force, env))
  {
    var next := ValidKey(env.current);
    SwitchedSane(rt, next, env);
    ScheduleSane(Switched(rt, next, env), next, env);
    ScheduleSane(rt.(scroller := Some(env.scroller)), next, env);
  }

  lemma AttemptsSane(rt: Runtime, force: bool, env: Env)
    requires Sane(rt)
    ensures Sane(ScheduleSyncAttempts(rt, force, env))
  {
  }

  lemma AimedSane(rt: Runtime, target: string, now: nat)
    requires Sane(rt)
    ensures Sane(Aimed(rt, target, now))
  {
    if target != "" {
      PrepareSane(rt.(pending := Some(Navigation(target, now))), target, now);
    }
  }

  lemma CaptureSane(rt: Runtime, target: string, env: Env)
    requires Sane(rt)
    ensures Sane(CaptureNavigation(rt, target, env))
  {
    var key := ValidKey(target);
    var changed := Retargeted(rt, key);
    var saved := SaveBeforeLeaving(changed, key, env);
    SaveSane(changed, env);
    AimedSane(saved, key, env.now);
    AttemptsSane(Aimed(saved, key, env.now), true, env);
  }

  /** Every step keeps the timers behind their revisions and memory in step with storage. */
  lemma StepSane(rt: Runtime, event: Event, env: Env)
    requires Possible(rt, event) && Sane(rt)
    ensures Sane(Step(rt, event, env).0)
  {
    match event
    case Navigate(target) =>
      CaptureSane(rt, target, env);
    case SyncRuns =>
      SyncSane(rt.(syncPending := None), rt.syncPending.value, env);
    case RestoreTimerFires(timer) =>
      RestoreSane(rt, timer.key, env);
    case Save =>
      SaveSane(rt, env);
    case _ =>
  }

  // ------------------------------------------- the lock protects the position

  ghost predicate LiveLockFor(rt: Runtime, key: string, now: nat) {
    Valid(key) && rt.lock.Some? && rt.lock.value.sessionId == key && now < rt.lock.value.expiresAt
  }

  /** The entry is what it was, or a full table has dropped it; a full table stays full. */
  ghost predicate Protected(before: Positions, after: Positions, key: string) {
    && (Find(after, key) == Find(before, key) || (Find(after, key) == None && |after| >= MAX_ENTRIES))
    && (|before| >= MAX_ENTRIES ==> |after| >= MAX_ENTRIES)
  }

  lemma OtherSaveProtects(cache: Cache, sessionId: string, snapshot: LastSaved, now: nat, key: string)
    requires Coherent(cache) && snapshot.height >= 0.0 && snapshot.clientHeight >= 0.0
    requires ValidKey(sessionId) !in {"", key}
    ensures var item := Item(ValidKey(sessionId), Position(snapshot.top, snapshot.height, snapshot.clientHeight), now);
      Protected(Entries(cache), Entries(Saved(cache, item)), key)
  {
    ValidKeyStable(sessionId);
    var item := Item(ValidKey(sessionId), Position(snapshot.top, snapshot.height, snapshot.clientHeight), now);
    SavedSpec(cache, item);
    PutSpec(Entries(cache), item);
    PruneSpec(Put(Entries(cache), item), MAX_ENTRIES);
    SavedElsewhere(cache, item, key);
  }

  lemma SaveNowProtects(rt: Runtime, env: Env, key: string)
    requires LiveLockFor(rt, key, env.now) && Coherent(rt.cache)
    ensures Protected(Entries(rt.cache), Entries(SaveNow(rt, env).cache), key)
  {
    if ValidKey(rt.active) !in {"", key} && rt.scroller.Some? {
      OtherSaveProtects(rt.cache, rt.active, Snapshot(env.geometry(rt.scroller.value)), env.now, key);
    }
  }

  lemma CaptureProtects(rt: Runtime, target: string, env: Env, key: string)
    requires LiveLockFor(rt, key, env.now) && Coherent(rt.cache)
    ensures Protected(Entries(rt.cache), Entries(CaptureNavigation(rt, target, env).cache), key)
  {
    SaveNowProtects(Retargeted(rt, ValidKey(target)), env, key);
    CaptureFrame(rt, target, env);
  }

  /** While a session's restore lock is live no step changes the position saved for it. */
  lemma StepProtects(rt: Runtime, event: Event, env: Env, key: string)
    requires Possible(rt, event) && LiveLockFor(rt, key, env.now) && Coherent(rt.cache)
    ensures Protected(Entries(rt.cache), Entries(Step(rt, event, env).0.cache), key)
  {
    match event
    case Save =>
      SaveNowProtects(rt, env, key);
    case Navigate(target) =>
      CaptureProtects(rt, target, env, key);
    case SyncRuns =>
      SyncFrame(rt.(syncPending := None), rt.syncPending.value, env);
    case RestoreTimerFires(timer) =>
      RestoreFrame(rt, timer.key, env);
    case _ =>
  }

  /** At every step of the run the session's lock is live. */
  ghost predicate LockedThroughout(rt: Runtime, moments: seq<Moment>, key: string)
    requires IsRun(rt, moments)
    decreases |moments|
  {
    moments != [] ==>
      LiveLockFor(rt, key, moments[0].env.now) &&
      LockedThroughout(Step(rt, moments[0].event, moments[0].env).0, moments[1..], key)
  }

  /**
    The lock protects the saved position: over every run throughout which the
    session's restore lock is live, its entry stays as it is, unless a full table
    drops it.
  */
  lemma {:induction false} LockProtectsPosition(rt: Runtime, moments: seq<Moment>, key: string)
    requires Sane(rt) && IsRun(rt, moments) && LockedThroughout(rt, moments, key)
    ensures Sane(After(rt, moments)) && Protected(Entries(rt.cache), Entries(After(rt, moments).cache), key)
    decreases |moments|
  {
    if moments != [] {
      StepSane(rt, moments[0].event, moments[0].env);
      StepProtects(rt, moments[0].event, moments[0].env, key);
      LockProtectsPosition(Step(rt, moments[0].event, moments[0].env).0, moments[1..], key);
    }
  }

  /** Every restore write lands inside the scroller's range, on the remembered position if that is in range. */
  lemma RestoreWritesInRange(rt: Runtime, event: Event, env: Env)
    requires Possible(rt, event) && Step(rt, event, env).1.ScrollWrite?
    ensures var write := Step(rt, event, env).1;
      var g := env.geometry(write.scroller);
      var top := RestoreTop(rt, write.key, env.now);
      && RangeMin(g) <= write.top <= RangeMax(g)
      && top.Some?
      && (RangeMin(g) <= top.value <= RangeMax(g) ==> write.top == top.value)
  {
  }

  /** Clamping picks the position in range that is closest to the remembered one. */
  lemma TargetTopClosest(g: Geometry, top: real, other: real)
    requires RangeMin(g) <= other <= RangeMax(g)
    ensures RangeMin(g) <= TargetTop(g, top) <= RangeMax(g)
    ensures Abs(TargetTop(g, top) - top) <= Abs(other - top)
  {
  }

  /** The same scroller seen from its other end. */
  function Mirrored(g: Geometry): Geometry
    requires !g.reversed
  {
    g.(reversed := true, scrollTop := g.scrollTop - Extent(g))
  }

  /** A reversed scroller is restored and guarded as its mirror image is. */
  lemma ReversedMirrorsNormal(g: Geometry, top: real, target: real)
    requires !g.reversed
    ensures TargetTop(Mirrored(g), target - Extent(g)) == TargetTop(g, target) - Extent(g)
    ensures NearBottom(Mirrored(g), top - Extent(g)) <==> NearBottom(g, top)
  {
  }

  /**
    The guard lets the user be: nothing within 8 of the clamped target and
    nothing away from the bottom is blocked, and a jump to the very bottom is
    blocked exactly when the target is more than 8 away from it.
  */
  lemma GuardIsTight(rt: Runtime, scroller: int, top: real, env: Env)
    ensures BlocksAutobottom(rt, scroller, top, env) ==>
      && rt.lock.Some? && env.now < rt.lock.value.expiresAt
      && Abs(top - TargetTop(env.geometry(scroller), rt.lock.value.targetTop)) > 8.0
      && NearBottom(env.geometry(scroller), top)
    ensures rt.lock.Some? && LiveLockFor(rt, rt.lock.value.sessionId, env.now) && env.enabled && !rt.applying
            && scroller == env.scroller ==>
      var g := env.geometry(scroller);
      (BlocksAutobottom(rt, scroller, Bottom(g), env)
       <==> Abs(Bottom(g) - TargetTop(g, rt.lock.value.targetTop)) > 8.0)
  {
  }
}
