/** The runtime object of the scroll protocol: the same steps as field updates. */
module ThreadScrollRuntime {
  import opened Text
  import opened SessionKeys
  import opened RecencyTable
  import opened ThreadScrollCache
  import opened ThreadScroll

  class ScrollRuntime {
    var activeSessionId: string
    var activeScroller: Option<int>
    var lastSaved: LastSaved
    var restoreLock: Option<Lock>
    var applyingRestore: bool
    var pendingNavigation: Option<Navigation>
    var userScrollIntentUntil: int
    var userCancelledRestoreSessionId: string
    var restoreRevision: nat
    var syncRevision: nat
    var syncPending: Option<bool>
    var memory: Option<Positions>
    var storage: ScrollText
    var restoreTimers: set<RestoreTimer>
    var syncTimers: set<SyncTimer>

    function View(): Runtime
      reads this
    {
      Runtime(activeSessionId, activeScroller, lastSaved, restoreLock, applyingRestore, pendingNavigation,
              userScrollIntentUntil, userCancelledRestoreSessionId, restoreRevision, syncRevision,
              restoreTimers, syncTimers, syncPending, Cache(memory, storage))
    }

    /** No timer is ahead of its revision, and memory, once read, is what a reload would read. */
    ghost predicate Valid()
      reads this
    {
      Sane(View())
    }

    /** A page that has just loaded: nothing is cancelled, locked or scheduled, memory is empty. */
    constructor (text: ScrollText)
      ensures Valid() && restoreLock == None && userCancelledRestoreSessionId == ""
    {
      activeSessionId, activeScroller, lastSaved := "", None, NOTHING_SAVED;
      restoreLock, applyingRestore, pendingNavigation := None, false, None;
      userScrollIntentUntil, userCancelledRestoreSessionId := 0, "";
      restoreRevision, syncRevision, syncPending := 0, 0, None;
      memory, storage := None, text;
      restoreTimers, syncTimers := {}, {};
      new;
      FreshPageCoherent(text);
    }

    method ReadEntries() returns (entries: Positions)
      requires Valid()
      modifies this`memory
      ensures View() == old(View()).(cache := Loaded(old(View()).cache))
      ensures entries == Entries(old(View()).cache)
      ensures Valid()
    {
      LoadedCoherent(View().cache);
      if memory.None? {
        memory := Some(Reload(storage));
      }
      return memory.value;
    }

    method WriteEntries(entries: Positions)
      modifies this`memory, this`storage
      ensures View() == old(View()).(cache := Written(entries))
      ensures old(Valid()) && Normal(entries) ==> Valid()
    {
      if Normal(entries) {
        WrittenSpec(entries);
      }
      var pruned := KeepValid(Prune(entries, MAX_ENTRIES));
      memory := Some(pruned);
      storage := Wrapped(RawTexts(pruned));
    }

    method ActiveRestoreLock(sessionId: string, now: nat) returns (lock: Option<Lock>)
      requires Valid()
      modifies this`restoreLock
      ensures lock == ActiveLock(old(View()), sessionId, now)
      ensures View() == DropExpired(old(View()), sessionId, now)
      ensures Valid()
    {
      var key := ValidKey(sessionId);
      if restoreLock.None? || key == "" || restoreLock.value.sessionId != key {
        return None;
      }
      if restoreLock.value.expiresAt <= now {
        restoreLock := None;
        return None;
      }
      return restoreLock;
    }

    method PrepareRestoreLock(sessionId: string, now: nat)
      requires Valid()
      modifies this
      ensures View() == PrepareLock(old(View()), sessionId, now)
      ensures Valid()
    {
      PrepareSane(View(), sessionId, now);
      var key := ValidKey(sessionId);
      if key == "" {
        return;
      }
      var entries := ReadEntries();
      var entry := Find(entries, key);
      if entry.Some? {
        restoreLock := Some(Lock(key, entry.value.value.top, now + RESTORE_WINDOW_MS));
      }
    }

    method CancelRestoreForUserIntent(env: Env)
      requires Valid()
      modifies this
      ensures View() == CancelForUserIntent(old(View()), env)
      ensures Valid()
      ensures forall t :: t in restoreTimers ==> t.revision != restoreRevision
      ensures forall t :: t in syncTimers ==> t.revision != syncRevision
    {
      GestureOutdates(View(), env);
      userCancelledRestoreSessionId := CancelTarget(View(), env);
      userScrollIntentUntil := env.now + USER_INTENT_WINDOW_MS;
      restoreRevision := restoreRevision + 1;
      syncRevision := syncRevision + 1;
      restoreLock := None;
    }

    method SavePositionNow(env: Env)
      requires Valid()
      modifies this
      ensures View() == SaveNow(old(View()), env)
      ensures Valid()
      ensures forall key :: old(LiveLockFor(View(), key, env.now)) ==>
        Protected(old(Entries(View().cache)), Entries(View().cache), key)
    {
      SaveSane(View(), env);
      forall key | LiveLockFor(View(), key, env.now)
        ensures Protected(Entries(View().cache), Entries(SaveNow(View(), env).cache), key)
      {
        SaveNowProtects(View(), env, key);
      }
      var key := ValidKey(activeSessionId);
      if !env.enabled || key == "" || activeScroller.None? {
        return;
      }
      var lock := ActiveRestoreLock(key, env.now);
      if lock.Some? {
        return;
      }
      var snapshot := Snapshot(env.geometry(activeScroller.value));
      if NearlySame(lastSaved, snapshot) {
        return;
      }
      var entries := ReadEntries();
      WriteEntries(Put(entries, Item(key, Position(snapshot.top, snapshot.height, snapshot.clientHeight), env.now)));
      lastSaved := snapshot;
    }

    method ShouldBlockAutobottom(scroller: int, top: real, env: Env) returns (blocked: bool)
      requires Valid()
      modifies this`restoreLock
      ensures blocked == BlocksAutobottom(old(View()), scroller, top, env)
      ensures View() == AfterGuard(old(View()), env)
      ensures Valid()
    {
      if restoreLock.None? {
        return false;
      }
      var lock := ActiveRestoreLock(restoreLock.value.sessionId, env.now);
      if lock.None? || !env.enabled || applyingRestore || !(activeScroller == Some(scroller) || scroller == env.scroller) {
        return false;
      }
      var g := env.geometry(scroller);
      return Abs(top - TargetTop(g, lock.value.targetTop)) > 8.0 && NearBottom(g, top);
    }

    /** The returned effect is the scroll call that reaches the browser. */
    method RestorePosition(sessionId: string, env: Env) returns (effect: Effect)
      requires Valid()
      modifies this
      ensures (View(), effect) == Restore(old(View()), sessionId, env)
      ensures Valid()
    {
      RestoreSane(View(), sessionId, env);
      var key := ValidKey(sessionId);
      if RestoreBlocked(View(), key, env) {
        return NoEffect;
      }
      var lock := ActiveRestoreLock(key, env.now);
      var top := 0.0;
      if lock.Some? {
        top := lock.value.targetTop;
      } else {
        var entries := ReadEntries();
        var entry := Find(entries, key);
        if entry.None? {
          return NoEffect;
        }
        top := entry.value.value.top;
      }
      effect := ScrollToTop(key, top, env);
    }

    method ScrollToTop(key: string, top: real, env: Env) returns (effect: Effect)
      requires Valid()
      modifies this
      ensures (View(), effect) == ScrollTo(old(View()), key, top, env)
      ensures Valid()
      ensures var g := env.geometry(env.scroller);
        effect == if Abs(g.scrollTop - TargetTop(g, top)) > 1.0 then ScrollWrite(key, env.scroller, TargetTop(g, top)) else NoEffect
    {
      ScrollSane(View(), key, top, env);
      activeScroller := Some(env.scroller);
      var g := env.geometry(env.scroller);
      var target := TargetTop(g, top);
      if Abs(g.scrollTop - target) <= 1.0 {
        return NoEffect;
      }
      applyingRestore := true;
      var blocked := ShouldBlockAutobottom(env.scroller, target, env);
      effect := if blocked then NoEffect else ScrollWrite(key, env.scroller, target);
      applyingRestore := false;
      lastSaved := LastSaved(target, NonNegative(g.scrollHeight), NonNegative(g.clientHeight));
    }

    method ScheduleRestorePosition(sessionId: string, env: Env)
      requires Valid()
      modifies this
      ensures View() == ScheduleRestore(old(View()), sessionId, env)
      ensures Valid()
    {
      ScheduleSane(View(), sessionId, env);
      var key := ValidKey(sessionId);
      if !env.enabled || key == "" || IntentActive(View(), env.now) || CancelledFor(View(), key) {
        return;
      }
      var entries := ReadEntries();
      var entry := Find(entries, key);
      if entry.None? {
        restoreLock := None;
        return;
      }
      StartRestoreTimers(key, entry.value.value.top, env.now);
    }

    method StartRestoreTimers(key: string, top: real, now: nat)
      requires Valid()
      modifies this
      ensures View() == WithRestoreTimers(old(View()), key, top, now)
      ensures Valid()
    {
      restoreLock := Some(Lock(key, top, now + RESTORE_WINDOW_MS));
      restoreRevision := restoreRevision + 1;
      restoreTimers := restoreTimers + {RestoreTimer(restoreRevision, key)};
    }

    method SwitchSession(next: string, env: Env)
      requires Valid()
      modifies this
      ensures View() == Switched(old(View()), next, env)
      ensures Valid()
    {
      PrepareRestoreLock(next, env.now);
      ForgetSession(next, env.scroller);
    }

    /** What was remembered about the session before, and a cancellation unless it is for the next one. */
    method ForgetSession(next: string, scroller: int)
      requires Valid()
      modifies this
      ensures View() == old(View()).(
        scroller := Some(scroller), saved := NOTHING_SAVED, lock := None, active := next, pending := None,
        intentUntil := 0, cancelled := if old(View()).cancelled != next then "" else old(View()).cancelled)
      ensures Valid()
    {
      activeScroller := Some(scroller);
      lastSaved := NOTHING_SAVED;
      restoreLock, activeSessionId, pendingNavigation, userScrollIntentUntil := None, next, None, 0;
      if userCancelledRestoreSessionId != next {
        userCancelledRestoreSessionId := "";
      }
    }

    method SyncState(force: bool, env: Env)
      requires Valid()
      modifies this
      ensures View() == Sync(old(View()), force, env)
      ensures Valid()
    {
      SyncSane(View(), force, env);
      var next := ValidKey(env.current);
      if next == "" {
        return;
      }
      if !env.enabled {
        activeScroller, restoreLock, activeSessionId := None, None, next;
        return;
      }
      if activeSessionId != next {
        SwitchSession(next, env);
        ScheduleRestorePosition(next, env);
        return;
      }
      activeScroller := Some(env.scroller);
      if force && !IntentActive(View(), env.now) && !CancelledFor(View(), next) {
        ScheduleRestorePosition(next, env);
      }
    }

    method ScheduleSyncs(force: bool, env: Env)
      requires Valid()
      modifies this
      ensures View() == ScheduleSyncAttempts(old(View()), force, env)
      ensures Valid()
    {
      var key := if ValidKey(env.current) != "" then ValidKey(env.current) else ValidKey(activeSessionId);
      if IntentActive(View(), env.now) || CancelledFor(View(), key) {
        return;
      }
      StartSyncTimers(force);
    }

    method StartSyncTimers(force: bool)
      requires Valid()
      modifies this
      ensures View() == WithSyncTimers(old(View()), force)
      ensures Valid()
    {
      syncRevision := syncRevision + 1;
      syncTimers := syncTimers + {SyncTimer(syncRevision, force)};
    }

    method OnNavigation(targetSessionId: string, env: Env)
      requires Valid()
      modifies this
      ensures View() == CaptureNavigation(old(View()), targetSessionId, env)
      ensures Valid()
    {
      CaptureSane(View(), targetSessionId, env);
      if !env.enabled {
        return;
      }
      var target := ValidKey(targetSessionId);
      if target != "" && target != activeSessionId {
        userScrollIntentUntil, userCancelledRestoreSessionId := 0, "";
      }
      var duplicate := DuplicateNavigation(View(), target, env.now);
      if !duplicate {
        SavePositionNow(env);
      }
      if target != "" {
        pendingNavigation := Some(Navigation(target, env.now));
        PrepareRestoreLock(target, env.now);
      }
      ScheduleSyncs(true, env);
    }

    method OnRestoreTimer(timer: RestoreTimer, env: Env) returns (effect: Effect)
      requires timer in restoreTimers
      requires Valid()
      modifies this
      ensures (View(), effect) == Step(old(View()), RestoreTimerFires(timer), env)
      ensures Valid()
      ensures effect.ScrollWrite? <==> old(Due(View(), timer, env))
      ensures effect.ScrollWrite? ==>
        && effect.scroller == env.scroller && effect.key == old(activeSessionId) != old(userCancelledRestoreSessionId)
        && RangeMin(env.geometry(env.scroller)) <= effect.top <= RangeMax(env.geometry(env.scroller))
      ensures timer.revision != old(restoreRevision) ==> effect == NoEffect && View() == old(View())
    {
      StepSane(View(), RestoreTimerFires(timer), env);
      WritesIffDue(View(), RestoreTimerFires(timer), env);
      if Due(View(), timer, env) {
        RestoreWritesInRange(View(), RestoreTimerFires(timer), env);
      }
      if restoreRevision != timer.revision {
        return NoEffect;
      }
      effect := RestorePosition(timer.key, env);
    }

    method OnSyncTimer(timer: SyncTimer, env: Env)
      requires timer in syncTimers
      requires Valid()
      modifies this
      ensures View() == Step(old(View()), SyncTimerFires(timer), env).0
      ensures Valid()
    {
      if syncRevision == timer.revision && syncPending.None? {
        syncPending := Some(timer.force);
      }
    }

    method RunQueuedSync(env: Env)
      requires syncPending.Some?
      requires Valid()
      modifies this
      ensures View() == Step(old(View()), SyncRuns, env).0
      ensures Valid()
    {
      StepSane(View(), SyncRuns, env);
      var force := syncPending.value;
      syncPending := None;
      SyncState(force, env);
    }
  }
}
