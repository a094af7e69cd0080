# Models of Codex++ and sub2api

This project models the parts of the two programs whose correctness is hard to
see from any one function, and proves what they are for.

The runtime that Codex++ injects into the Codex app:

- **Service tiers** (`ServiceTierStore`, `ServiceTierRequests`, `ServiceTierControls`):
  a stored control mode with per-thread overrides and an expiring draft, the
  resolver that rewrites outgoing requests, and the separately written one behind
  the badge.
- **Scroll restoring** (`ThreadScrollCache`, `ThreadScroll`, `ThreadScrollRuntime`):
  timed locks, revision-guarded timers and cancellation by the user over a capped
  cache. A run is any interleaving of timers, syncs, navigations, saves and
  gestures; each step is given the clock and what the browser shows at that moment.
- **Sidebar** (`SidebarOrder`, `SidebarProjection`, `SidebarProjectionRerun`,
  `SidebarLists`): the two-pass move of rows between lists, insertion by time, the
  sort check and the reorder loop. A list is a sequence of thread rows and other
  nodes; each row has an element identity and a session key.
- **Timeline** (`TimelineLayout`), **single-flight defaults**
  (`UpstreamDefaultsCache`), **versions** (`VersionOrder`) and the **bounded walk
  over cyclic objects** (`ObjectWalk`).

sub2api:

- **Eager loading** (`AccountEagerLoad`), the **create and scan code** of accounts
  (`AccountCodec`) and the **bulk create chain** (`AccountBulkCreate`) of the
  generated `ent` package.
- **Audit gate** (`AuditExceptionParser`, `AuditGate`): the exception list's line
  parser and the decision loop.

`Text`, `SessionKeys` and `RecencyTable` hold what several of them share.

Code that updates fields, arrays or accumulators in loops is a class or a method
with the same loops, proved equal to a function of the old state; the theorems
are about those functions. Clocks, the DOM, the network, the database and the
environment's parsers are parameters.

## What the code does not promise

- A cancelled restore stays cancelled until exactly the steps that
  `ThreadScroll.Lifts` names. Two of them may surprise: navigating to the cancelled
  session itself while another one is still active (`RenavigationLifts`), and a
  later gesture that cancels another session. The timers that were pending at
  the gesture stay dead even then.
- A restore scrolls what is on screen and never asks which session that is. While
  another session is still the active one, its timer can scroll the session that
  the user has taken over (`StrayRun`); once a sync has caught up, none can.
- A request in inherit mode may go out fast for an unsupported model, if and only
  if it carries a fast `service_tier` beside a `serviceTier` that is not fast.
- `thread/start` without ids resolves to the draft, not to the active thread; the
  badge of a thread speaks for it only as `StartBadgeIff` says. The badge of a
  draft is right until the draft lapses (`LapsedDraft`).
- The timeline shows one centred marker for no question as well as for one.
- A bulk create whose hook objects after passing the call on returns an error
  although the accounts are stored and mutations are marked done; without such a
  hook an error marks nothing. With no builders the database is not called.
- In the audit gate a second finding with the same package and advisory is not
  compared for its severity, and a report whose titles are not all text makes the
  script fail.
- The walk may miss an object within its depth limit: one that is first come upon
  at the limit is not expanded when a shorter way reaches it later. It misses
  nothing if every way without a repeated object fits the limit.
- Scanning into an account that already holds a JSON object merges the two, and of
  accounts with the same id only the last one is given groups or logs.
- A cached upstream answer for a project was loaded for that project, but possibly
  with another repository path.

## Model

| member | source | states |
|---|---|---|
| `ServiceTierStore.ReadAfterWrite` | CodexPlusPlus-main/assets/inject/renderer-inject.js:1326-1379 | What is written is read back: for every normal state and any two times, writing and reading returns the same mode, default and draft and exactly the 120 newest entries |
| `ServiceTierStore.ReadTimeless` | CodexPlusPlus-main/assets/inject/renderer-inject.js:1326-1402 | For every stored text the time of reading changes no mode, default, override or draft mode |
| `ServiceTierStore.ApplyInvariant` | CodexPlusPlus-main/assets/inject/renderer-inject.js:1404-1473 | Control-mode, per-thread and draft-binding operations each keep the invariant of the stored text: at most 120 distinct valid entries at any time of reading, and, unless the mode is custom, no entries, no draft and a default equal to that mode |
| `ServiceTierStore.ReachableInvariant` | CodexPlusPlus-main/assets/inject/renderer-inject.js:1265-1473 | That invariant holds after every sequence of operations from empty storage |
| `ServiceTierRequests.OverrideFactors` | CodexPlusPlus-main/assets/inject/renderer-inject.js:1701-1734 | The resolver of a request depends on the store only through one decision (fast, standard or inherit) for the thread key of the request |
| `ServiceTierRequests.SameDecisionSameRewrite` | CodexPlusPlus-main/assets/inject/renderer-inject.js:1701-1753 | Stores that decide alike for the thread of a request rewrite it alike |
| `ServiceTierRequests.NonInterference` | CodexPlusPlus-main/assets/inject/renderer-inject.js:1352-1421 | In every reachable store, setting one thread's override changes no request of any other thread, as long as the table has room |
| `ServiceTierRequests.EvictionTouchesOneThread` | CodexPlusPlus-main/assets/inject/renderer-inject.js:1352-1421 | Without room exactly one thread, a least recently set one, can be affected |
| `ServiceTierRequests.UnevictedUnchanged` | CodexPlusPlus-main/assets/inject/renderer-inject.js:1352-1421 | Even with a full table, a thread whose entry survives the pruning sees every request rewritten as before |
| `ServiceTierRequests.FastOnlyWhenSupported` | CodexPlusPlus-main/assets/inject/renderer-inject.js:1685-1753 | Fast safety as an equivalence: a rewritten request goes out fast for an unsupported model iff the tier is inherited and the request carries a fast `service_tier` beside a non-fast `serviceTier`; no field but those two changes (also lines 1208-1233) |
| `ServiceTierRequests.ConflictSendsFast` | CodexPlusPlus-main/assets/inject/renderer-inject.js:1701-1753 | Such a request, on an empty store: it goes out fast for a model that does not support it |
| `ServiceTierRequests.RewriteIdempotent` | CodexPlusPlus-main/assets/inject/renderer-inject.js:1736-1753 | Rewriting a rewritten request changes nothing, for every store, method and params |
| `ServiceTierRequests.SyncReflects` | CodexPlusPlus-main/assets/inject/renderer-inject.js:1475-1512 | The synced view is effectively fast iff the stored decision for the active thread makes a request fast |
| `ServiceTierRequests.BadgeTellsIff` | CodexPlusPlus-main/assets/inject/renderer-inject.js:1685-1753 | The badge after a sync, against any later plain request of any thread: it is fast / unsupported / standard as the rewritten request is fast / fast-blocked / standard iff the store decides alike for the two threads at the two times (also lines 1475-1534) |
| `ServiceTierRequests.BadgeRefinesWire` | CodexPlusPlus-main/assets/inject/renderer-inject.js:1685-1753 | For the synced thread that holds at every later time; without a thread it holds iff no draft that differs from the default lapses in between (also lines 1284-1293, 1475-1534) |
| `ServiceTierRequests.LapsedDraft` | CodexPlusPlus-main/assets/inject/renderer-inject.js:1475-1534 | A draft that lapses: the badge says fast, and the thread is started as standard (also lines 1397-1402) |
| `ServiceTierRequests.StartBadgeIff` | CodexPlusPlus-main/assets/inject/renderer-inject.js:1680-1734 | A request that resolves to the draft while a thread is shown agrees with the badge iff the mode is not custom or the thread's own override is as fast as the default (also lines 1475-1534) |
| `ServiceTierRequests.StartedElsewhere` | CodexPlusPlus-main/assets/inject/renderer-inject.js:1680-1683 | One that disagrees: the shown thread is fast, the started one standard (also lines 1475-1534) |
| `ServiceTierRequests.SyncTwice` | CodexPlusPlus-main/assets/inject/renderer-inject.js:1475-1512 | A sync on a thread leaves no live draft behind, so it is bound once (also lines 1423-1437) |
| `ServiceTierControls.Controls.SetThreadOverride` | CodexPlusPlus-main/assets/inject/renderer-inject.js:1404-1421 | Field updates of the stored state equal the specified transition and keep the invariant |
| `ServiceTierControls.Controls.BindDraftToThread` | CodexPlusPlus-main/assets/inject/renderer-inject.js:1423-1437 | Binds iff there is a valid thread, a live draft and custom mode; new stored state and invariant as specified |
| `ServiceTierControls.Controls.Sync` | CodexPlusPlus-main/assets/inject/renderer-inject.js:1475-1512 | New store and view after a sync, controls enabled or not |
| `ServiceTierControls.Controls.SetControlMode` | CodexPlusPlus-main/assets/inject/renderer-inject.js:1439-1473 | A refused change (backend down, fast not available) leaves the store; an accepted one installs the mode; both end synced |
| `ServiceTierControls.Controls.SetThreadMode` | CodexPlusPlus-main/assets/inject/renderer-inject.js:1633-1654 | The same for the mode of the active thread or of the draft |
| `ServiceTierControls.Controls.ToggleFromBadge` | CodexPlusPlus-main/assets/inject/renderer-inject.js:1656-1674 | One click resolves the active thread to the other tier if there is room, with the whole new store and view |
| `ServiceTierControls.OverrideDecides` | CodexPlusPlus-main/assets/inject/renderer-inject.js:1389-1421 | A thread's own override decides its later requests, and setting it keeps the draft |
| `ServiceTierControls.ToggleEffect` | CodexPlusPlus-main/assets/inject/renderer-inject.js:1656-1674 | The tier shown after a toggle is the one that was asked for |
| `SessionKeys.ValidKeyStable` | CodexPlusPlus-main/assets/inject/renderer-inject.js:3175-3179 | Normalising a session id is a projection onto the valid keys |
| `ThreadScrollCache.CacheCoherence` | CodexPlusPlus-main/assets/inject/renderer-inject.js:3504-3523 | For any text in storage and any saves, memory equals what a reload would parse; after one save at most 120 entries are left, all under valid keys (also lines 3190-3231) |
| `ThreadScrollCache.CacheHoldsNewest` | CodexPlusPlus-main/assets/inject/renderer-inject.js:3504-3523 | With a clock that does not run backwards the table holds the 120 newest of everything ever loaded or saved, and the last save if its time is strictly the latest (also lines 3220-3231) |
| `ThreadScrollCache.SavedElsewhere` | CodexPlusPlus-main/assets/inject/renderer-inject.js:3504-3523 | A save changes no other key's position, except that a full table may drop it |
| `ThreadScroll.CancellationPersists` | CodexPlusPlus-main/assets/inject/renderer-inject.js:3578-3638 | Exactly which steps end a cancellation: a gesture aimed at another session, a navigation whose target is not the active session, a sync that switches to a session other than the cancelled one (also lines 3277-3310) |
| `ThreadScroll.WritesIffDue` | CodexPlusPlus-main/assets/inject/renderer-inject.js:3533-3576 | A step scrolls iff a restore timer of the current revision fires for the active, not cancelled session, outside the gesture's window, with a known position more than 1 away; what it scrolls is what is on screen |
| `ThreadScroll.ScrollsCancelledIff` | CodexPlusPlus-main/assets/inject/renderer-inject.js:3533-3558 | A step scrolls the session that is shown and cancelled iff a due timer belongs to another session, still the active one; never if the active session is the one shown (also lines 3277-3310) |
| `ThreadScroll.UserIntentWins` | CodexPlusPlus-main/assets/inject/renderer-inject.js:3533-3638 | Over every interleaving, from a cancellation until a step that ends it: no timer of the cancelled session scrolls, and that session is never scrolled while shown iff no timer of another session strays, so in particular if timers fire only while the active session is shown (also lines 3277-3310) |
| `ThreadScroll.StrayRun` | CodexPlusPlus-main/assets/inject/renderer-inject.js:3533-3607 | A run in which one does: nothing ended the cancellation, and the session the user took over is scrolled (also lines 3277-3310) |
| `ThreadScroll.StepSane` | CodexPlusPlus-main/assets/inject/renderer-inject.js:3504-3638 | Every step keeps timers behind their revisions and memory equal to what a reload would read (also lines 3190-3231) |
| `ThreadScroll.RenavigationLifts` | CodexPlusPlus-main/assets/inject/renderer-inject.js:3621-3638 | A navigation to the cancelled session itself ends the cancellation when another session is the active one |
| `ThreadScroll.GestureKillsPendingTimers` | CodexPlusPlus-main/assets/inject/renderer-inject.js:3560-3576 | A restore timer pending at a gesture never scrolls anything in any later run, even after the cancellation has been lifted (also lines 3277-3289) |
| `ThreadScroll.RevisionsGrow` | CodexPlusPlus-main/assets/inject/renderer-inject.js:3560-3619 | Revisions never decrease, and new restore timers carry new ones |
| `ThreadScroll.LockProtectsPosition` | CodexPlusPlus-main/assets/inject/renderer-inject.js:3504-3523 | Over every run throughout which a session's restore lock is live, its saved position is unchanged, or a full table has dropped it (also lines 3300-3347) |
| `ThreadScroll.RestoreWritesInRange` | CodexPlusPlus-main/assets/inject/renderer-inject.js:3533-3558 | Every restore write is inside the scroller's range, and on the remembered position if that is in range (also lines 3317-3326) |
| `ThreadScroll.TargetTopClosest` | CodexPlusPlus-main/assets/inject/renderer-inject.js:3321-3352 | Clamping gives the position in range closest to the remembered one, for normal and reversed scrollers |
| `ThreadScroll.ReversedMirrorsNormal` | CodexPlusPlus-main/assets/inject/renderer-inject.js:3317-3357 | A reversed scroller is restored and judged near the bottom as its mirror image |
| `ThreadScroll.GuardIsTight` | CodexPlusPlus-main/assets/inject/renderer-inject.js:3349-3378 | The guard blocks nothing within 8 of the clamped target or away from the bottom, and blocks the jump to the bottom iff the target is more than 8 away from it |
| `ThreadScrollRuntime.ScrollRuntime.ReadEntries` | CodexPlusPlus-main/assets/inject/renderer-inject.js:3190-3218 | Field updates of the runtime object equal the specified step and keep it valid: loads memory from storage once |
| `ThreadScrollRuntime.ScrollRuntime.WriteEntries` | CodexPlusPlus-main/assets/inject/renderer-inject.js:3220-3231 | Field updates of the runtime object equal the specified step and keep it valid: prunes and writes memory and storage alike |
| `ThreadScrollRuntime.ScrollRuntime.ActiveRestoreLock` | CodexPlusPlus-main/assets/inject/renderer-inject.js:3300-3310 | Field updates of the runtime object equal the specified step and keep it valid: returns the live lock of a session and drops an expired one |
| `ThreadScrollRuntime.ScrollRuntime.PrepareRestoreLock` | CodexPlusPlus-main/assets/inject/renderer-inject.js:3328-3347 | Field updates of the runtime object equal the specified step and keep it valid: locks a session that has a saved position |
| `ThreadScrollRuntime.ScrollRuntime.CancelRestoreForUserIntent` | CodexPlusPlus-main/assets/inject/renderer-inject.js:3277-3289 | Field updates of the runtime object equal the specified step and keep it valid: cancels restoring for the session in view, and no pending timer is left with a current revision |
| `ThreadScrollRuntime.ScrollRuntime.SavePositionNow` | CodexPlusPlus-main/assets/inject/renderer-inject.js:3504-3523 | Field updates of the runtime object equal the specified step and keep it valid: saves unless a lock, an unchanged position or the lack of a session forbids it; a session whose lock is live keeps its entry |
| `ThreadScrollRuntime.ScrollRuntime.ShouldBlockAutobottom` | CodexPlusPlus-main/assets/inject/renderer-inject.js:3370-3378 | Field updates of the runtime object equal the specified step and keep it valid: decides the guard |
| `ThreadScrollRuntime.ScrollRuntime.RestorePosition` | CodexPlusPlus-main/assets/inject/renderer-inject.js:3533-3558 | Field updates of the runtime object equal the specified step and keep it valid: decides and performs one restore write |
| `ThreadScrollRuntime.ScrollRuntime.ScrollToTop` | CodexPlusPlus-main/assets/inject/renderer-inject.js:3541-3557 | Field updates of the runtime object equal the specified step and keep it valid: clamps and scrolls; the effect is a write iff the scroller is more than 1 away, because the guard lets the restore's own call through (also lines 3370-3378) |
| `ThreadScrollRuntime.ScrollRuntime.ScheduleRestorePosition` | CodexPlusPlus-main/assets/inject/renderer-inject.js:3560-3576 | Field updates of the runtime object equal the specified step and keep it valid: creates the restore timers of a new revision |
| `ThreadScrollRuntime.ScrollRuntime.SyncState` | CodexPlusPlus-main/assets/inject/renderer-inject.js:3578-3607 | Field updates of the runtime object equal the specified step and keep it valid: switches sessions or restores again |
| `ThreadScrollRuntime.ScrollRuntime.ScheduleSyncs` | CodexPlusPlus-main/assets/inject/renderer-inject.js:3609-3619 | Field updates of the runtime object equal the specified step and keep it valid: creates the sync timers of a new revision |
| `ThreadScrollRuntime.ScrollRuntime.OnNavigation` | CodexPlusPlus-main/assets/inject/renderer-inject.js:3621-3638 | Field updates of the runtime object equal the specified step and keep it valid: captures a navigation |
| `ThreadScrollRuntime.ScrollRuntime.OnRestoreTimer` | CodexPlusPlus-main/assets/inject/renderer-inject.js:3569-3575 | Field updates of the runtime object equal the specified step and keep it valid: scrolls iff the timer is due, inside the range, never for the cancelled session; an outdated timer changes nothing |
| `ThreadScrollRuntime.ScrollRuntime.OnSyncTimer` | CodexPlusPlus-main/assets/inject/renderer-inject.js:3615-3618 | Field updates of the runtime object equal the specified step and keep it valid: lets a sync timer act only if its revision is current |
| `SidebarOrder.ChatsSortNeedsCorrection` | CodexPlusPlus-main/assets/inject/renderer-inject.js:5002-5023 | The single pass over neighbours is false iff all pairs of rows are ordered by (pinned, time descending, key descending) |
| `SidebarOrder.OrderingsAgree` | CodexPlusPlus-main/assets/inject/renderer-inject.js:5002-5043 | Reordering yields the same rows and other nodes, sorted, others last; it is the identity iff the list was so already; an insertion keeps that shape; all pass the check (also lines 4785-4820) |
| `SidebarOrder.PlacedTidy` | CodexPlusPlus-main/assets/inject/renderer-inject.js:4785-4820 | Insertion by time into a tidy list leaves it tidy |
| `SidebarOrder.PlacedBack` | CodexPlusPlus-main/assets/inject/renderer-inject.js:4785-4820 | Taking a row out of a tidy list and inserting it again puts it back where it was |
| `SidebarLists.ThreadList.InsertBefore` | CodexPlusPlus-main/assets/inject/renderer-inject.js:4785-4820 | The row ends right in front of the reference, or last; all other nodes keep their order |
| `SidebarLists.ThreadList.InsertRowItemByTime` | CodexPlusPlus-main/assets/inject/renderer-inject.js:4785-4820 | The scan over live children, in place, puts the row at the specified point |
| `SidebarLists.ThreadList.ReorderChatsRows` | CodexPlusPlus-main/assets/inject/renderer-inject.js:5025-5043 | Repeated insertion in front of the first other node equals the specified reordering |
| `SidebarLists.ThreadList.ApplyChatsSortCorrection` | CodexPlusPlus-main/assets/inject/renderer-inject.js:5045-5081 | The rows end sorted, as a permutation, and an already sorted list is not touched |
| `SidebarLists.Sidebar.ApplyProjectMoveProjection` | CodexPlusPlus-main/assets/inject/renderer-inject.js:4881-4964 | The two in-place passes equal the specified passes, and place every movable session |
| `SidebarProjection.ProjectionPlacesSessions` | CodexPlusPlus-main/assets/inject/renderer-inject.js:4881-4964 | Every projected session that has a row and whose target list exists ends with exactly one attached row, marked, at the target's time and in the target list |
| `SidebarProjection.ProjectionKeepsOtherRows` | CodexPlusPlus-main/assets/inject/renderer-inject.js:4881-4964 | Every other row stays attached to the list it was in, no session loses its last row, no element is attached twice |
| `SidebarProjectionRerun.ProjectionKeepsBystanders` | CodexPlusPlus-main/assets/inject/renderer-inject.js:4881-4964 | Nodes that the projection does not name keep their order in every list, and tidy lists stay tidy |
| `SidebarProjectionRerun.SecondRunChangesNothing` | CodexPlusPlus-main/assets/inject/renderer-inject.js:4881-4964 | A second run over tidy lists moves nothing; it only clears marks of rows that are no longer projected |
| `TimelineLayout.TimelineMarkerTops` | CodexPlusPlus-main/assets/inject/renderer-inject.js:6794-6812 | The two in-place passes compute the pointwise least sequence with the minimum gap that dominates min(raw, highest admissible), within the band; with at most one question, one centred marker |
| `TimelineLayout.LeastLayoutUnique` | CodexPlusPlus-main/assets/inject/renderer-inject.js:6800-6812 | There is only one such sequence, so the previous row determines the result |
| `TimelineLayout.LeastLayoutInBand` | CodexPlusPlus-main/assets/inject/renderer-inject.js:6800-6812 | It lies in [2, 98], so the final clamp changes nothing |
| `TimelineLayout.FeasibleUnchanged` | CodexPlusPlus-main/assets/inject/renderer-inject.js:6800-6812 | Positions already far enough apart are returned unchanged |
| `TimelineLayout.LayoutIdempotent` | CodexPlusPlus-main/assets/inject/renderer-inject.js:6800-6812 | Laying out a layout returns it |
| `TimelineLayout.PushDown` | CodexPlusPlus-main/assets/inject/renderer-inject.js:6804-6807 | The forward pass, in place, equals its recursive specification |
| `TimelineLayout.PullUp` | CodexPlusPlus-main/assets/inject/renderer-inject.js:6808-6811 | The backward pass, in place, caps each marker at the room the later ones need |
| `UpstreamDefaultsCache.Loader.LoadUpstreamBranchDefaults` | CodexPlusPlus-main/assets/inject/renderer-inject.js:5435-5454 | Updates of the two maps equal the specified step, with its answer |
| `UpstreamDefaultsCache.Loader.OnAnswer` | CodexPlusPlus-main/assets/inject/renderer-inject.js:5446-5450 | The `then` callback caches an ok answer only |
| `UpstreamDefaultsCache.Loader.OnSettled` | CodexPlusPlus-main/assets/inject/renderer-inject.js:5451 | The `finally` callback clears the key |
| `UpstreamDefaultsCache.ReachableInvariant` | CodexPlusPlus-main/assets/inject/renderer-inject.js:5435-5454 | Over every interleaving: requests of a key follow one another, the in-flight map is right, and the cache holds for each key the newest ok answer ever received |
| `UpstreamDefaultsCache.SingleFlight` | CodexPlusPlus-main/assets/inject/renderer-inject.js:5435-5454 | No key has two requests under way, and the in-flight keys are exactly those of requests under way |
| `UpstreamDefaultsCache.LoadAnswers` | CodexPlusPlus-main/assets/inject/renderer-inject.js:5435-5454 | A cached answer is ok, belongs to the same project (or path), is the newest for it and younger than its lifetime; a promise handed out belongs to the key; a request is sent only if neither exists (also lines 143-144) |
| `UpstreamDefaultsCache.FinallyKeeps` | CodexPlusPlus-main/assets/inject/renderer-inject.js:5451 | The deletion by key only ever removes the request's own entry |
| `UpstreamDefaultsCache.FailureIsNotCached` | CodexPlusPlus-main/assets/inject/renderer-inject.js:5446-5451 | An answer that is not ok leaves the cache alone, so the next load asks again |
| `UpstreamDefaultsCache.KeysSeparate` | CodexPlusPlus-main/assets/inject/renderer-inject.js:5439 | Two contexts share a key iff they name the same project, or no project and the same path |
| `VersionOrder.CompareCodexVersions` | CodexPlusPlus-main/assets/inject/renderer-inject.js:1092-1103 | The loop decides the order of endless zero-padded sequences by their first difference; unparsable versions compare to nothing |
| `VersionOrder.Antisymmetric` | CodexPlusPlus-main/assets/inject/renderer-inject.js:1092-1103 | Swapping the arguments negates the result |
| `VersionOrder.Transitive` | CodexPlusPlus-main/assets/inject/renderer-inject.js:1092-1103 | The comparison is a total preorder |
| `VersionOrder.StrategyIsMonotone` | CodexPlusPlus-main/assets/inject/renderer-inject.js:1105-1110 | A version older than one that needs the legacy unlock needs it too (also lines 1080) |
| `VersionOrder.UnlockStrategy` | CodexPlusPlus-main/assets/inject/renderer-inject.js:1105-1110 | Unknown, legacy or modern, decided by the order (also lines 1080) |
| `ObjectWalk.WalkObject` | CodexPlusPlus-main/assets/inject/renderer-inject.js:7508-7534 | The stack loop equals the specified walk, and ends on every graph, cyclic ones included |
| `ObjectWalk.WalkIsSound` | CodexPlusPlus-main/assets/inject/renderer-inject.js:7508-7534 | No object is visited twice, none over the budget or the depth; each was come upon by a way of the recorded length; the result is the first the visitor gave |
| `ObjectWalk.FindsIffReachable` | CodexPlusPlus-main/assets/inject/renderer-inject.js:7508-7534 | If no way without a repeated object is longer than the depth limit and no more objects can be reached than the budget allows, the walk finds something iff a reachable object has a result |
| `ObjectWalk.NothingMeansNowhere` | CodexPlusPlus-main/assets/inject/renderer-inject.js:7508-7534 | What a walk that found nothing proves by its own visits: if none was at the depth limit and the budget was not used up, no reachable object has a result |
| `ObjectWalk.DepthLimitMisses` | CodexPlusPlus-main/assets/inject/renderer-inject.js:7508-7534 | At every depth limit from two on, those of all call sites included, a graph in which an object two steps away is missed |
| `AccountEagerLoad.LoadGroups` | sub2api-main/backend/ent/account_query.go:542-602 | For any accounts and interceptor: the last account with an id gets the groups that the specified join gives it, earlier ones with the same id none; an unexpected group is an error |
| `AccountEagerLoad.DistinctKeep` | sub2api-main/backend/ent/account_query.go:542-560 | Accounts with distinct ids each get their own |
| `AccountEagerLoad.GroupsAreTheJoin` | sub2api-main/backend/ent/account_query.go:542-602 | Without interceptors the index-based load is the relational join: exactly the joined groups, each once, in first-seen order, even when join rows repeat |
| `AccountEagerLoad.LoadProxy` | sub2api-main/backend/ent/account_query.go:603-634 | Every account with a key gets its proxy, also when accounts repeat; accounts without a key are not touched; an unexpected proxy is an error |
| `AccountEagerLoad.LastProxyIsThe` | sub2api-main/backend/ent/account_query.go:603-634 | When the query returns each proxy once, that is the proxy whose id is the foreign key |
| `AccountEagerLoad.LoadUsageLogs` | sub2api-main/backend/ent/account_query.go:635-664 | For any accounts: the last account with an id gets the logs that name it, in query order; a log of no account is an error |
| `AccountEagerLoad.LogsArePartitioned` | sub2api-main/backend/ent/account_query.go:635-664 | Conservation: the accounts together hold every returned log exactly as often as it was returned |
| `AccountCodec.CreateSpec` | sub2api-main/backend/ent/account_create.go:608-780 | Node and spec, built field by field, equal the specified ones |
| `AccountCodec.ScanValues` | sub2api-main/backend/ent/account.go:140-163 | One fresh buffer of the column's kind per column |
| `AccountCodec.Account.AssignValues` | sub2api-main/backend/ent/account.go:165-375 | The loop over the columns equals the specified fold, partial assignment on an error included |
| `AccountCodec.ColumnTakesValue` | sub2api-main/backend/ent/account.go:140-375 | A column never rejects its own kind of buffer, and the field then shows the scanned value, a JSON object merged into the one it held |
| `AccountCodec.ColumnKeepsOthers` | sub2api-main/backend/ent/account.go:165-375 | Assigning a column changes no other field |
| `AccountCodec.AssignAllSpec` | sub2api-main/backend/ent/account.go:165-375 | For any node and column list, repeats included, each field shows what it takes of its cell iff its column was read |
| `AccountCodec.ScannedNeverMismatch` | sub2api-main/backend/ent/account.go:140-375 | No column list makes `assignValues` report a type mismatch on the buffers of `scanValues` |
| `AccountCodec.RowShowsMutation` | sub2api-main/backend/ent/account_create.go:608-780 | The row described by the spec has in each column what the mutation set, and null elsewhere |
| `AccountCodec.NodeShowsMutation` | sub2api-main/backend/ent/account_create.go:608-780 | The node has in each field what the mutation set, and the zero value elsewhere |
| `AccountCodec.RoundTrip` | sub2api-main/backend/ent/account_create.go:608-780 | Reading the described row back, with the columns in any order, gives the node that `createSpec` returned, apart from the id; for every mutation |
| `AccountCodec.CheckedRowIsComplete` | sub2api-main/backend/ent/account_create.go:522-588 | A mutation that passes the check has no null in a required column |
| `AccountCodec.DefaultsThenCheck` | sub2api-main/backend/ent/account_create.go:465-588 | Once the defaults went through, the check passes iff name, platform and type are given and all validators agree |
| `AccountCodec.DefaultsKeepSetValues` | sub2api-main/backend/ent/account_create.go:465-520 | Defaults replace no value that the caller set and touch no other column |
| `AccountBulkCreate.Bulk.Save` | sub2api-main/backend/ent/account_create.go:1919-1976 | Mutations, database calls and result equal those of the specified save |
| `AccountBulkCreate.Bulk.Mutate` | sub2api-main/backend/ent/account_create.go:1930-1968 | The recursion through hooks and builders, over shared arrays, equals the specified chain |
| `AccountBulkCreate.OneBatchOrNone` | sub2api-main/backend/ent/account_create.go:1919-1976 | The database gets all specs in builder order in one call iff there is a builder and every check and earlier hook passes, otherwise no call |
| `AccountBulkCreate.SucceedsIff` | sub2api-main/backend/ent/account_create.go:1919-1976 | The save succeeds iff there was nothing to do, or the batch was stored and no hook objects |
| `AccountBulkCreate.DoneIff` | sub2api-main/backend/ent/account_create.go:1930-1968 | A mutation is newly marked done iff the batch was stored and no hook of a later builder objects |
| `AccountBulkCreate.SuccessIsComplete` | sub2api-main/backend/ent/account_create.go:1919-1976 | On success every mutation is done and every node carries the id of its own spec |
| `AccountBulkCreate.ErrorMarksNothingIff` | sub2api-main/backend/ent/account_create.go:1919-1976 | On an error no mutation is marked done iff the batch was not stored, which holds whenever no hook objects after passing the call on |
| `AccountBulkCreate.LateObjection` | sub2api-main/backend/ent/account_create.go:1953-1966 | A hook that objects afterwards: the caller gets an error although the account is stored and its mutation done |
| `AccountBulkCreate.DroppedDefaultsErrorIsCaught` | sub2api-main/backend/ent/account_create.go:1929 | The ignored error of `defaults` never lets anything be stored: the check catches it (also lines 465-588) |
| `AuditExceptionParser.ParseExceptions` | sub2api-main/tools/check_pnpm_audit_exceptions.py:23-48 | The loop over the lines equals the specified fold, its error included |
| `AuditExceptionParser.SplitLine` | sub2api-main/tools/check_pnpm_audit_exceptions.py:12-21 | A rendered `key: "value"` line is split into its key and value, whatever the value |
| `AuditExceptionParser.LaterKeyIff` | sub2api-main/tools/check_pnpm_audit_exceptions.py:30-45 | Which keys survive after a record's first line, exactly: all but `version`, `exceptions` and those that start like a comment or a record |
| `AuditExceptionParser.ParseRendered` | sub2api-main/tools/check_pnpm_audit_exceptions.py:12-48 | Lines whose content is a rendering of records are parsed to those records |
| `AuditExceptionParser.FileRoundTrip` | sub2api-main/tools/check_pnpm_audit_exceptions.py:12-48 | The same for whole files with any indentation and any blank lines, comments and headers in between |
| `AuditGate.IterVulns` | sub2api-main/tools/check_pnpm_audit_exceptions.py:64-111 | The two loops over the report equal the specified findings, crashes included |
| `AuditGate.IdFindingsAre` | sub2api-main/tools/check_pnpm_audit_exceptions.py:82-111 | Each identifier found under `via` becomes a finding of its vulnerability, and nothing else does |
| `AuditGate.BuildIndex` | sub2api-main/tools/check_pnpm_audit_exceptions.py:153-185 | The loop that fills the index equals the specified fold |
| `AuditGate.IndexedSpec` | sub2api-main/tools/check_pnpm_audit_exceptions.py:153-185 | There is no complaint iff all exceptions are complete, dated, non-empty and distinct in their normalised keys, and then the index holds exactly them |
| `AuditGate.WeighAll` | sub2api-main/tools/check_pnpm_audit_exceptions.py:187-219 | The decision loop equals the specified fold |
| `AuditGate.WeighedSpec` | sub2api-main/tools/check_pnpm_audit_exceptions.py:187-219 | The loop is clean iff every grave finding is met by the index, the severity being compared for the first finding of a key only |
| `AuditGate.Check` | sub2api-main/tools/check_pnpm_audit_exceptions.py:142-243 | Exit code and report of the whole script |
| `AuditGate.GateIsPolicy` | sub2api-main/tools/check_pnpm_audit_exceptions.py:114-243 | Exactness: nothing is reported iff the exceptions are good and every named high or critical finding has an advisory id and an unexpired exception that agrees on the severity; the script crashes iff a file cannot be read or a severity is neither text nor falsy |

## Left out

- DOM discovery and styling, selectors, React internals, badge and menu placement, dialogs, toasts, labels and titles: row identity, pinned flag, sort time and membership are inputs.
- The dispatcher patch that finds the params inside a message envelope (`codexServiceTierRequestOverride`); requests here are already method and params.
- Request objects that share or contain themselves: params are trees, so the visited set of the model search is not needed.
- Whitespace and case folding beyond ASCII; `localeCompare` in the sorter and `>` in the checker are one total order on keys.
- The enumeration order of integer-like object keys, which only decides ties between equal timestamps.
- `localStorage` failures and JSON text: storage is a total map and JSON the identity on the values stored.
- Fetching sort keys before a sidebar correction, empty-state notices, and the injected list of a project without one: each project has one list.
- The throttle of scroll saves, listener wiring, and the overrides of the scroll API: saves, gestures and guard checks are events that may come at any time.
- `clearTimeout`: every timer that was ever created may still fire, which the protocol has to survive anyway.
- Rounding: positions and percentages are real numbers.
- `parseCodexVersionParts`: versions come parsed, or not at all.
- Property access that throws, and the limit of 80 keys, in the object walk: `children` lists what is left. A root that is no object ends the walk at once.
- `sqlAll`, interceptors of the edge queries other than that of groups, `sqlgraph`, SQL text and locking; query results are parameters.
- `loadAccountGroups`, and the other entities' generated code: the same templates.
- Setters, upserts, the `X` variants, `String`, `Value` and the query methods of `Account`: one-line delegation.
- The 64-bit width of ids and the JSON encoding of `credentials` and `extra`: unbounded integers and values.
- AccountBulkCreate.Bulk.Mutate: the same limits on what a hook does as for `Save`.
- AccountBulkCreate.Bulk.Save: hooks that swallow an error, answer without calling on, call on twice or pass another mutation object are not modelled, nor is one builder listed twice; a hook here edits and passes on, or rejects before or after.
- Constraint errors are told apart from others by the program, not by the model, where a batch is stored or is not.
- AuditGate.Check: error texts, `argparse` and file access; a report entry is a complaint with its record or finding, and `str`, `date.fromisoformat` and today's date are parameters.
- AuditExceptionParser.FileRoundTrip: keys that would read as a header, a comment or a new record are excluded after a record's first line, since the parser takes them for that (LaterKeyIff).
- The request's `fetch` and its error classes in `UpstreamDefaultsCache`: a request is answered or fails.
