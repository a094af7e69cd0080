/** The controls that the user operates: they update the stored text and the synced view in place. */
module ServiceTierControls {
  import opened Text
  import opened SessionKeys
  import opened RecencyTable
  import opened ServiceTierStore
  import opened ServiceTierRequests

  /** The mode a click on the badge asks for. */
  function NextMode(view: View): ThreadMode {
    if view.effectiveFast then Standard else Fast
  }

  predicate Refused(backendStatus: string, wantsFast: bool, model: string) {
    backendStatus != "ok" || (wantsFast && !FastAvailable(model))
  }

  class Controls {
    var storage: Stored
    var view: View

    constructor (configTier: Option<string>)
      ensures storage == EMPTY && Invariant(storage)
      ensures view.serviceTier == configTier
    {
      storage := EMPTY;
      view := View("loading", configTier, FollowConfig, Inherit, "", Inherit, None, false);
    }

    method SetThreadOverride(threadId: string, mode: ThreadMode, now: Millis)
      modifies this`storage
      ensures storage == SetOverride(old(storage), threadId, mode, now)
      ensures Invariant(old(storage)) ==> Invariant(storage)
    {
      if Invariant(storage) {
        ApplyInvariant(storage, SetOverrideOp(threadId, mode, now));
      }
      var state := Read(storage, now);
      state := state.(mode := Custom);
      var key := ValidKey(threadId);
      if key != "" {
        if mode == Inherit {
          state := state.(entries := Remove(state.entries, key));
        } else {
          state := state.(entries := Put(state.entries, Item(key, mode, now)));
        }
      } else if mode == Inherit {
        state := state.(draft := None);
      } else {
        state := state.(draft := Some(Draft(mode, now)));
      }
      storage := Write(state, now);
    }

    method BindDraftToThread(threadId: string, now: Millis) returns (bound: bool)
      modifies this`storage
      ensures storage == BindDraft(old(storage), threadId, now)
      ensures bound <==> ValidKey(threadId) != "" && LiveDraft(Read(old(storage), now), now).Some?
                         && Read(old(storage), now).mode == Custom
      ensures Invariant(old(storage)) ==> Invariant(storage)
    {
      if Invariant(storage) {
        ApplyInvariant(storage, BindDraftOp(threadId, now));
      }
      var key := ValidKey(threadId);
      var draft := LiveDraft(Read(storage, now), now);
      if key == "" || draft.None? {
        return false;
      }
      var state := Read(storage, now);
      if state.mode != Custom {
        state := state.(draft := None);
        storage := Write(state, now);
        return false;
      }
      if !HasKey(state.entries, key) {
        state := state.(entries := Put(state.entries, Item(key, draft.value.mode, now)));
      }
      state := state.(draft := None);
      storage := Write(state, now);
      return true;
    }

    /** `syncCodexServiceTierEffectiveState`. */
    method Sync(env: Env)
      modifies this
      ensures storage == SyncStored(old(storage), env)
      ensures view == SyncView(old(view), old(storage), env)
      ensures Invariant(old(storage)) ==> Invariant(storage)
    {
      if !env.controlsEnabled {
        view := view.(activeThreadId := "", threadMode := Inherit, effectiveServiceTier := view.serviceTier,
                      effectiveFast := IsFastTier(view.serviceTier));
        return;
      }
      var active := ValidKey(env.currentSession);
      if active != "" {
        var _ := BindDraftToThread(active, env.now);
      }
      var state := Read(storage, env.now);
      var threadMode := ChosenMode(state, active, env.now);
      var tier := ValueForControlMode(state.mode, threadMode, state.defaultMode, view.serviceTier);
      view := view.(controlMode := state.mode, defaultMode := state.defaultMode, activeThreadId := active,
                    threadMode := threadMode, effectiveServiceTier := tier, effectiveFast := IsFastTier(tier));
    }

    /** A refused change still refreshes, so it still binds the draft. */
    method SetControlMode(mode: ControlMode, backendStatus: string, env: Env)
      modifies this
      ensures var stored := if Refused(backendStatus, mode == GlobalFast, env.currentModel) then old(storage)
                            else SetControl(old(storage), mode, env.now);
        storage == SyncStored(stored, env) && view == SyncView(old(view), stored, env)
      ensures Invariant(old(storage)) ==> Invariant(storage)
    {
      if Invariant(storage) {
        ApplyInvariant(storage, SetControlOp(mode, env.now));
      }
      if backendStatus != "ok" {
        Sync(env);
        return;
      }
      if mode == GlobalFast && !FastAvailable(env.currentModel) {
        Sync(env);
        return;
      }
      var state := Read(storage, env.now);
      state := state.(mode := mode);
      if mode != Custom {
        state := state.(defaultMode := DefaultForControlMode(mode), entries := [], draft := None);
      }
      storage := Write(state, env.now);
      Sync(env);
    }

    method SetThreadMode(mode: ThreadMode, backendStatus: string, env: Env)
      modifies this
      ensures var stored := if Refused(backendStatus, mode == Fast, env.currentModel) then old(storage)
                            else SetOverride(old(storage), ValidKey(env.currentSession), mode, env.now);
        storage == SyncStored(stored, env) && view == SyncView(old(view), stored, env)
      ensures Invariant(old(storage)) ==> Invariant(storage)
    {
      if !Refused(backendStatus, mode == Fast, env.currentModel) {
        SetThreadOverride(ValidKey(env.currentSession), mode, env.now);
      }
      Sync(env);
    }

    /** One click on the badge: on success the active thread (or draft) is resolved to the other tier. */
    method ToggleFromBadge(backendStatus: string, env: Env)
      modifies this
      ensures var synced, shown := SyncStored(old(storage), env), SyncView(old(view), old(storage), env);
        var next, key := NextMode(shown), ValidKey(env.currentSession);
        if backendStatus != "ok" then storage == synced && view == shown
        else if Refused(backendStatus, next == Fast, env.currentModel) then
          storage == SyncStored(synced, env) && view == SyncView(shown, synced, env)
        else
          var chosen := SetOverride(synced, key, next, env.now);
          && storage == SyncStored(chosen, env) && view == SyncView(shown, chosen, env)
          && (env.controlsEnabled && RoomFor(Read(synced, env.now), key, next) ==> view.effectiveFast == (next == Fast))
    {
      Sync(env);
      if backendStatus != "ok" {
        return;
      }
      ghost var synced := storage;
      var next := NextMode(view);
      if next == Fast && !FastAvailable(env.currentModel) {
        Sync(env);
        return;
      }
      ghost var before := view;
      SetThreadMode(next, backendStatus, env);
      if env.controlsEnabled {
        ToggleEffect(old(storage), before, env, next);
      }
    }
  }

  // ------------------------------------------------- what a click achieves

  predicate RoomFor(state: State, threadId: string, mode: ThreadMode) {
    TouchFits(state, threadId, mode) && |state.entries| <= MAX_ENTRIES
  }

  lemma OverriddenHolds(state: State, threadId: string, mode: ThreadMode, now: Millis)
    requires Normal(state) && RoomFor(state, threadId, mode)
    ensures var after := Overridden(state, threadId, mode, now);
      && Normal(after) && |after.entries| <= MAX_ENTRIES
      && (mode != Inherit && ValidKey(threadId) != "" ==> Item(ValidKey(threadId), mode, now) in after.entries)
  {
    OverriddenNormal(state, threadId, mode, now);
    PutSpec(state.entries, Item(ValidKey(threadId), mode, now));
    RemoveSpec(state.entries, ValidKey(threadId));
  }

  lemma OverriddenDecides(state: State, threadId: string, mode: ThreadMode, now: Millis)
    requires mode != Inherit && Normal(state) && RoomFor(state, threadId, mode)
    ensures Decision(Overridden(state, threadId, mode, now), ValidKey(threadId), now) == mode
  {
    var after := Overridden(state, threadId, mode, now);
    OverriddenHolds(state, threadId, mode, now);
    if ValidKey(threadId) != "" {
      FindUnique(after.entries, Item(ValidKey(threadId), mode, now));
    }
  }

  /** An override that is written is the one that is then resolved, for a thread as for the draft. */
  lemma OverrideDecides(stored: Stored, threadId: string, mode: ThreadMode, now: Millis)
    requires mode != Inherit && RoomFor(Read(stored, now), threadId, mode)
    ensures var after := Read(SetOverride(stored, threadId, mode, now), now);
      && Decision(after, ValidKey(threadId), now) == mode
      && (ValidKey(threadId) != "" ==> after.draft == Read(stored, now).draft)
  {
    var state := Read(stored, now);
    var after := Overridden(state, threadId, mode, now);
    ReadNormal(stored, now);
    OverriddenHolds(state, threadId, mode, now);
    ReadAfterWrite(after, now, now);
    OverriddenDecides(state, threadId, mode, now);
    PruneSpec(after.entries, MAX_ENTRIES);
    PrunedDecision(after, ValidKey(threadId), now);
  }

  /** The view after a successful click shows the requested tier. */
  lemma ToggleEffect(stored: Stored, view: View, env: Env, next: ThreadMode)
    requires env.controlsEnabled && next != Inherit
    ensures var synced, key := SyncStored(stored, env), ValidKey(env.currentSession);
      RoomFor(Read(synced, env.now), key, next) ==>
        SyncView(view, SetOverride(synced, key, next, env.now), env).effectiveFast == (next == Fast)
  {
    var synced, key := SyncStored(stored, env), ValidKey(env.currentSession);
    if RoomFor(Read(synced, env.now), key, next) {
      if key != "" {
        SyncTwice(stored, env);
      }
      ToggleDecides(synced, env, next);
      SyncReflects(view, SetOverride(synced, key, next, env.now), env);
    }
  }

  lemma ToggleDecides(synced: Stored, env: Env, next: ThreadMode)
    requires env.controlsEnabled && next != Inherit
    requires RoomFor(Read(synced, env.now), ValidKey(env.currentSession), next)
    requires ValidKey(env.currentSession) != "" ==> LiveDraft(Read(synced, env.now), env.now) == None
    ensures var key := ValidKey(env.currentSession);
      var after := SyncStored(SetOverride(synced, key, next, env.now), env);
      Decision(Read(after, env.now), key, env.now) == next
  {
    var key := ValidKey(env.currentSession);
    ValidKeyStable(env.currentSession);
    OverrideDecides(synced, key, next, env.now);
    assert ValidKey(key) == key;
    assert SyncStored(SetOverride(synced, key, next, env.now), env) == SetOverride(synced, key, next, env.now);
  }
}
