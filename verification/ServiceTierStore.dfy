/**
  The stored service-tier choice: a control mode, a default, per-thread
  overrides and the draft for a thread that does not exist yet.
*/
module ServiceTierStore {
  import opened Text
  import opened SessionKeys
  import opened RecencyTable

  const STORE_VERSION := "1"
  const MAX_ENTRIES: nat := 120
  const DRAFT_WINDOW_MS := 60 * 1000

  /** `Date.now()`: a positive number of milliseconds. */
  type Millis = n: int | n > 0 witness 1

  datatype ThreadMode = Inherit | Standard | Fast

  datatype ControlMode = FollowConfig | GlobalStandard | GlobalFast | Custom

  function ThreadModeName(mode: ThreadMode): string {
    match mode
    case Inherit => "inherit"
    case Standard => "standard"
    case Fast => "fast"
  }

  function ParseThreadMode(raw: string): ThreadMode {
    var name := Normalized(raw);
    if name == "standard" then Standard else if name == "fast" then Fast else Inherit
  }

  function ControlModeName(mode: ControlMode): string {
    match mode
    case FollowConfig => "inherit"
    case GlobalStandard => "global-standard"
    case GlobalFast => "global-fast"
    case Custom => "custom"
  }

  function ParseControlMode(raw: string): ControlMode {
    var name := Normalized(raw);
    if name == "global-standard" then GlobalStandard
    else if name == "global-fast" then GlobalFast
    else if name == "custom" then Custom
    else FollowConfig
  }

  function DefaultForControlMode(mode: ControlMode): ThreadMode {
    match mode
    case GlobalFast => Fast
    case GlobalStandard => Standard
    case FollowConfig | Custom => Inherit
  }

  datatype StoredDraft = StoredDraft(mode: string, at: int)

  /** The JSON text in local storage; an absent property is "" / [] / None. */
  datatype Stored = Stored(version: string, mode: string, defaultMode: string,
                           entries: Table<string>, draft: Option<StoredDraft>)

  const EMPTY := Stored("", "", "", [], None)

  datatype Draft = Draft(mode: ThreadMode, at: int)

  /** What `readThreadServiceTierState` returns. */
  datatype State = State(mode: ControlMode, defaultMode: ThreadMode,
                         entries: Table<ThreadMode>, draft: Option<Draft>)

  /** `finiteNonNegativeNumber(at) || Date.now()`. */
  function Stamp(at: int, now: Millis): int {
    if at > 0 then at else now
  }

  /** One raw entry at a time, later spellings of a key overwriting earlier ones. */
  function ReadEntries(raw: Table<string>, now: Millis): Table<ThreadMode> {
    if raw == [] then []
    else
      var last := raw[|raw| - 1];
      var rest := ReadEntries(raw[..|raw| - 1], now);
      var key, mode := ValidKey(last.key), ParseThreadMode(last.value);
      if key != "" && mode != Inherit then Put(rest, Item(key, mode, Stamp(last.at, now))) else rest
  }

  function ReadDraft(raw: Option<StoredDraft>, now: Millis): Option<Draft> {
    if raw.None? || ParseThreadMode(raw.value.mode) == Inherit then None
    else Some(Draft(ParseThreadMode(raw.value.mode), Stamp(raw.value.at, now)))
  }

  function Read(stored: Stored, now: Millis): State {
    var entries := ReadEntries(if stored.version == STORE_VERSION then stored.entries else [], now);
    var draft := ReadDraft(stored.draft, now);
    var mode := if stored.mode != "" then ParseControlMode(stored.mode)
                else if draft.Some? || entries != [] then Custom else FollowConfig;
    var defaultMode := if stored.defaultMode != "" then ParseThreadMode(stored.defaultMode)
                       else DefaultForControlMode(mode);
    State(mode, defaultMode, entries, draft)
  }

  function CleanEntries(t: Table<ThreadMode>, now: Millis): Table<ThreadMode> {
    if t == [] then []
    else
      var key, mode := ValidKey(t[0].key), t[0].value;
      var rest := CleanEntries(t[1..], now);
      if key != "" && mode != Inherit then [Item(key, mode, Stamp(t[0].at, now))] + rest else rest
  }

  function EntryTexts(t: Table<ThreadMode>): Table<string> {
    seq(|t|, i requires 0 <= i < |t| => Item(t[i].key, ThreadModeName(t[i].value), t[i].at))
  }

  function WriteDraft(draft: Option<Draft>, now: Millis): Option<StoredDraft> {
    if draft.None? || draft.value.mode == Inherit then None
    else Some(StoredDraft(ThreadModeName(draft.value.mode), Stamp(draft.value.at, now)))
  }

  function Write(state: State, now: Millis): Stored {
    Stored(STORE_VERSION, ControlModeName(state.mode), ThreadModeName(state.defaultMode),
           EntryTexts(Prune(CleanEntries(state.entries, now), MAX_ENTRIES)),
           WriteDraft(state.draft, now))
  }

  // ------------------------------------------------------------- operations

  function OverrideOf(state: State, key: string): ThreadMode {
    var entry := Find(state.entries, key);
    if entry.Some? then entry.value.value else Inherit
  }

  function LiveDraft(state: State, now: Millis): Option<Draft> {
    if state.draft.Some? && now - state.draft.value.at <= DRAFT_WINDOW_MS then state.draft else None
  }

  /** The state `setCodexThreadServiceTierOverride` writes. */
  function Overridden(state: State, threadId: string, mode: ThreadMode, now: Millis): State {
    var key := ValidKey(threadId);
    var custom := state.(mode := Custom);
    if key != "" then
      if mode == Inherit then custom.(entries := Remove(state.entries, key))
      else custom.(entries := Put(state.entries, Item(key, mode, now)))
    else if mode == Inherit then custom.(draft := None)
    else custom.(draft := Some(Draft(mode, now)))
  }

  function SetOverride(stored: Stored, threadId: string, mode: ThreadMode, now: Millis): Stored {
    Write(Overridden(Read(stored, now), threadId, mode, now), now)
  }

  /** The state `setCodexServiceTierControlMode` writes. */
  function Controlled(state: State, mode: ControlMode): State {
    if mode == Custom then state.(mode := Custom)
    else State(mode, DefaultForControlMode(mode), [], None)
  }

  function SetControl(stored: Stored, mode: ControlMode, now: Millis): Stored {
    Write(Controlled(Read(stored, now), mode), now)
  }

  /** The state `bindDraftServiceTierToThread` writes; None when it writes nothing. */
  function Bound(state: State, threadId: string, now: Millis): Option<State> {
    var key, draft := ValidKey(threadId), LiveDraft(state, now);
    if key == "" || draft.None? then None
    else if state.mode != Custom then Some(state.(draft := None))
    else if HasKey(state.entries, key) then Some(state.(draft := None))
    else Some(state.(entries := Put(state.entries, Item(key, draft.value.mode, now)), draft := None))
  }

  function BindDraft(stored: Stored, threadId: string, now: Millis): Stored {
    var bound := Bound(Read(stored, now), threadId, now);
    if bound.Some? then Write(bound.value, now) else stored
  }

  datatype Op =
    | SetControlOp(mode: ControlMode, now: Millis)
    | SetOverrideOp(threadId: string, threadMode: ThreadMode, now: Millis)
    | BindDraftOp(threadId: string, now: Millis)

  function Apply(stored: Stored, op: Op): Stored {
    match op
    case SetControlOp(mode, now) => SetControl(stored, mode, now)
    case SetOverrideOp(threadId, mode, now) => SetOverride(stored, threadId, mode, now)
    case BindDraftOp(threadId, now) => BindDraft(stored, threadId, now)
  }

  function Run(stored: Stored, ops: seq<Op>): Stored
    decreases |ops|
  {
    if ops == [] then stored else Run(Apply(stored, ops[0]), ops[1..])
  }

  // ------------------------------------------------------- read after write

  ghost predicate NormalEntry(x: Item<ThreadMode>) {
    Valid(x.key) && x.value != Inherit && x.at > 0
  }

  /** States as `Read` produces them. */
  ghost predicate Normal(state: State) {
    && DistinctKeys(state.entries)
    && (forall x :: x in state.entries ==> NormalEntry(x))
    && (state.draft.Some? ==> state.draft.value.mode != Inherit && state.draft.value.at > 0)
  }

  lemma NormalizedName(name: string)
    requires forall i :: 0 <= i < |name| ==> !IsSpace(name[i]) && !('A' <= name[i] <= 'Z')
    ensures Normalized(name) == name
  {
  }

  lemma ThreadNameParses(mode: ThreadMode)
    ensures ParseThreadMode(ThreadModeName(mode)) == mode
  {
  }

  lemma ControlNameParses(mode: ControlMode)
    ensures ParseControlMode(ControlModeName(mode)) == mode
  {
  }

  lemma {:induction false} ReadEntriesNormal(raw: Table<string>, now: Millis)
    ensures DistinctKeys(ReadEntries(raw, now))
    ensures forall x :: x in ReadEntries(raw, now) ==> NormalEntry(x)
  {
    if raw != [] {
      var last := raw[|raw| - 1];
      ReadEntriesNormal(raw[..|raw| - 1], now);
      var rest := ReadEntries(raw[..|raw| - 1], now);
      ValidKeyStable(last.key);
      PutSpec(rest, Item(ValidKey(last.key), ParseThreadMode(last.value), Stamp(last.at, now)));
    }
  }

  lemma ReadNormal(stored: Stored, now: Millis)
    ensures Normal(Read(stored, now))
  {
    ReadEntriesNormal(if stored.version == STORE_VERSION then stored.entries else [], now);
  }

  lemma {:induction false} CleanEntriesIdle(t: Table<ThreadMode>, now: Millis)
    requires forall x :: x in t ==> NormalEntry(x)
    ensures CleanEntries(t, now) == t
  {
    if t != [] {
      assert t[0] in t;
      CleanEntriesIdle(t[1..], now);
      assert t == [t[0]] + t[1..];
    }
  }

  lemma {:induction false} ReadEntryTexts(t: Table<ThreadMode>, now: Millis)
    requires DistinctKeys(t) && forall x :: x in t ==> NormalEntry(x)
    ensures ReadEntries(EntryTexts(t), now) == t
  {
    if t != [] {
      var init, last := t[..|t| - 1], t[|t| - 1];
      assert last in t;
      ReadEntryTexts(init, now);
      var texts := EntryTexts(t);
      assert texts[..|texts| - 1] == EntryTexts(init);
      ThreadNameParses(last.value);
      PutAppends(init, last);
      assert t == init + [last];
    }
  }

  /** Reading back a write loses nothing but the entries beyond the cap, at any later time. */
  lemma ReadAfterWrite(state: State, now: Millis, later: Millis)
    requires Normal(state)
    ensures Read(Write(state, now), later) == state.(entries := Prune(state.entries, MAX_ENTRIES))
  {
    CleanEntriesIdle(state.entries, now);
    PruneSpec(state.entries, MAX_ENTRIES);
    ReadEntryTexts(Prune(state.entries, MAX_ENTRIES), later);
    ThreadNameParses(state.defaultMode);
    ControlNameParses(state.mode);
    assert ControlModeName(state.mode) != "" && ThreadModeName(state.defaultMode) != "";
    if state.draft.Some? {
      ThreadNameParses(state.draft.value.mode);
    }
  }

  // ------------------------------------------------------- reading and time

  /** The same keys with the same modes, in the same order, whatever the times. */
  ghost predicate SameModes(a: Table<ThreadMode>, b: Table<ThreadMode>) {
    |a| == |b| && forall i :: 0 <= i < |a| ==> a[i].key == b[i].key && a[i].value == b[i].value
  }

  lemma {:induction false} PutSameModes(a: Table<ThreadMode>, b: Table<ThreadMode>, x: Item<ThreadMode>, y: Item<ThreadMode>)
    requires SameModes(a, b) && x.key == y.key && x.value == y.value
    ensures SameModes(Put(a, x), Put(b, y))
  {
    if a != [] && a[0].key != x.key {
      PutSameModes(a[1..], b[1..], x, y);
    }
  }

  lemma {:induction false} FindSameModes(a: Table<ThreadMode>, b: Table<ThreadMode>, key: string)
    requires SameModes(a, b)
    ensures Find(a, key).Some? == Find(b, key).Some?
    ensures Find(a, key).Some? ==> Find(a, key).value.value == Find(b, key).value.value
  {
    if a != [] && a[0].key != key {
      FindSameModes(a[1..], b[1..], key);
    }
  }

  lemma {:induction false} ReadEntriesTimeless(raw: Table<string>, now: Millis, later: Millis)
    ensures SameModes(ReadEntries(raw, now), ReadEntries(raw, later))
  {
    if raw != [] {
      var init, last := raw[..|raw| - 1], raw[|raw| - 1];
      var key, mode := ValidKey(last.key), ParseThreadMode(last.value);
      ReadEntriesTimeless(init, now, later);
      PutSameModes(ReadEntries(init, now), ReadEntries(init, later),
                   Item(key, mode, Stamp(last.at, now)), Item(key, mode, Stamp(last.at, later)));
    }
  }

  /** The time of reading shows only in times: modes, overrides and the draft's mode are those of the text. */
  lemma ReadTimeless(stored: Stored, now: Millis, later: Millis, key: string)
    ensures var a, b := Read(stored, now), Read(stored, later);
      && a.mode == b.mode && a.defaultMode == b.defaultMode && OverrideOf(a, key) == OverrideOf(b, key)
      && a.draft.Some? == b.draft.Some? && (a.draft.Some? ==> a.draft.value.mode == b.draft.value.mode)
  {
    var raw := if stored.version == STORE_VERSION then stored.entries else [];
    ReadEntriesTimeless(raw, now, later);
    FindSameModes(ReadEntries(raw, now), ReadEntries(raw, later), key);
  }

  /** A draft that is not live never becomes live again. */
  lemma DraftOnlyFades(stored: Stored, now: Millis, later: Millis)
    requires now <= later && LiveDraft(Read(stored, later), later).Some?
    ensures LiveDraft(Read(stored, now), now).Some?
  {
  }

  // -------------------------------------------------------------- invariant

  /** Outside custom mode nothing is left over that custom mode would pick up. */
  ghost predicate Coherent(state: State) {
    state.mode != Custom ==>
      state.entries == [] && state.draft == None && state.defaultMode == DefaultForControlMode(state.mode)
  }

  /** The stored text means the same coherent, capped state at every time. */
  ghost predicate Invariant(stored: Stored) {
    forall now: Millis, later: Millis ::
      var state := Read(stored, now);
      Coherent(state) && |state.entries| <= MAX_ENTRIES && Read(stored, later) == state
  }

  lemma WriteInvariant(state: State, now: Millis)
    requires Normal(state) && Coherent(state)
    ensures Invariant(Write(state, now))
  {
    PruneSpec(state.entries, MAX_ENTRIES);
    forall t: Millis, later: Millis
      ensures var s := Read(Write(state, now), t);
        Coherent(s) && |s.entries| <= MAX_ENTRIES && Read(Write(state, now), later) == s
    {
      ReadAfterWrite(state, now, t);
      ReadAfterWrite(state, now, later);
    }
  }

  lemma OverriddenNormal(state: State, threadId: string, mode: ThreadMode, now: Millis)
    requires Normal(state)
    ensures Normal(Overridden(state, threadId, mode, now))
  {
    ValidKeyStable(threadId);
    PutSpec(state.entries, Item(ValidKey(threadId), mode, now));
    RemoveSpec(state.entries, ValidKey(threadId));
  }

  lemma BoundNormal(state: State, threadId: string, now: Millis)
    requires Normal(state) && Coherent(state) && Bound(state, threadId, now).Some?
    ensures Normal(Bound(state, threadId, now).value) && Coherent(Bound(state, threadId, now).value)
  {
    ValidKeyStable(threadId);
    PutSpec(state.entries, Item(ValidKey(threadId), LiveDraft(state, now).value.mode, now));
  }

  lemma ApplyInvariant(stored: Stored, op: Op)
    requires Invariant(stored)
    ensures Invariant(Apply(stored, op))
  {
    ReadNormal(stored, op.now);
    var state := Read(stored, op.now);
    match op
    case SetControlOp(mode, now) =>
      WriteInvariant(Controlled(state, mode), now);
    case SetOverrideOp(threadId, mode, now) =>
      OverriddenNormal(state, threadId, mode, now);
      WriteInvariant(Overridden(state, threadId, mode, now), now);
    case BindDraftOp(threadId, now) =>
      if Bound(state, threadId, now).Some? {
        BoundNormal(state, threadId, now);
        WriteInvariant(Bound(state, threadId, now).value, now);
      }
  }

  /** Every state reachable from empty storage satisfies the invariant. */
  lemma {:induction false} ReachableInvariant(stored: Stored, ops: seq<Op>)
    requires stored == EMPTY || Invariant(stored)
    ensures Invariant(Run(stored, ops))
    decreases |ops|
  {
    assert Invariant(EMPTY);
    if ops != [] {
      ApplyInvariant(stored, ops[0]);
      ReachableInvariant(Apply(stored, ops[0]), ops[1..]);
    }
  }
}
