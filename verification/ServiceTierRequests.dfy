/**
  The two resolvers over the stored service-tier state: the one that rewrites
  outgoing requests, and the one behind the badge.
*/
module ServiceTierRequests {
  import opened Text
  import opened SessionKeys
  import opened RecencyTable
  import opened ServiceTierStore

  const FAST_TIER := "priority"
  const FAST_MODELS := {"gpt-5.4", "gpt-5.5"}
  const REQUEST_METHODS := {"thread/start", "thread/resume", "turn/start"}
  const MODEL_KEYS := ["model", "modelId", "model_id", "selectedModel", "selected_model", "defaultModel", "default_model",
                       "params", "request", "payload", "body", "config", "options"]

  /**
    A request is a tree: no object occurs twice in it. Numbers and objects come
    with the text that `String()` makes of them; an array is an object keyed by
    index, and its text is that of its elements, joined.
  */
  datatype Json =
    | JNull | JBool(b: bool) | JNumber(text: string) | JString(s: string)
    | JObject(fields: map<string, Json>, objectText: string)

  const OBJECT_TEXT := "[object Object]"

  /** What the resolvers read besides the store. `configTier` is the app's own default tier. */
  datatype Env = Env(controlsEnabled: bool, now: Millis, currentSession: string, currentModel: string,
                     configTier: Option<string>)

  predicate IsFastText(tier: string) {
    Normalized(tier) in {"fast", "priority"}
  }

  predicate IsFastTier(tier: Option<string>) {
    tier.Some? && IsFastText(tier.value)
  }

  /** `String(value || "")`. */
  function TierText(v: Json): string {
    if !Truthy(v) then ""
    else
      match v
      case JNull => ""
      case JBool(_) => "true"
      case JNumber(text) => text
      case JString(s) => s
      case JObject(_, text) => text
  }

  predicate IsFastJson(v: Json) {
    IsFastText(TierText(v))
  }

  predicate FastSupported(model: string) {
    Normalized(model) in FAST_MODELS
  }

  // ----------------------------------------------------------- the model name

  function ModelFromValue(v: Json, depth: nat): string
    requires depth <= 4
    decreases 4 - depth, 0, v
  {
    if v.JString? then Trim(v.s)
    else if !v.JObject? || depth > 3 then ""
    else FirstModel(v.fields, MODEL_KEYS, depth + 1)
  }

  /** The first of the keys, in order, under which a model name can be found. */
  function FirstModel(fields: map<string, Json>, keys: seq<string>, depth: nat): string
    requires depth <= 4
    decreases 4 - depth, 1 + |keys|, fields
  {
    if keys == [] then ""
    else
      var model := if keys[0] in fields then ModelFromValue(fields[keys[0]], depth) else "";
      if model != "" then model else FirstModel(fields, keys[1..], depth)
  }

  function ModelForRequest(fields: map<string, Json>, env: Env): string {
    var named := FirstModel(fields, MODEL_KEYS, 1);
    if named != "" then named else env.currentModel
  }

  // ----------------------------------------------------------- the thread id

  predicate Truthy(v: Json) {
    match v
    case JNull => false
    case JBool(b) => b
    case JNumber(text) => text !in {"0", "NaN"}
    case JString(s) => s != ""
    case JObject(_, _) => true
  }

  /** The first truthy field, or the fallback; only strings can be valid ids. */
  function FirstTruthy(fields: map<string, Json>, keys: seq<string>, fallback: string): string {
    if keys == [] then fallback
    else if keys[0] in fields && Truthy(fields[keys[0]]) then
      if fields[keys[0]].JString? then fields[keys[0]].s else ""
    else FirstTruthy(fields, keys[1..], fallback)
  }

  function ThreadKeyForRequest(env: Env, requestMethod: string, fields: map<string, Json>, hint: string): string {
    if requestMethod == "thread/start" then ValidKey(FirstTruthy(fields, ["threadId"], hint))
    else ValidKey(FirstTruthy(fields, ["threadId", "conversationId"], if hint != "" then hint else env.currentSession))
  }

  // ------------------------------------------------------------ the rewriter

  datatype Override = Override(serviceTier: Option<string>, model: string, fastBlocked: bool)

  function OverrideResult(env: Env, fields: map<string, Json>, requested: Option<string>): Override {
    var requestedFast := IsFastTier(requested);
    var model := ModelForRequest(fields, env);
    var supported := !requestedFast || FastSupported(model);
    Override(if requestedFast && supported then Some(FAST_TIER) else None, model, requestedFast && !supported)
  }

  /** Neither `undefined` nor `null`. */
  predicate Given(fields: map<string, Json>, key: string) {
    key in fields && fields[key] != JNull
  }

  /** `params.serviceTier ?? params.service_tier ?? config`. */
  function InheritedTier(env: Env, fields: map<string, Json>): Option<string> {
    if Given(fields, "serviceTier") then Some(TierText(fields["serviceTier"]))
    else if Given(fields, "service_tier") then Some(TierText(fields["service_tier"]))
    else env.configTier
  }

  function InheritedOverride(env: Env, fields: map<string, Json>): Option<Override> {
    var override := OverrideResult(env, fields, InheritedTier(env, fields));
    if override.fastBlocked then Some(override) else None
  }

  function EffectiveThreadMode(threadMode: ThreadMode, defaultMode: ThreadMode): ThreadMode {
    if threadMode != Inherit then threadMode else defaultMode
  }

  function ChosenMode(state: State, key: string, now: Millis): ThreadMode {
    if key != "" then OverrideOf(state, key)
    else if LiveDraft(state, now).Some? then LiveDraft(state, now).value.mode
    else Inherit
  }

  function OverrideForRequest(stored: Stored, env: Env, requestMethod: string, params: Json, hint: string): Option<Override> {
    if !env.controlsEnabled || requestMethod !in REQUEST_METHODS || !params.JObject? then None
    else
      var state := Read(stored, env.now);
      match state.mode
      case FollowConfig => InheritedOverride(env, params.fields)
      case GlobalStandard => Some(OverrideResult(env, params.fields, None))
      case GlobalFast => Some(OverrideResult(env, params.fields, Some(FAST_TIER)))
      case Custom =>
        var key := ThreadKeyForRequest(env, requestMethod, params.fields, hint);
        match EffectiveThreadMode(ChosenMode(state, key, env.now), state.defaultMode)
        case Inherit => InheritedOverride(env, params.fields)
        case Standard => Some(OverrideResult(env, params.fields, None))
        case Fast => Some(OverrideResult(env, params.fields, Some(FAST_TIER)))
  }

  function TierJson(tier: Option<string>): Json {
    if tier.Some? then JString(tier.value) else JNull
  }

  function WithOverride(fields: map<string, Json>, override: Override): map<string, Json> {
    var next := fields["serviceTier" := TierJson(override.serviceTier)];
    if "service_tier" in next || override.fastBlocked then next["service_tier" := TierJson(override.serviceTier)]
    else next
  }

  function Rewrite(stored: Stored, env: Env, requestMethod: string, params: Json, hint: string): Json {
    var override := OverrideForRequest(stored, env, requestMethod, params, hint);
    if override.None? then params else JObject(WithOverride(params.fields, override.value), OBJECT_TEXT)
  }

  // --------------------------------------------------------------- the badge

  datatype Badge = LoadingBadge | FailedBadge | UnsupportedBadge | FastBadge | StandardBadge

  /** The part of `codexServiceTierState` that the badge reads. */
  datatype View = View(status: string, serviceTier: Option<string>, controlMode: ControlMode, defaultMode: ThreadMode,
                       activeThreadId: string, threadMode: ThreadMode, effectiveServiceTier: Option<string>,
                       effectiveFast: bool)

  function ValueForMode(mode: ThreadMode, configTier: Option<string>): Option<string> {
    match mode
    case Fast => Some(FAST_TIER)
    case Standard => None
    case Inherit => configTier
  }

  function ValueForControlMode(control: ControlMode, threadMode: ThreadMode, defaultMode: ThreadMode,
                               configTier: Option<string>): Option<string> {
    match control
    case GlobalFast => Some(FAST_TIER)
    case GlobalStandard => None
    case Custom => ValueForMode(EffectiveThreadMode(threadMode, defaultMode), configTier)
    case FollowConfig => configTier
  }

  /** Storage after the sync: it binds the draft to the active thread. */
  function SyncStored(stored: Stored, env: Env): Stored {
    var active := ValidKey(env.currentSession);
    if env.controlsEnabled && active != "" then BindDraft(stored, active, env.now) else stored
  }

  function SyncView(view: View, stored: Stored, env: Env): View {
    if !env.controlsEnabled then
      view.(activeThreadId := "", threadMode := Inherit, effectiveServiceTier := view.serviceTier,
            effectiveFast := IsFastTier(view.serviceTier))
    else
      var active := ValidKey(env.currentSession);
      var state := Read(SyncStored(stored, env), env.now);
      var threadMode := ChosenMode(state, active, env.now);
      var tier := ValueForControlMode(state.mode, threadMode, state.defaultMode, view.serviceTier);
      view.(controlMode := state.mode, defaultMode := state.defaultMode, activeThreadId := active,
            threadMode := threadMode, effectiveServiceTier := tier, effectiveFast := IsFastTier(tier))
  }

  predicate FastAvailable(model: string) {
    Normalized(model) != "" && Normalized(model) in FAST_MODELS
  }

  function BadgeOf(view: View, backendStatus: string, currentModel: string): Badge {
    if backendStatus == "checking" then LoadingBadge
    else if backendStatus != "" && backendStatus != "ok" then FailedBadge
    else if view.status == "loading" then LoadingBadge
    else if view.status == "failed" then FailedBadge
    else if view.effectiveFast && !FastAvailable(currentModel) then UnsupportedBadge
    else if view.effectiveFast then FastBadge
    else StandardBadge
  }

  // ------------------------------------------------------- decision functions

  /** All that a request learns from the store. */
  function Decision(state: State, key: string, now: Millis): ThreadMode {
    match state.mode
    case FollowConfig => Inherit
    case GlobalStandard => Standard
    case GlobalFast => Fast
    case Custom => EffectiveThreadMode(ChosenMode(state, key, now), state.defaultMode)
  }

  function DecidedOverride(env: Env, fields: map<string, Json>, decision: ThreadMode): Option<Override> {
    match decision
    case Inherit => InheritedOverride(env, fields)
    case Standard => Some(OverrideResult(env, fields, None))
    case Fast => Some(OverrideResult(env, fields, Some(FAST_TIER)))
  }

  predicate Rewritable(env: Env, requestMethod: string, params: Json) {
    env.controlsEnabled && requestMethod in REQUEST_METHODS && params.JObject?
  }

  /** The stored state reaches a request only through the decision for its thread. */
  lemma OverrideFactors(stored: Stored, env: Env, requestMethod: string, params: Json, hint: string)
    requires Rewritable(env, requestMethod, params)
    ensures OverrideForRequest(stored, env, requestMethod, params, hint)
         == DecidedOverride(env, params.fields,
              Decision(Read(stored, env.now), ThreadKeyForRequest(env, requestMethod, params.fields, hint), env.now))
  {
  }

  lemma SameDecisionSameRewrite(a: Stored, b: Stored, env: Env, requestMethod: string, params: Json, hint: string)
    requires params.JObject? ==>
      var key := ThreadKeyForRequest(env, requestMethod, params.fields, hint);
      Decision(Read(a, env.now), key, env.now) == Decision(Read(b, env.now), key, env.now)
    ensures Rewrite(a, env, requestMethod, params, hint) == Rewrite(b, env, requestMethod, params, hint)
  {
    if Rewritable(env, requestMethod, params) {
      OverrideFactors(a, env, requestMethod, params, hint);
      OverrideFactors(b, env, requestMethod, params, hint);
    }
  }

  lemma FastTierIsFast()
    ensures IsFastTier(Some(FAST_TIER)) && IsFastText(FAST_TIER)
  {
    NormalizedName(FAST_TIER);
  }

  // -------------------------------------------------------- non-interference

  predicate TouchFits(state: State, threadId: string, mode: ThreadMode) {
    var key := ValidKey(threadId);
    key == "" || mode == Inherit || HasKey(state.entries, key) || |state.entries| < MAX_ENTRIES
  }

  lemma OverriddenElsewhere(state: State, threadId: string, mode: ThreadMode, now: Millis, key: string)
    requires Normal(state) && key != ValidKey(threadId)
    ensures key != "" ==> OverrideOf(Overridden(state, threadId, mode, now), key) == OverrideOf(state, key)
    ensures key == "" ==> Overridden(state, threadId, mode, now).draft == state.draft
  {
    if key != "" {
      var touched := ValidKey(threadId);
      var after := Overridden(state, threadId, mode, now);
      PutSpec(state.entries, Item(touched, mode, now));
      RemoveSpec(state.entries, touched);
      OverriddenNormal(state, threadId, mode, now);
      SameEntriesSameFind(after.entries, state.entries, key);
    }
  }

  lemma OverriddenDecision(state: State, threadId: string, mode: ThreadMode, setAt: Millis, key: string, now: Millis)
    requires Normal(state) && Coherent(state) && key != ValidKey(threadId)
    ensures Decision(Overridden(state, threadId, mode, setAt), key, now) == Decision(state, key, now)
  {
    OverriddenElsewhere(state, threadId, mode, setAt, key);
  }

  lemma PrunedDecision(state: State, key: string, now: Millis)
    requires Normal(state)
    requires forall x :: x in state.entries && x.key == key ==> x in Prune(state.entries, MAX_ENTRIES)
    ensures Decision(state.(entries := Prune(state.entries, MAX_ENTRIES)), key, now) == Decision(state, key, now)
  {
    PruneKeepsFind(state.entries, MAX_ENTRIES, key);
  }

  /** The rewriting of every request that survives the write unevicted is unchanged. */
  lemma UnevictedUnchanged(stored: Stored, threadId: string, mode: ThreadMode, setAt: Millis,
                           env: Env, requestMethod: string, params: Json, hint: string)
    requires Invariant(stored) && params.JObject?
    requires ThreadKeyForRequest(env, requestMethod, params.fields, hint) != ValidKey(threadId)
    requires var key := ThreadKeyForRequest(env, requestMethod, params.fields, hint);
      var entries := Overridden(Read(stored, setAt), threadId, mode, setAt).entries;
      forall x :: x in entries && x.key == key ==> x in Prune(entries, MAX_ENTRIES)
    ensures Rewrite(SetOverride(stored, threadId, mode, setAt), env, requestMethod, params, hint)
         == Rewrite(stored, env, requestMethod, params, hint)
  {
    var state := Read(stored, setAt);
    var key := ThreadKeyForRequest(env, requestMethod, params.fields, hint);
    ReadNormal(stored, setAt);
    OverriddenNormal(state, threadId, mode, setAt);
    var after := Overridden(state, threadId, mode, setAt);
    ReadAfterWrite(after, setAt, env.now);
    OverriddenDecision(state, threadId, mode, setAt, key, env.now);
    PrunedDecision(after, key, env.now);
    assert Read(stored, env.now) == state;
    SameDecisionSameRewrite(SetOverride(stored, threadId, mode, setAt), stored, env, requestMethod, params, hint);
  }

  /**
    Thread non-interference. In every reachable state, setting one thread's
    override (or the draft) leaves the rewriting of every request that resolves
    to another thread exactly as it was, provided the table has room.
  */
  lemma NonInterference(ops: seq<Op>, threadId: string, mode: ThreadMode, setAt: Millis,
                        env: Env, requestMethod: string, params: Json, hint: string)
    requires TouchFits(Read(Run(EMPTY, ops), setAt), threadId, mode)
    requires params.JObject? ==> ThreadKeyForRequest(env, requestMethod, params.fields, hint) != ValidKey(threadId)
    ensures var stored := Run(EMPTY, ops);
      Rewrite(SetOverride(stored, threadId, mode, setAt), env, requestMethod, params, hint)
      == Rewrite(stored, env, requestMethod, params, hint)
  {
    var stored := Run(EMPTY, ops);
    ReachableInvariant(EMPTY, ops);
    if params.JObject? {
      var state := Read(stored, setAt);
      ReadNormal(stored, setAt);
      OverriddenNormal(state, threadId, mode, setAt);
      PutSpec(state.entries, Item(ValidKey(threadId), mode, setAt));
      RemoveSpec(state.entries, ValidKey(threadId));
      PruneSpec(Overridden(state, threadId, mode, setAt).entries, MAX_ENTRIES);
      UnevictedUnchanged(stored, threadId, mode, setAt, env, requestMethod, params, hint);
    }
  }

  /**
    When the table is full, exactly one entry is lost, none is older than it,
    and requests of every other thread are still rewritten as before.
  */
  lemma EvictionTouchesOneThread(ops: seq<Op>, threadId: string, mode: ThreadMode, setAt: Millis) returns (victim: Item<ThreadMode>)
    requires !TouchFits(Read(Run(EMPTY, ops), setAt), threadId, mode)
    ensures var stored := Run(EMPTY, ops);
      var entries := Overridden(Read(stored, setAt), threadId, mode, setAt).entries;
      && |entries| == MAX_ENTRIES + 1 && victim in entries
      && (forall x :: x in entries ==> x.at >= victim.at)
      && forall env, requestMethod, params: Json, hint ::
           (params.JObject? ==>
              ThreadKeyForRequest(env, requestMethod, params.fields, hint) !in {ValidKey(threadId), victim.key}) ==>
           Rewrite(SetOverride(stored, threadId, mode, setAt), env, requestMethod, params, hint)
           == Rewrite(stored, env, requestMethod, params, hint)
  {
    var stored := Run(EMPTY, ops);
    ReachableInvariant(EMPTY, ops);
    var state := Read(stored, setAt);
    ReadNormal(stored, setAt);
    OverriddenNormal(state, threadId, mode, setAt);
    PutSpec(state.entries, Item(ValidKey(threadId), mode, setAt));
    var entries := Overridden(state, threadId, mode, setAt).entries;
    victim := PruneVictim(entries, MAX_ENTRIES);
    forall env: Env, requestMethod, params: Json, hint
      | params.JObject? ==>
          ThreadKeyForRequest(env, requestMethod, params.fields, hint) !in {ValidKey(threadId), victim.key}
      ensures Rewrite(SetOverride(stored, threadId, mode, setAt), env, requestMethod, params, hint)
           == Rewrite(stored, env, requestMethod, params, hint)
    {
      if params.JObject? {
        UnevictedUnchanged(stored, threadId, mode, setAt, env, requestMethod, params, hint);
      }
    }
  }

  // ------------------------------------------------------------- fast safety

  predicate SameExceptTier(a: map<string, Json>, b: map<string, Json>) {
    a - {"serviceTier", "service_tier"} == b - {"serviceTier", "service_tier"}
  }

  lemma SameLookup(a: map<string, Json>, b: map<string, Json>, key: string)
    requires SameExceptTier(a, b) && key !in {"serviceTier", "service_tier"}
    ensures key in a <==> key in b
    ensures key in a ==> a[key] == b[key]
  {
    var dropped := {"serviceTier", "service_tier"};
    assert key in a <==> key in a - dropped;
    assert key in b <==> key in b - dropped;
    if key in a {
      assert (a - dropped)[key] == (b - dropped)[key];
    }
  }

  lemma {:induction false} SameFirstModel(a: map<string, Json>, b: map<string, Json>, keys: seq<string>, depth: nat)
    requires depth <= 4 && SameExceptTier(a, b)
    requires "serviceTier" !in keys && "service_tier" !in keys
    ensures FirstModel(a, keys, depth) == FirstModel(b, keys, depth)
  {
    if keys != [] {
      assert keys[0] in keys;
      SameLookup(a, b, keys[0]);
      SameFirstModel(a, b, keys[1..], depth);
    }
  }

  lemma {:induction false} SameFirstTruthy(a: map<string, Json>, b: map<string, Json>, keys: seq<string>, fallback: string)
    requires SameExceptTier(a, b)
    requires "serviceTier" !in keys && "service_tier" !in keys
    ensures FirstTruthy(a, keys, fallback) == FirstTruthy(b, keys, fallback)
  {
    if keys != [] {
      assert keys[0] in keys;
      SameLookup(a, b, keys[0]);
      SameFirstTruthy(a, b, keys[1..], fallback);
    }
  }

  /** Requests that agree outside the tier fields have the same model and the same thread. */
  lemma SameModelAndThread(a: map<string, Json>, b: map<string, Json>, env: Env, requestMethod: string, hint: string)
    requires SameExceptTier(a, b)
    ensures ModelForRequest(a, env) == ModelForRequest(b, env)
    ensures ThreadKeyForRequest(env, requestMethod, a, hint) == ThreadKeyForRequest(env, requestMethod, b, hint)
  {
    SameFirstModel(a, b, MODEL_KEYS, 1);
    var fallback := if hint != "" then hint else env.currentSession;
    SameFirstTruthy(a, b, ["threadId"], hint);
    SameFirstTruthy(a, b, ["threadId", "conversationId"], fallback);
  }

  /** A request is sent as fast if either field says so, or both are absent and the config does. */
  predicate SentFast(env: Env, fields: map<string, Json>) {
    || ("serviceTier" in fields && IsFastJson(fields["serviceTier"]))
    || ("service_tier" in fields && IsFastJson(fields["service_tier"]))
    || ("serviceTier" !in fields && "service_tier" !in fields && IsFastTier(env.configTier))
  }

  /** The two spellings disagree: the one that is read is not fast, the other one is. */
  predicate Conflict(fields: map<string, Json>) {
    Given(fields, "serviceTier") && !IsFastJson(fields["serviceTier"]) &&
    "service_tier" in fields && IsFastJson(fields["service_tier"])
  }

  function DecidedFields(env: Env, fields: map<string, Json>, decision: ThreadMode): map<string, Json> {
    var override := DecidedOverride(env, fields, decision);
    if override.None? then fields else WithOverride(fields, override.value)
  }

  lemma DecidedFieldsKeepRest(env: Env, fields: map<string, Json>, decision: ThreadMode)
    ensures SameExceptTier(DecidedFields(env, fields, decision), fields)
  {
  }

  lemma DecidedFast(env: Env, fields: map<string, Json>, decision: ThreadMode)
    ensures SentFast(env, DecidedFields(env, fields, decision)) && !FastSupported(ModelForRequest(fields, env))
       <==> decision == Inherit && Conflict(fields) && !FastSupported(ModelForRequest(fields, env))
  {
  }

  lemma RewriteIsDecided(stored: Stored, env: Env, requestMethod: string, params: Json, hint: string)
    requires Rewritable(env, requestMethod, params)
    ensures var rewritten := Rewrite(stored, env, requestMethod, params, hint);
      rewritten.JObject? && rewritten.fields
        == DecidedFields(env, params.fields,
             Decision(Read(stored, env.now), ThreadKeyForRequest(env, requestMethod, params.fields, hint), env.now))
  {
    OverrideFactors(stored, env, requestMethod, params, hint);
  }

  /**
    Fast safety, exactly: with the controls on, a rewritten request goes out as
    fast for an unsupported model if and only if the tier is inherited and the
    request itself carries conflicting spellings.
  */
  lemma FastOnlyWhenSupported(stored: Stored, env: Env, requestMethod: string, params: Json, hint: string)
    requires Rewritable(env, requestMethod, params)
    ensures var rewritten, fields := Rewrite(stored, env, requestMethod, params, hint), params.fields;
      var key := ThreadKeyForRequest(env, requestMethod, fields, hint);
      && rewritten.JObject?
      && SameExceptTier(rewritten.fields, fields)
      && ModelForRequest(rewritten.fields, env) == ModelForRequest(fields, env)
      && (SentFast(env, rewritten.fields) && !FastSupported(ModelForRequest(rewritten.fields, env))
          <==> Decision(Read(stored, env.now), key, env.now) == Inherit && Conflict(fields)
               && !FastSupported(ModelForRequest(fields, env)))
  {
    var fields := params.fields;
    var decision := Decision(Read(stored, env.now), ThreadKeyForRequest(env, requestMethod, fields, hint), env.now);
    RewriteIsDecided(stored, env, requestMethod, params, hint);
    DecidedFieldsKeepRest(env, fields, decision);
    SameModelAndThread(DecidedFields(env, fields, decision), fields, env, requestMethod, hint);
    DecidedFast(env, fields, decision);
  }

  lemma TierTexts(slow: string, fast: string)
    requires slow == "standard" && fast == "fast"
    ensures !IsFastJson(JString(slow)) && IsFastJson(JString(fast))
  {
    NormalizedName(slow);
    NormalizedName(fast);
  }

  lemma FastBesideStandard(fields: map<string, Json>, slow: Json, fast: Json)
    requires slow.JString? && !IsFastJson(slow) && IsFastJson(fast)
    requires fields == map["serviceTier" := slow, "service_tier" := fast]
    ensures Conflict(fields)
  {
    assert fields["serviceTier"] == slow && fields["service_tier"] == fast;
  }

  lemma TiersNameNoModel(fields: map<string, Json>)
    requires fields.Keys == {"serviceTier", "service_tier"}
    ensures forall key :: key in MODEL_KEYS ==> key !in fields
  {
  }

  lemma UnsupportedModel(fields: map<string, Json>, env: Env)
    requires env.currentModel == "gpt-5" && forall key :: key in MODEL_KEYS ==> key !in fields
    ensures !FastSupported(ModelForRequest(fields, env))
  {
    NoModel(fields, MODEL_KEYS, 1);
    NormalizedName(env.currentModel);
  }

  /** The conflict on an empty store: the request of an unsupported model goes out with its fast spelling. */
  lemma ConflictSendsFast(env: Env, stored: Stored, params: Json, slow: string, fast: string)
    requires env.controlsEnabled && env.currentModel == "gpt-5" && stored == EMPTY
    requires slow == "standard" && fast == "fast"
    requires params == JObject(map["serviceTier" := JString(slow), "service_tier" := JString(fast)], OBJECT_TEXT)
    ensures var rewritten := Rewrite(stored, env, "turn/start", params, "");
      && rewritten.JObject? && SentFast(env, rewritten.fields)
      && !FastSupported(ModelForRequest(rewritten.fields, env))
  {
    TierTexts(slow, fast);
    FastBesideStandard(params.fields, JString(slow), JString(fast));
    TiersNameNoModel(params.fields);
    UnsupportedModel(params.fields, env);
    EmptyFollowsConfig(stored, env.now);
    ConflictIsSent(stored, env, "turn/start", params, "");
  }

  lemma ConflictIsSent(stored: Stored, env: Env, requestMethod: string, params: Json, hint: string)
    requires Rewritable(env, requestMethod, params) && Conflict(params.fields)
    requires !FastSupported(ModelForRequest(params.fields, env))
    requires forall key :: Decision(Read(stored, env.now), key, env.now) == Inherit
    ensures var rewritten := Rewrite(stored, env, requestMethod, params, hint);
      && rewritten.JObject? && SentFast(env, rewritten.fields)
      && !FastSupported(ModelForRequest(rewritten.fields, env))
  {
    FastOnlyWhenSupported(stored, env, requestMethod, params, hint);
  }

  lemma EmptyFollowsConfig(stored: Stored, now: Millis)
    requires stored == EMPTY
    ensures forall key :: Decision(Read(stored, now), key, now) == Inherit
  {
    assert Read(stored, now).mode == FollowConfig;
  }

  lemma {:induction false} NoModel(fields: map<string, Json>, keys: seq<string>, depth: nat)
    requires depth <= 4 && forall key :: key in keys ==> key !in fields
    ensures FirstModel(fields, keys, depth) == ""
  {
    if keys != [] {
      assert keys[0] in keys;
      NoModel(fields, keys[1..], depth);
    }
  }

  lemma DecidedTwice(env: Env, fields: map<string, Json>, decision: ThreadMode)
    requires ModelForRequest(DecidedFields(env, fields, decision), env) == ModelForRequest(fields, env)
    ensures DecidedFields(env, DecidedFields(env, fields, decision), decision) == DecidedFields(env, fields, decision)
  {
  }

  /** Rewriting an already rewritten request changes nothing, for every state and request. */
  lemma RewriteIdempotent(stored: Stored, env: Env, requestMethod: string, params: Json, hint: string)
    ensures var once := Rewrite(stored, env, requestMethod, params, hint);
      Rewrite(stored, env, requestMethod, once, hint) == once
  {
    if Rewritable(env, requestMethod, params) {
      var fields := params.fields;
      var decision := Decision(Read(stored, env.now), ThreadKeyForRequest(env, requestMethod, fields, hint), env.now);
      var once := DecidedFields(env, fields, decision);
      RewriteIsDecided(stored, env, requestMethod, params, hint);
      DecidedFieldsKeepRest(env, fields, decision);
      SameModelAndThread(once, fields, env, requestMethod, hint);
      RewriteIsDecided(stored, env, requestMethod, Rewrite(stored, env, requestMethod, params, hint), hint);
      DecidedTwice(env, fields, decision);
    }
  }

  // ------------------------------------------------------ badge refines wire

  /** The tier a request gets: explicit null means standard, absence means the config's tier. */
  predicate WireFast(env: Env, fields: map<string, Json>) {
    if "serviceTier" in fields then IsFastJson(fields["serviceTier"])
    else if "service_tier" in fields then IsFastJson(fields["service_tier"])
    else IsFastTier(env.configTier)
  }

  /** A request that leaves model and tier to the controls. */
  predicate PlainRequest(env: Env, requestMethod: string, params: Json) {
    && Rewritable(env, requestMethod, params)
    && FirstModel(params.fields, MODEL_KEYS, 1) == ""
    && "serviceTier" !in params.fields && "service_tier" !in params.fields
  }

  predicate DecidedFastMode(configTier: Option<string>, decision: ThreadMode) {
    decision == Fast || (decision == Inherit && IsFastTier(configTier))
  }

  lemma TierOfDecision(state: State, key: string, now: Millis, configTier: Option<string>)
    ensures IsFastTier(ValueForControlMode(state.mode, ChosenMode(state, key, now), state.defaultMode, configTier))
         == DecidedFastMode(configTier, Decision(state, key, now))
  {
    FastTierIsFast();
  }

  /** The synced view shows as fast exactly what the decision for the active thread makes fast. */
  lemma SyncReflects(view: View, stored: Stored, env: Env)
    requires env.controlsEnabled
    ensures var synced := SyncView(view, stored, env);
      var state := Read(SyncStored(stored, env), env.now);
      && synced.status == view.status
      && synced.effectiveFast
         == DecidedFastMode(view.serviceTier, Decision(state, ValidKey(env.currentSession), env.now))
  {
    TierOfDecision(Read(SyncStored(stored, env), env.now), ValidKey(env.currentSession), env.now, view.serviceTier);
  }

  lemma DecidedWire(env: Env, fields: map<string, Json>, decision: ThreadMode)
    requires "serviceTier" !in fields && "service_tier" !in fields
    ensures var override := DecidedOverride(env, fields, decision);
      var supported := FastSupported(ModelForRequest(fields, env));
      && (override.Some? && override.value.fastBlocked <==> DecidedFastMode(env.configTier, decision) && !supported)
      && (WireFast(env, DecidedFields(env, fields, decision)) <==> DecidedFastMode(env.configTier, decision) && supported)
  {
    FastTierIsFast();
  }

  /** What is sent is fast, kept from being fast, or standard, as the badge says. */
  predicate Tells(badge: Badge, stored: Stored, env: Env, requestMethod: string, params: Json, hint: string)
    requires Rewritable(env, requestMethod, params)
  {
    var override := OverrideForRequest(stored, env, requestMethod, params, hint);
    var fast := WireFast(env, Rewrite(stored, env, requestMethod, params, hint).fields);
    var blocked := override.Some? && override.value.fastBlocked;
    && (badge == FastBadge <==> fast)
    && (badge == UnsupportedBadge <==> blocked)
    && (badge == StandardBadge <==> !fast && !blocked)
  }

  /** Whether the store decides for fast, for a thread (or the draft) at a time. */
  predicate DecidesFast(stored: Stored, configTier: Option<string>, key: string, now: Millis) {
    DecidedFastMode(configTier, Decision(Read(stored, now), key, now))
  }

  /** The badge after a sync, held against any later request that leaves the rest to the controls. */
  lemma BadgeTellsIff(view: View, stored: Stored, env: Env, later: Millis, requestMethod: string, params: Json, hint: string)
    requires PlainRequest(env, requestMethod, params) && env.configTier == view.serviceTier
    requires view.status != "loading" && view.status != "failed"
    ensures var synced, badge := SyncStored(stored, env), BadgeOf(SyncView(view, stored, env), "ok", env.currentModel);
      Tells(badge, synced, env.(now := later), requestMethod, params, hint)
      <==> DecidesFast(synced, env.configTier, ValidKey(env.currentSession), env.now)
           == DecidesFast(synced, env.configTier, ThreadKeyForRequest(env, requestMethod, params.fields, hint), later)
  {
    var synced, sending := SyncStored(stored, env), env.(now := later);
    var decision := Decision(Read(synced, later), ThreadKeyForRequest(env, requestMethod, params.fields, hint), later);
    assert ModelForRequest(params.fields, sending) == env.currentModel;
    assert ThreadKeyForRequest(sending, requestMethod, params.fields, hint)
        == ThreadKeyForRequest(env, requestMethod, params.fields, hint);
    RewriteIsDecided(synced, sending, requestMethod, params, hint);
    OverrideFactors(synced, sending, requestMethod, params, hint);
    SyncReflects(view, stored, env);
    DecidedWire(sending, params.fields, decision);
  }

  /** A live draft that decides otherwise than the default is too old to count at the later time. */
  predicate DraftLapses(stored: Stored, configTier: Option<string>, now: Millis, later: Millis) {
    var state := Read(stored, now);
    && state.mode == Custom
    && LiveDraft(state, now).Some? && LiveDraft(Read(stored, later), later).None?
    && DecidedFastMode(configTier, LiveDraft(state, now).value.mode) != DecidedFastMode(configTier, state.defaultMode)
  }

  lemma DecisionLater(stored: Stored, configTier: Option<string>, key: string, now: Millis, later: Millis)
    requires now <= later
    ensures DecidesFast(stored, configTier, key, now) == DecidesFast(stored, configTier, key, later)
       <==> key != "" || !DraftLapses(stored, configTier, now, later)
  {
    ReadTimeless(stored, now, later, key);
    ReadNormal(stored, now);
    if LiveDraft(Read(stored, later), later).Some? {
      DraftOnlyFades(stored, now, later);
    }
  }

  /**
    After a sync the badge tells the truth about every later plain request that
    resolves to the synced thread, for every stored text, view and config tier.
    Without a thread it tells the truth about the draft exactly until a draft that
    makes a difference lapses.
  */
  lemma BadgeRefinesWire(view: View, stored: Stored, env: Env, later: Millis, requestMethod: string, params: Json, hint: string)
    requires PlainRequest(env, requestMethod, params) && env.configTier == view.serviceTier
    requires view.status != "loading" && view.status != "failed" && env.now <= later
    requires ThreadKeyForRequest(env, requestMethod, params.fields, hint) == ValidKey(env.currentSession)
    ensures var badge := BadgeOf(SyncView(view, stored, env), "ok", env.currentModel);
      Tells(badge, SyncStored(stored, env), env.(now := later), requestMethod, params, hint)
      <==> ValidKey(env.currentSession) != "" || !DraftLapses(stored, env.configTier, env.now, later)
  {
    BadgeTellsIff(view, stored, env, later, requestMethod, params, hint);
    DecisionLater(SyncStored(stored, env), env.configTier, ValidKey(env.currentSession), env.now, later);
  }

  /** After a sync no live draft is left for the active thread, so a second sync writes nothing. */
  lemma SyncTwice(stored: Stored, env: Env)
    requires env.controlsEnabled && ValidKey(env.currentSession) != ""
    ensures LiveDraft(Read(SyncStored(stored, env), env.now), env.now) == None
  {
    var key, state := ValidKey(env.currentSession), Read(stored, env.now);
    ValidKeyStable(env.currentSession);
    ReadNormal(stored, env.now);
    var bound := Bound(state, key, env.now);
    if bound.Some? {
      PutSpec(state.entries, Item(key, LiveDraft(state, env.now).value.mode, env.now));
      ReadAfterWrite(bound.value, env.now, env.now);
    }
  }

  /**
    A request that resolves to the draft while a thread is shown, as `thread/start`
    without ids does: the badge speaks for it exactly if the thread's own override
    makes no difference to the default.
  */
  lemma StartBadgeIff(view: View, stored: Stored, env: Env, later: Millis, requestMethod: string, params: Json, hint: string)
    requires PlainRequest(env, requestMethod, params) && env.configTier == view.serviceTier
    requires view.status != "loading" && view.status != "failed" && env.now <= later
    requires ValidKey(env.currentSession) != "" && ThreadKeyForRequest(env, requestMethod, params.fields, hint) == ""
    ensures var badge, synced := BadgeOf(SyncView(view, stored, env), "ok", env.currentModel), SyncStored(stored, env);
      var state := Read(synced, env.now);
      var own := EffectiveThreadMode(OverrideOf(state, ValidKey(env.currentSession)), state.defaultMode);
      Tells(badge, synced, env.(now := later), requestMethod, params, hint)
      <==> state.mode != Custom || DecidedFastMode(env.configTier, own) == DecidedFastMode(env.configTier, state.defaultMode)
  {
    var synced := SyncStored(stored, env);
    BadgeTellsIff(view, stored, env, later, requestMethod, params, hint);
    SyncTwice(stored, env);
    ReadTimeless(synced, env.now, later, "");
    if LiveDraft(Read(synced, later), later).Some? {
      DraftOnlyFades(synced, env.now, later);
    }
  }

  // ----------------------------------------------- where badge and wire part

  const NO_VIEW := View("ok", None, FollowConfig, Inherit, "", Inherit, None, false)

  lemma NoFieldsNameNothing(fields: map<string, Json>, keys: seq<string>, fallback: string)
    requires fields == map[]
    ensures FirstModel(fields, MODEL_KEYS, 1) == ""
    ensures FirstTruthy(fields, keys, fallback) == fallback
  {
    NoModel(fields, MODEL_KEYS, 1);
  }

  lemma NoFieldsArePlain(env: Env, params: Json)
    requires env.controlsEnabled && params == JObject(map[], OBJECT_TEXT)
    ensures PlainRequest(env, "thread/start", params)
    ensures ThreadKeyForRequest(env, "thread/start", params.fields, "") == ""
  {
    NoFieldsNameNothing(params.fields, ["threadId"], "");
    ValidKeyStable("");
  }

  lemma ReadBack(state: State, at: Millis, later: Millis)
    requires Normal(state) && |state.entries| <= 1
    ensures Read(Write(state, at), later) == state
  {
    ReadAfterWrite(state, at, later);
    PruneFew(state.entries, MAX_ENTRIES);
  }

  lemma SupportedModel(model: string)
    requires model == "gpt-5.5"
    ensures FastAvailable(model)
  {
    NormalizedName(model);
  }

  /** A decision for fast shows, for a model that supports it. */
  lemma ShownFast(view: View, stored: Stored, env: Env)
    requires env.controlsEnabled && view == NO_VIEW && env.currentModel == "gpt-5.5"
    requires DecidesFast(SyncStored(stored, env), None, ValidKey(env.currentSession), env.now)
    ensures BadgeOf(SyncView(view, stored, env), "ok", env.currentModel) == FastBadge
  {
    SupportedModel(env.currentModel);
    SyncReflects(view, stored, env);
  }

  lemma LapseMatters(stored: Stored, state: State, now: Millis, later: Millis)
    requires now == 60001 && later == 60002 && state == State(Custom, Inherit, [], Some(Draft(Fast, 1)))
    requires Read(stored, now) == Read(stored, later) == state
    ensures DraftLapses(stored, None, now, later) && DecidesFast(stored, None, "", now)
  {
  }

  lemma FastIsShownNotSent(view: View, stored: Stored, env: Env, later: Millis, requestMethod: string, params: Json, hint: string)
    requires PlainRequest(env, requestMethod, params) && env.configTier == None && env.currentModel == "gpt-5.5"
    requires view == NO_VIEW && DecidesFast(SyncStored(stored, env), None, ValidKey(env.currentSession), env.now)
    requires !DecidesFast(SyncStored(stored, env), None, ThreadKeyForRequest(env, requestMethod, params.fields, hint), later)
    ensures BadgeOf(SyncView(view, stored, env), "ok", env.currentModel) == FastBadge
    ensures !Tells(FastBadge, SyncStored(stored, env), env.(now := later), requestMethod, params, hint)
  {
    ShownFast(view, stored, env);
    BadgeTellsIff(view, stored, env, later, requestMethod, params, hint);
  }

  /** A fast draft that is 60 seconds old at the sync, and a millisecond older when the thread is started. */
  lemma LapsedDraft(env: Env, later: Millis, state: State, view: View, params: Json, written: Millis)
    requires env == Env(true, 60001, "", "gpt-5.5", None) && later == 60002 && view == NO_VIEW && written == 1
    requires state == State(Custom, Inherit, [], Some(Draft(Fast, 1))) && params == JObject(map[], OBJECT_TEXT)
    ensures var stored := Write(state, written);
      && BadgeOf(SyncView(view, stored, env), "ok", env.currentModel) == FastBadge
      && PlainRequest(env, "thread/start", params)
      && !Tells(FastBadge, SyncStored(stored, env), env.(now := later), "thread/start", params, "")
  {
    ReadBack(state, written, env.now);
    ReadBack(state, written, later);
    NoFieldsArePlain(env, params);
    NoSession(env, Write(state, written));
    LapseMatters(Write(state, written), state, env.now, later);
    DecisionLater(Write(state, written), None, "", env.now, later);
    FastIsShownNotSent(view, Write(state, written), env, later, "thread/start", params, "");
  }

  lemma NoSession(env: Env, stored: Stored)
    requires env.currentSession == ""
    ensures ValidKey(env.currentSession) == "" && SyncStored(stored, env) == stored
  {
    ValidKeyStable("");
  }

  lemma OtherThreadMatters(env: Env, stored: Stored, state: State, key: string)
    requires env.currentSession == key && Valid(key) && Read(stored, env.now) == state
    requires state == State(Custom, Inherit, [Item(key, Fast, 1)], None)
    ensures SyncStored(stored, env) == stored
    ensures DecidesFast(stored, None, key, env.now) && !DecidesFast(stored, None, "", env.now)
  {
    assert LiveDraft(state, env.now) == None;
    assert OverrideOf(state, key) == Fast;
  }

  /** A thread set to fast is shown, but the thread that the request starts is not set to anything. */
  lemma StartedElsewhere(env: Env, key: string, state: State, view: View, params: Json, written: Millis)
    requires env == Env(true, 2, key, "gpt-5.5", None) && view == NO_VIEW && Valid(key) && written == 1
    requires state == State(Custom, Inherit, [Item(key, Fast, 1)], None) && params == JObject(map[], OBJECT_TEXT)
    ensures var stored := Write(state, written);
      && BadgeOf(SyncView(view, stored, env), "ok", env.currentModel) == FastBadge
      && PlainRequest(env, "thread/start", params)
      && !Tells(FastBadge, SyncStored(stored, env), env, "thread/start", params, "")
  {
    ReadBack(state, written, env.now);
    NoFieldsArePlain(env, params);
    OtherThreadMatters(env, Write(state, written), state, key);
    FastIsShownNotSent(view, Write(state, written), env, env.now, "thread/start", params, "");
  }
}
