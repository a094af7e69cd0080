/**
  Loading the defaults of an upstream branch: a cache with a lifetime per kind of
  key, in front of requests of which each key has at most one under way.

  A request's promise settles in two steps, the `then` callback and the `finally`
  callback, and calls may come in between; the steps here are those callbacks.
 */
module UpstreamDefaultsCache {

  import opened Text

  const REPO_TTL := 5000
  const PROJECT_TTL := 30000

  /** The argument of a load: a path, or an object, or nothing. */
  datatype Context = Nowhere | Path(path: string) | Project(repoPath: string, projectId: string)

  function RepoPath(context: Context): string {
    match context
    case Nowhere => ""
    case Path(path) => path
    case Project(repoPath, _) => repoPath
  }

  function ProjectId(context: Context): string {
    if context.Project? then context.projectId else ""
  }

  function CacheKey(repoPath: string, projectId: string): string {
    if projectId != "" then "project:" + projectId else "repo:" + repoPath
  }

  function KeyOf(context: Context): string {
    CacheKey(RepoPath(context), ProjectId(context))
  }

  function Ttl(context: Context): int {
    if ProjectId(context) != "" then PROJECT_TTL else REPO_TTL
  }

  predicate Asks(context: Context) {
    RepoPath(context) != "" || ProjectId(context) != ""
  }

  /** An answer of the backend: whether its status is ok, and the rest of it. */
  datatype Result = Result(ok: bool, body: string)

  datatype Entry = Entry(repoPath: string, projectId: string, result: Result, loadedAt: int)

  /** Waiting for the backend; `then` has run; the backend failed, so `then` was skipped; `finally` has run. */
  datatype Phase = Waiting | Answered | Failed | Finished

  /** A request that was sent, and what `then` made of its answer. */
  datatype Request = Request(context: Context, phase: Phase, entry: Option<Entry>)

  /** The two maps, and the log of all requests; a request is known by its place in the log. */
  datatype State = State(cache: map<string, Entry>, inflight: map<string, nat>, requests: seq<Request>)

  const EMPTY := State(map[], map[], [])

  datatype Answer = Nothing | Cached(entry: Entry) | Joined(request: nat) | Started(request: nat)

  // ----------------------------------------------------------------- steps

  predicate Fresh(cache: map<string, Entry>, context: Context, now: int) {
    KeyOf(context) in cache && now - cache[KeyOf(context)].loadedAt < Ttl(context)
  }

  function Load(s: State, context: Context, now: int): (State, Answer) {
    var key := KeyOf(context);
    if !Asks(context) then (s, Nothing)
    else if Fresh(s.cache, context, now) then (s, Cached(s.cache[key]))
    else if key in s.inflight then (s, Joined(s.inflight[key]))
    else
      (s.(inflight := s.inflight[key := |s.requests|], requests := s.requests + [Request(context, Waiting, None)]),
       Started(|s.requests|))
  }

  function EntryOf(context: Context, result: Result, now: int): Entry {
    Entry(RepoPath(context), ProjectId(context), result, now)
  }

  function Then(s: State, id: nat, result: Result, now: int): State
    requires id < |s.requests|
  {
    var context := s.requests[id].context;
    var entry := EntryOf(context, result, now);
    s.(cache := if result.ok then s.cache[KeyOf(context) := entry] else s.cache,
       requests := s.requests[id := Request(context, Answered, Some(entry))])
  }

  function Fail(s: State, id: nat): State
    requires id < |s.requests|
  {
    s.(requests := s.requests[id := s.requests[id].(phase := Failed)])
  }

  function Finally(s: State, id: nat): State
    requires id < |s.requests|
  {
    s.(inflight := s.inflight - {KeyOf(s.requests[id].context)},
       requests := s.requests[id := s.requests[id].(phase := Finished)])
  }

  datatype Event =
    | OnLoad(context: Context, now: int) | OnThen(id: nat, result: Result, now: int)
    | OnFail(id: nat) | OnFinally(id: nat)

  /** A promise settles once, and runs `finally` once after that. */
  predicate Possible(s: State, event: Event) {
    match event
    case OnLoad(_, _) => true
    case OnThen(id, _, _) => id < |s.requests| && s.requests[id].phase == Waiting
    case OnFail(id) => id < |s.requests| && s.requests[id].phase == Waiting
    case OnFinally(id) => id < |s.requests| && s.requests[id].phase in {Answered, Failed}
  }

  function Step(s: State, event: Event): State
    requires Possible(s, event)
  {
    match event
    case OnLoad(context, now) => Load(s, context, now).0
    case OnThen(id, result, now) => Then(s, id, result, now)
    case OnFail(id) => Fail(s, id)
    case OnFinally(id) => Finally(s, id)
  }

  /** `run[i]` is followed by `events[i]`. */
  ghost predicate IsRun(run: seq<State>, events: seq<Event>) {
    && |run| == |events| + 1 && run[0] == EMPTY
    && forall i :: 0 <= i < |events| ==> Possible(run[i], events[i]) && run[i + 1] == Step(run[i], events[i])
  }

  // ------------------------------------------------------------ the program

  class Loader {
    var cache: map<string, Entry>
    var inflight: map<string, nat>
    var requests: seq<Request>

    function Now(): State
      reads this
    {
      State(cache, inflight, requests)
    }

    constructor ()
      ensures Now() == EMPTY
    {
      cache, inflight, requests := map[], map[], [];
    }

    method LoadUpstreamBranchDefaults(context: Context, now: int) returns (answer: Answer)
      modifies this
      ensures (Now(), answer) == Load(old(Now()), context, now)
    {
      if !Asks(context) {
        return Nothing;
      }
      var key := KeyOf(context);
      if key in cache && now - cache[key].loadedAt < Ttl(context) {
        return Cached(cache[key]);
      }
      if key in inflight {
        return Joined(inflight[key]);
      }
      var request := |requests|;
      requests := requests + [Request(context, Waiting, None)];
      inflight := inflight[key := request];
      return Started(request);
    }

    method OnAnswer(id: nat, result: Result, now: int)
      requires Possible(Now(), OnThen(id, result, now))
      modifies this
      ensures Now() == Then(old(Now()), id, result, now)
    {
      var context := requests[id].context;
      var entry := EntryOf(context, result, now);
      if result.ok {
        cache := cache[KeyOf(context) := entry];
      }
      requests := requests[id := Request(context, Answered, Some(entry))];
    }

    method OnSettled(id: nat)
      requires Possible(Now(), OnFinally(id))
      modifies this
      ensures Now() == Finally(old(Now()), id)
    {
      inflight := inflight - {KeyOf(requests[id].context)};
      requests := requests[id := requests[id].(phase := Finished)];
    }
  }

  // ------------------------------------------------------------- properties

  /** Two loads share a key iff they name the same project, or name none and the same path. */
  lemma KeysSeparate(a: Context, b: Context)
    ensures KeyOf(a) == KeyOf(b)
       <==> ProjectId(a) == ProjectId(b) && (ProjectId(a) == "" ==> RepoPath(a) == RepoPath(b))
  {
    var left, right := KeyOf(a), KeyOf(b);
    assert left[0] == if ProjectId(a) != "" then 'p' else 'r';
    assert right[0] == if ProjectId(b) != "" then 'p' else 'r';
    if ProjectId(a) != "" && ProjectId(b) != "" {
      assert left[8..] == ProjectId(a) && right[8..] == ProjectId(b);
    } else if ProjectId(a) == "" && ProjectId(b) == "" {
      assert left[5..] == RepoPath(a) && right[5..] == RepoPath(b);
    }
  }

  predicate Outstanding(request: Request) {
    request.phase != Finished
  }

  /** The newest ok answer for a key, by the order of the requests. */
  function Newest(requests: seq<Request>, key: string): Option<Entry>
    decreases |requests|
  {
    if |requests| == 0 then None
    else
      var last := requests[|requests| - 1];
      if KeyOf(last.context) == key && last.entry.Some? && last.entry.value.result.ok then last.entry
      else Newest(requests[..|requests| - 1], key)
  }

  function Lookup(cache: map<string, Entry>, key: string): Option<Entry> {
    if key in cache then Some(cache[key]) else None
  }

  /** The requests of a key follow one another: all but the newest have finished. */
  ghost predicate OneAtATime(requests: seq<Request>) {
    forall a, b :: 0 <= a < b < |requests| && KeyOf(requests[a].context) == KeyOf(requests[b].context) ==>
      !Outstanding(requests[a])
  }

  /** The in-flight map holds exactly the keys of the outstanding requests, each with its request. */
  ghost predicate InflightRight(s: State) {
    && (forall id :: 0 <= id < |s.requests| && Outstanding(s.requests[id]) ==>
          KeyOf(s.requests[id].context) in s.inflight && s.inflight[KeyOf(s.requests[id].context)] == id)
    && (forall key :: key in s.inflight ==>
          var id := s.inflight[key];
          id < |s.requests| && Outstanding(s.requests[id]) && KeyOf(s.requests[id].context) == key)
  }

  /** The cache holds, for each key, the newest ok answer ever received for it. */
  ghost predicate CacheRight(s: State) {
    forall key :: Lookup(s.cache, key) == Newest(s.requests, key)
  }

  ghost predicate EntriesRight(s: State) {
    forall id :: 0 <= id < |s.requests| ==>
      var request := s.requests[id];
      && (request.phase == Waiting ==> request.entry == None)
      && (request.entry.Some? ==>
            request.entry.value.repoPath == RepoPath(request.context)
            && request.entry.value.projectId == ProjectId(request.context))
  }

  ghost predicate Invariant(s: State) {
    OneAtATime(s.requests) && InflightRight(s) && CacheRight(s) && EntriesRight(s)
  }

  lemma {:induction false} NewestOfOthers(requests: seq<Request>, id: nat, request: Request, key: string)
    requires id < |requests| && KeyOf(requests[id].context) == KeyOf(request.context)
    requires KeyOf(request.context) != key || requests[id].entry == request.entry
    ensures Newest(requests[id := request], key) == Newest(requests, key)
    decreases |requests|
  {
    var n := |requests| - 1;
    var next := requests[id := request];
    if id < n {
      assert next[..n] == requests[..n][id := request] && next[n] == requests[n];
      NewestOfOthers(requests[..n], id, request, key);
    } else {
      assert next[..n] == requests[..n] && next[n] == request;
    }
  }

  /** An ok answer of a key's newest request is the newest ok answer. */
  lemma {:induction false} NewestOfKey(requests: seq<Request>, id: nat, request: Request)
    requires id < |requests| && request.entry.Some?
    requires forall b :: id < b < |requests| ==> KeyOf(requests[b].context) != KeyOf(request.context)
    ensures Newest(requests[id := request], KeyOf(request.context))
         == if request.entry.value.result.ok then request.entry else Newest(requests[..id], KeyOf(request.context))
    decreases |requests|
  {
    var n := |requests| - 1;
    if id < n {
      assert requests[id := request][..n] == requests[..n][id := request];
      assert requests[..n][..id] == requests[..id];
      NewestOfKey(requests[..n], id, request);
    } else {
      assert requests[id := request][..n] == requests[..n];
    }
  }

  lemma {:induction false} NewestSkips(requests: seq<Request>, id: nat, key: string)
    requires id < |requests| && requests[id].entry == None
    requires forall b :: id < b < |requests| ==> KeyOf(requests[b].context) != key
    ensures Newest(requests, key) == Newest(requests[..id], key)
    decreases |requests|
  {
    var n := |requests| - 1;
    if id < n {
      assert requests[..n][..id] == requests[..id];
      NewestSkips(requests[..n], id, key);
    }
  }

  lemma LoadKeeps(s: State, context: Context, now: int)
    requires Invariant(s)
    ensures Invariant(Load(s, context, now).0)
  {
    var next := Load(s, context, now).0;
    if next != s {
      var request := Request(context, Waiting, None);
      assert next.requests == s.requests + [request];
      SendKeepsFlight(s, next, request);
      SendKeepsCache(s, next, request);
    }
  }

  lemma SendKeepsFlight(s: State, next: State, request: Request)
    requires OneAtATime(s.requests) && InflightRight(s) && KeyOf(request.context) !in s.inflight
    requires request.phase == Waiting && next.requests == s.requests + [request]
    requires next.inflight == s.inflight[KeyOf(request.context) := |s.requests|]
    ensures OneAtATime(next.requests) && InflightRight(next)
  {
  }

  lemma SendKeepsCache(s: State, next: State, request: Request)
    requires CacheRight(s) && EntriesRight(s) && request.entry == None
    requires next.requests == s.requests + [request] && next.cache == s.cache
    ensures CacheRight(next) && EntriesRight(next)
  {
  }

  lemma ThenKeeps(s: State, id: nat, result: Result, now: int)
    requires Invariant(s) && Possible(s, OnThen(id, result, now))
    ensures Invariant(Then(s, id, result, now))
  {
    var next, key := Then(s, id, result, now), KeyOf(s.requests[id].context);
    var request := next.requests[id];
    forall other
      ensures Lookup(next.cache, other) == Newest(next.requests, other)
    {
      assert Lookup(s.cache, other) == Newest(s.requests, other);
      if other == key {
        NewestOfKey(s.requests, id, request);
        NewestSkips(s.requests, id, key);
      } else {
        NewestOfOthers(s.requests, id, request, other);
      }
    }
  }

  lemma PhaseKeepsCache(s: State, next: State, id: nat, phase: Phase)
    requires CacheRight(s) && EntriesRight(s) && id < |s.requests| && phase != Waiting
    requires next.cache == s.cache && next.requests == s.requests[id := s.requests[id].(phase := phase)]
    ensures CacheRight(next) && EntriesRight(next)
  {
    forall key
      ensures Lookup(next.cache, key) == Newest(next.requests, key)
    {
      assert Lookup(s.cache, key) == Newest(s.requests, key);
      NewestOfOthers(s.requests, id, next.requests[id], key);
    }
  }

  lemma FailKeeps(s: State, id: nat)
    requires Invariant(s) && Possible(s, OnFail(id))
    ensures Invariant(Fail(s, id))
  {
    PhaseKeepsCache(s, Fail(s, id), id, Failed);
  }

  /** The `finally` callback deletes by key, and what it deletes is its own request. */
  lemma FinallyKeeps(s: State, id: nat)
    requires Invariant(s) && Possible(s, OnFinally(id))
    ensures KeyOf(s.requests[id].context) in s.inflight
    ensures s.inflight[KeyOf(s.requests[id].context)] == id && Invariant(Finally(s, id))
  {
    var next := Finally(s, id);
    PhaseKeepsCache(s, next, id, Finished);
    assert forall a :: 0 <= a < |s.requests| && a != id ==> next.requests[a] == s.requests[a];
  }

  lemma StepKeeps(s: State, event: Event)
    requires Invariant(s) && Possible(s, event)
    ensures Invariant(Step(s, event))
  {
    match event {
      case OnLoad(context, now) => LoadKeeps(s, context, now);
      case OnThen(id, result, now) => ThenKeeps(s, id, result, now);
      case OnFail(id) => FailKeeps(s, id);
      case OnFinally(id) => FinallyKeeps(s, id);
    }
  }

  /** The invariant holds at every point of every interleaving of loads and callbacks. */
  lemma {:induction false} ReachableInvariant(run: seq<State>, events: seq<Event>, i: nat)
    requires IsRun(run, events) && i < |run|
    ensures Invariant(run[i])
    decreases i
  {
    if i > 0 {
      ReachableInvariant(run, events, i - 1);
      StepKeeps(run[i - 1], events[i - 1]);
    }
  }

  /**
    Single flight: no key ever has two requests under way, and the in-flight keys
    are exactly those of requests under way.
  */
  lemma SingleFlight(run: seq<State>, events: seq<Event>, i: nat, key: string)
    requires IsRun(run, events) && i < |run|
    ensures forall a, b ::
      (0 <= a < |run[i].requests| && 0 <= b < |run[i].requests|
       && Outstanding(run[i].requests[a]) && Outstanding(run[i].requests[b])
       && KeyOf(run[i].requests[a].context) == KeyOf(run[i].requests[b].context)) ==> a == b
    ensures key in run[i].inflight
       <==> exists a :: 0 <= a < |run[i].requests| && Outstanding(run[i].requests[a]) && KeyOf(run[i].requests[a].context) == key
  {
    ReachableInvariant(run, events, i);
  }

  /**
    What a load answers, in every reachable state. A cached answer is ok, is
    younger than the key's lifetime, was loaded for the same project (or the same
    path, if there is no project), and is the newest ok answer for it. A promise
    that is handed out belongs to the key. A new request is sent iff there is
    neither such an answer nor a request under way.
  */
  lemma LoadAnswers(run: seq<State>, events: seq<Event>, i: nat, context: Context, now: int)
    requires IsRun(run, events) && i < |run|
    ensures match Load(run[i], context, now).1
      case Nothing => RepoPath(context) == "" && ProjectId(context) == ""
      case Cached(entry) =>
        && entry.result.ok && now - entry.loadedAt < Ttl(context)
        && entry.projectId == ProjectId(context) && (entry.projectId == "" ==> entry.repoPath == RepoPath(context))
        && Newest(run[i].requests, KeyOf(context)) == Some(entry)
      case Joined(id) =>
        id < |run[i].requests| && Outstanding(run[i].requests[id]) && KeyOf(run[i].requests[id].context) == KeyOf(context)
      case Started(id) =>
        && (forall a :: 0 <= a < |run[i].requests| && Outstanding(run[i].requests[a]) ==>
              KeyOf(run[i].requests[a].context) != KeyOf(context))
        && (Newest(run[i].requests, KeyOf(context)).Some? ==>
              now - Newest(run[i].requests, KeyOf(context)).value.loadedAt >= Ttl(context))
  {
    var s := run[i];
    ReachableInvariant(run, events, i);
    assert Lookup(s.cache, KeyOf(context)) == Newest(s.requests, KeyOf(context));
    if Load(s, context, now).1.Cached? {
      var id := NewestFrom(s.requests, KeyOf(context));
      KeysSeparate(s.requests[id].context, context);
    }
  }

  /** The request that the newest ok answer came from. */
  lemma {:induction false} NewestFrom(requests: seq<Request>, key: string) returns (id: nat)
    requires Newest(requests, key).Some?
    ensures id < |requests| && requests[id].entry == Newest(requests, key) && KeyOf(requests[id].context) == key
    ensures requests[id].entry.value.result.ok
    decreases |requests|
  {
    var n := |requests| - 1;
    if KeyOf(requests[n].context) == key && requests[n].entry.Some? && requests[n].entry.value.result.ok {
      id := n;
    } else {
      id := NewestFrom(requests[..n], key);
    }
  }

  /**
    A failed answer never reaches the cache: loading again afterwards sends a new
    request, unless an older ok answer is still fresh.
  */
  lemma FailureIsNotCached(run: seq<State>, events: seq<Event>, i: nat, id: nat, result: Result, at: int)
    requires IsRun(run, events) && i < |run| && !result.ok
    requires Possible(run[i], OnThen(id, result, at))
    ensures var s := run[i]; var context := s.requests[id].context; var after := Finally(Then(s, id, result, at), id);
      after.cache == s.cache
      && forall now :: Fresh(s.cache, context, now) || Load(after, context, now).1 == Started(|s.requests|) || !Asks(context)
  {
  }
}
