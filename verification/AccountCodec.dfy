/**
  The account row codec: a create mutation is written as a row and as the node
  it returns; a row that is read back is scanned into typed buffers and stored
  in a node column by column. The node's fields are held in four groups.
*/
module AccountCodec {
  import opened Text

  /** A JSON object column; None is Go's nil map. Encoding to bytes and back is the identity. */
  type Json = Option<map<string, string>>

  const ZERO_TIME := 0

  datatype Column =
    | Id | CreatedAt | UpdatedAt | DeletedAt | Name | Notes | Platform | Type | Credentials | Extra | ProxyId
    | ProxyFallbackOriginId | Concurrency | LoadFactor | Priority | RateMultiplier | Status | ErrorMessage
    | LastUsedAt | ExpiresAt | AutoPauseOnExpired | Schedulable | RateLimitedAt | RateLimitResetAt
    | OverloadUntil | TempUnschedulableUntil | TempUnschedulableReason | SessionWindowStart | SessionWindowEnd
    | SessionWindowStatus | Selected(alias: string)

  /** A database value. */
  datatype Cell =
    | Null | IntCell(n: int) | FloatCell(x: real) | BoolCell(b: bool)
    | StrCell(s: string) | TimeCell(t: int) | JsonCell(j: Json)

  /** The scan destinations: `sql.NullInt64` and friends, raw bytes for JSON, and the fallback. */
  datatype Buffer =
    | NullInt64(validInt: bool, int64: int)
    | NullFloat64(validFloat: bool, float64: real)
    | NullBool(validBool: bool, bool_: bool)
    | NullString(validString: bool, string_: string)
    | NullTime(validTime: bool, time: int)
    | Bytes(bytes: Option<Json>)
    | UnknownType(value: Cell)

  datatype Identity = Identity(
    createdAt: int, updatedAt: int, deletedAt: Option<int>, name: string, notes: Option<string>,
    platform: string, kind: string)

  datatype Settings = Settings(
    credentials: Json, extra: Json, proxyFallbackOriginId: Option<int>, concurrency: int,
    loadFactor: Option<int>, priority: int, rateMultiplier: real)

  datatype Schedule = Schedule(
    status: string, errorMessage: Option<string>, lastUsedAt: Option<int>, expiresAt: Option<int>,
    autoPauseOnExpired: bool, schedulable: bool, rateLimitedAt: Option<int>)

  datatype Limits = Limits(
    rateLimitResetAt: Option<int>, overloadUntil: Option<int>, tempUnschedulableUntil: Option<int>,
    tempUnschedulableReason: Option<string>, sessionWindowStart: Option<int>, sessionWindowEnd: Option<int>,
    sessionWindowStatus: Option<string>)

  datatype Node = Node(id: int, proxyId: Option<int>, identity: Identity, settings: Settings, schedule: Schedule,
                       limits: Limits, selected: map<string, Cell>)

  /** A freshly allocated `Account`. */
  const ZERO_NODE := Node(0, None,
    Identity(ZERO_TIME, ZERO_TIME, None, "", None, "", ""),
    Settings(None, None, None, 0, None, 0, 0.0),
    Schedule("", None, None, None, false, false, None),
    Limits(None, None, None, None, None, None, None),
    map[])

  /** The fields set on a create builder, and the ids of its edges. */
  datatype Mutation = Mutation(
    createdAt: Option<int>, updatedAt: Option<int>, deletedAt: Option<int>, name: Option<string>,
    notes: Option<string>, platform: Option<string>, kind: Option<string>, credentials: Option<Json>,
    extra: Option<Json>, proxyFallbackOriginId: Option<int>, concurrency: Option<int>, loadFactor: Option<int>,
    priority: Option<int>, rateMultiplier: Option<real>, status: Option<string>, errorMessage: Option<string>,
    lastUsedAt: Option<int>, expiresAt: Option<int>, autoPauseOnExpired: Option<bool>,
    schedulable: Option<bool>, rateLimitedAt: Option<int>, rateLimitResetAt: Option<int>,
    overloadUntil: Option<int>, tempUnschedulableUntil: Option<int>, tempUnschedulableReason: Option<string>,
    sessionWindowStart: Option<int>, sessionWindowEnd: Option<int>, sessionWindowStatus: Option<string>,
    groupIds: seq<int>, proxyIds: seq<int>, usageLogIds: seq<int>)

  datatype Field = Field(column: Column, value: Cell)

  /** What is handed to the database: the column values in order, and the ids of the edges. */
  datatype Spec = Spec(fields: seq<Field>, proxyEdge: seq<int>, groupEdge: seq<int>, usageLogEdge: seq<int>)

  // -------------------------------------------------------------- scanning

  /** `scanValues`, one column. */
  function NewBuffer(column: Column): Buffer {
    match column
    case Credentials | Extra =>
      Bytes(None)
    case AutoPauseOnExpired | Schedulable =>
      NullBool(false, false)
    case RateMultiplier =>
      NullFloat64(false, 0.0)
    case Id | ProxyId | ProxyFallbackOriginId | Concurrency | LoadFactor | Priority =>
      NullInt64(false, 0)
    case Name | Notes | Platform | Type | Status | ErrorMessage | TempUnschedulableReason
         | SessionWindowStatus =>
      NullString(false, "")
    case CreatedAt | UpdatedAt | DeletedAt | LastUsedAt | ExpiresAt | RateLimitedAt | RateLimitResetAt
         | OverloadUntil | TempUnschedulableUntil | SessionWindowStart | SessionWindowEnd =>
      NullTime(false, ZERO_TIME)
    case Selected(_) =>
      UnknownType(Null)
  }

  /** The driver stores a row's cell in a fresh buffer; None is its conversion error. */
  function Fill(buffer: Buffer, cell: Cell): Option<Buffer> {
    match (buffer, cell)
    case (UnknownType(_), _) => Some(UnknownType(cell))
    case (_, Null) => Some(buffer)
    case (NullInt64(_, _), IntCell(n)) => Some(NullInt64(true, n))
    case (NullFloat64(_, _), FloatCell(x)) => Some(NullFloat64(true, x))
    case (NullBool(_, _), BoolCell(b)) => Some(NullBool(true, b))
    case (NullString(_, _), StrCell(s)) => Some(NullString(true, s))
    case (NullTime(_, _), TimeCell(t)) => Some(NullTime(true, t))
    case (Bytes(_), JsonCell(j)) => Some(Bytes(Some(j)))
    case _ => None
  }

  function AssignIdentity(node: Identity, column: Column, buffer: Buffer): Option<Identity> {
    match column
    case CreatedAt =>
      if !buffer.NullTime? then None
      else if buffer.validTime then Some(node.(createdAt := buffer.time))
      else Some(node)
    case UpdatedAt =>
      if !buffer.NullTime? then None
      else if buffer.validTime then Some(node.(updatedAt := buffer.time))
      else Some(node)
    case DeletedAt =>
      if !buffer.NullTime? then None
      else if buffer.validTime then Some(node.(deletedAt := Some(buffer.time)))
      else Some(node)
    case Name =>
      if !buffer.NullString? then None
      else if buffer.validString then Some(node.(name := buffer.string_))
      else Some(node)
    case Notes =>
      if !buffer.NullString? then None
      else if buffer.validString then Some(node.(notes := Some(buffer.string_)))
      else Some(node)
    case Platform =>
      if !buffer.NullString? then None
      else if buffer.validString then Some(node.(platform := buffer.string_))
      else Some(node)
    case Type =>
      if !buffer.NullString? then None
      else if buffer.validString then Some(node.(kind := buffer.string_))
      else Some(node)
    case _ => Some(node)
  }

  function AssignSettings(node: Settings, column: Column, buffer: Buffer): Option<Settings> {
    match column
    case Credentials =>
      if !buffer.Bytes? then None
      else if buffer.bytes.Some? then Some(node.(credentials := Merge(node.credentials, buffer.bytes.value)))
      else Some(node)
    case Extra =>
      if !buffer.Bytes? then None
      else if buffer.bytes.Some? then Some(node.(extra := Merge(node.extra, buffer.bytes.value)))
      else Some(node)
    case ProxyFallbackOriginId =>
      if !buffer.NullInt64? then None
      else if buffer.validInt then Some(node.(proxyFallbackOriginId := Some(buffer.int64)))
      else Some(node)
    case Concurrency =>
      if !buffer.NullInt64? then None
      else if buffer.validInt then Some(node.(concurrency := buffer.int64))
      else Some(node)
    case LoadFactor =>
      if !buffer.NullInt64? then None
      else if buffer.validInt then Some(node.(loadFactor := Some(buffer.int64)))
      else Some(node)
    case Priority =>
      if !buffer.NullInt64? then None
      else if buffer.validInt then Some(node.(priority := buffer.int64))
      else Some(node)
    case RateMultiplier =>
      if !buffer.NullFloat64? then None
      else if buffer.validFloat then Some(node.(rateMultiplier := buffer.float64))
      else Some(node)
    case _ => Some(node)
  }

  function AssignSchedule(node: Schedule, column: Column, buffer: Buffer): Option<Schedule> {
    match column
    case Status =>
      if !buffer.NullString? then None
      else if buffer.validString then Some(node.(status := buffer.string_))
      else Some(node)
    case ErrorMessage =>
      if !buffer.NullString? then None
      else if buffer.validString then Some(node.(errorMessage := Some(buffer.string_)))
      else Some(node)
    case LastUsedAt =>
      if !buffer.NullTime? then None
      else if buffer.validTime then Some(node.(lastUsedAt := Some(buffer.time)))
      else Some(node)
    case ExpiresAt =>
      if !buffer.NullTime? then None
      else if buffer.validTime then Some(node.(expiresAt := Some(buffer.time)))
      else Some(node)
    case AutoPauseOnExpired =>
      if !buffer.NullBool? then None
      else if buffer.validBool then Some(node.(autoPauseOnExpired := buffer.bool_))
      else Some(node)
    case Schedulable =>
      if !buffer.NullBool? then None
      else if buffer.validBool then Some(node.(schedulable := buffer.bool_))
      else Some(node)
    case RateLimitedAt =>
      if !buffer.NullTime? then None
      else if buffer.validTime then Some(node.(rateLimitedAt := Some(buffer.time)))
      else Some(node)
    case _ => Some(node)
  }

  function AssignLimits(node: Limits, column: Column, buffer: Buffer): Option<Limits> {
    match column
    case RateLimitResetAt =>
      if !buffer.NullTime? then None
      else if buffer.validTime then Some(node.(rateLimitResetAt := Some(buffer.time)))
      else Some(node)
    case OverloadUntil =>
      if !buffer.NullTime? then None
      else if buffer.validTime then Some(node.(overloadUntil := Some(buffer.time)))
      else Some(node)
    case TempUnschedulableUntil =>
      if !buffer.NullTime? then None
      else if buffer.validTime then Some(node.(tempUnschedulableUntil := Some(buffer.time)))
      else Some(node)
    case TempUnschedulableReason =>
      if !buffer.NullString? then None
      else if buffer.validString then Some(node.(tempUnschedulableReason := Some(buffer.string_)))
      else Some(node)
    case SessionWindowStart =>
      if !buffer.NullTime? then None
      else if buffer.validTime then Some(node.(sessionWindowStart := Some(buffer.time)))
      else Some(node)
    case SessionWindowEnd =>
      if !buffer.NullTime? then None
      else if buffer.validTime then Some(node.(sessionWindowEnd := Some(buffer.time)))
      else Some(node)
    case SessionWindowStatus =>
      if !buffer.NullString? then None
      else if buffer.validString then Some(node.(sessionWindowStatus := Some(buffer.string_)))
      else Some(node)
    case _ => Some(node)
  }

  /** `json.Unmarshal` into a map field: null clears it, an object's entries go into the map that is already there. */
  function Merge(held: Json, scanned: Json): Json {
    if scanned.None? then None
    else if held.None? then scanned
    else Some(held.value + scanned.value)
  }

  lemma MergeTwice(held: Json, scanned: Json)
    ensures Merge(Merge(held, scanned), scanned) == Merge(held, scanned)
  {
    if scanned.Some? {
      var base := if held.Some? then held.value else map[];
      assert base + scanned.value + scanned.value == base + scanned.value;
      assert scanned.value + scanned.value == scanned.value;
    }
  }

  /** `assignValues`, one column; None is the "unexpected type" error. */
  function AssignColumn(node: Node, column: Column, buffer: Buffer): Option<Node> {
    match column
    case Id => if buffer.NullInt64? then Some(node.(id := buffer.int64)) else None
    case ProxyId =>
      if !buffer.NullInt64? then None
      else if buffer.validInt then Some(node.(proxyId := Some(buffer.int64)))
      else Some(node)
    case CreatedAt | UpdatedAt | DeletedAt | Name | Notes | Platform | Type =>
      var next := AssignIdentity(node.identity, column, buffer);
      if next.Some? then Some(node.(identity := next.value)) else None
    case Credentials | Extra | ProxyFallbackOriginId | Concurrency | LoadFactor | Priority | RateMultiplier =>
      var next := AssignSettings(node.settings, column, buffer);
      if next.Some? then Some(node.(settings := next.value)) else None
    case Status | ErrorMessage | LastUsedAt | ExpiresAt | AutoPauseOnExpired | Schedulable | RateLimitedAt =>
      var next := AssignSchedule(node.schedule, column, buffer);
      if next.Some? then Some(node.(schedule := next.value)) else None
    case RateLimitResetAt | OverloadUntil | TempUnschedulableUntil | TempUnschedulableReason
         | SessionWindowStart | SessionWindowEnd | SessionWindowStatus =>
      var next := AssignLimits(node.limits, column, buffer);
      if next.Some? then Some(node.(limits := next.value)) else None
    case Selected(alias) =>
      Some(node.(selected := node.selected[alias := if buffer.UnknownType? then buffer.value else Null]))
  }

  function GetIdentity(node: Identity, column: Column): Cell {
    match column
    case CreatedAt => TimeCell(node.createdAt)
    case UpdatedAt => TimeCell(node.updatedAt)
    case DeletedAt => if node.deletedAt.Some? then TimeCell(node.deletedAt.value) else Null
    case Name => StrCell(node.name)
    case Notes => if node.notes.Some? then StrCell(node.notes.value) else Null
    case Platform => StrCell(node.platform)
    case Type => StrCell(node.kind)
    case _ => Null
  }

  function GetSettings(node: Settings, column: Column): Cell {
    match column
    case Credentials => JsonCell(node.credentials)
    case Extra => JsonCell(node.extra)
    case ProxyFallbackOriginId => if node.proxyFallbackOriginId.Some? then IntCell(node.proxyFallbackOriginId.value) else Null
    case Concurrency => IntCell(node.concurrency)
    case LoadFactor => if node.loadFactor.Some? then IntCell(node.loadFactor.value) else Null
    case Priority => IntCell(node.priority)
    case RateMultiplier => FloatCell(node.rateMultiplier)
    case _ => Null
  }

  function GetSchedule(node: Schedule, column: Column): Cell {
    match column
    case Status => StrCell(node.status)
    case ErrorMessage => if node.errorMessage.Some? then StrCell(node.errorMessage.value) else Null
    case LastUsedAt => if node.lastUsedAt.Some? then TimeCell(node.lastUsedAt.value) else Null
    case ExpiresAt => if node.expiresAt.Some? then TimeCell(node.expiresAt.value) else Null
    case AutoPauseOnExpired => BoolCell(node.autoPauseOnExpired)
    case Schedulable => BoolCell(node.schedulable)
    case RateLimitedAt => if node.rateLimitedAt.Some? then TimeCell(node.rateLimitedAt.value) else Null
    case _ => Null
  }

  function GetLimits(node: Limits, column: Column): Cell {
    match column
    case RateLimitResetAt => if node.rateLimitResetAt.Some? then TimeCell(node.rateLimitResetAt.value) else Null
    case OverloadUntil => if node.overloadUntil.Some? then TimeCell(node.overloadUntil.value) else Null
    case TempUnschedulableUntil => if node.tempUnschedulableUntil.Some? then TimeCell(node.tempUnschedulableUntil.value) else Null
    case TempUnschedulableReason => if node.tempUnschedulableReason.Some? then StrCell(node.tempUnschedulableReason.value) else Null
    case SessionWindowStart => if node.sessionWindowStart.Some? then TimeCell(node.sessionWindowStart.value) else Null
    case SessionWindowEnd => if node.sessionWindowEnd.Some? then TimeCell(node.sessionWindowEnd.value) else Null
    case SessionWindowStatus => if node.sessionWindowStatus.Some? then StrCell(node.sessionWindowStatus.value) else Null
    case _ => Null
  }

  /** The cell that a node's field stands for. */
  function Get(node: Node, column: Column): Cell {
    match column
    case Id => IntCell(node.id)
    case ProxyId => if node.proxyId.Some? then IntCell(node.proxyId.value) else Null
    case CreatedAt | UpdatedAt | DeletedAt | Name | Notes | Platform | Type =>
      GetIdentity(node.identity, column)
    case Credentials | Extra | ProxyFallbackOriginId | Concurrency | LoadFactor | Priority | RateMultiplier =>
      GetSettings(node.settings, column)
    case Status | ErrorMessage | LastUsedAt | ExpiresAt | AutoPauseOnExpired | Schedulable | RateLimitedAt =>
      GetSchedule(node.schedule, column)
    case RateLimitResetAt | OverloadUntil | TempUnschedulableUntil | TempUnschedulableReason
         | SessionWindowStart | SessionWindowEnd | SessionWindowStatus =>
      GetLimits(node.limits, column)
    case Selected(alias) => if alias in node.selected then node.selected[alias] else Null
  }

  // -------------------------------------------------------------- encoding

  /** What the mutation sets for a column; Null if nothing. */
  function Value(m: Mutation, column: Column): Cell {
    match column
    case Id => Null
    case ProxyId => if m.proxyIds != [] then IntCell(m.proxyIds[0]) else Null
    case Selected(_) => Null
    case CreatedAt => if m.createdAt.Some? then TimeCell(m.createdAt.value) else Null
    case UpdatedAt => if m.updatedAt.Some? then TimeCell(m.updatedAt.value) else Null
    case DeletedAt => if m.deletedAt.Some? then TimeCell(m.deletedAt.value) else Null
    case Name => if m.name.Some? then StrCell(m.name.value) else Null
    case Notes => if m.notes.Some? then StrCell(m.notes.value) else Null
    case Platform => if m.platform.Some? then StrCell(m.platform.value) else Null
    case Type => if m.kind.Some? then StrCell(m.kind.value) else Null
    case Credentials => if m.credentials.Some? then JsonCell(m.credentials.value) else Null
    case Extra => if m.extra.Some? then JsonCell(m.extra.value) else Null
    case ProxyFallbackOriginId => if m.proxyFallbackOriginId.Some? then IntCell(m.proxyFallbackOriginId.value) else Null
    case Concurrency => if m.concurrency.Some? then IntCell(m.concurrency.value) else Null
    case LoadFactor => if m.loadFactor.Some? then IntCell(m.loadFactor.value) else Null
    case Priority => if m.priority.Some? then IntCell(m.priority.value) else Null
    case RateMultiplier => if m.rateMultiplier.Some? then FloatCell(m.rateMultiplier.value) else Null
    case Status => if m.status.Some? then StrCell(m.status.value) else Null
    case ErrorMessage => if m.errorMessage.Some? then StrCell(m.errorMessage.value) else Null
    case LastUsedAt => if m.lastUsedAt.Some? then TimeCell(m.lastUsedAt.value) else Null
    case ExpiresAt => if m.expiresAt.Some? then TimeCell(m.expiresAt.value) else Null
    case AutoPauseOnExpired => if m.autoPauseOnExpired.Some? then BoolCell(m.autoPauseOnExpired.value) else Null
    case Schedulable => if m.schedulable.Some? then BoolCell(m.schedulable.value) else Null
    case RateLimitedAt => if m.rateLimitedAt.Some? then TimeCell(m.rateLimitedAt.value) else Null
    case RateLimitResetAt => if m.rateLimitResetAt.Some? then TimeCell(m.rateLimitResetAt.value) else Null
    case OverloadUntil => if m.overloadUntil.Some? then TimeCell(m.overloadUntil.value) else Null
    case TempUnschedulableUntil => if m.tempUnschedulableUntil.Some? then TimeCell(m.tempUnschedulableUntil.value) else Null
    case TempUnschedulableReason => if m.tempUnschedulableReason.Some? then StrCell(m.tempUnschedulableReason.value) else Null
    case SessionWindowStart => if m.sessionWindowStart.Some? then TimeCell(m.sessionWindowStart.value) else Null
    case SessionWindowEnd => if m.sessionWindowEnd.Some? then TimeCell(m.sessionWindowEnd.value) else Null
    case SessionWindowStatus => if m.sessionWindowStatus.Some? then StrCell(m.sessionWindowStatus.value) else Null
  }

  function Over<T>(value: Option<T>, default: Option<T>): Option<T> {
    if value.Some? then value else default
  }

  function Or<T>(value: Option<T>, default: T): T {
    if value.Some? then value.value else default
  }

  function IdentityOf(m: Mutation): Identity {
    Identity(
      Or(m.createdAt, ZERO_TIME), Or(m.updatedAt, ZERO_TIME), m.deletedAt, Or(m.name, ""), m.notes,
      Or(m.platform, ""), Or(m.kind, ""))
  }

  function SettingsOf(m: Mutation): Settings {
    Settings(
      Or(m.credentials, None), Or(m.extra, None), m.proxyFallbackOriginId, Or(m.concurrency, 0), m.loadFactor,
      Or(m.priority, 0), Or(m.rateMultiplier, 0.0))
  }

  function ScheduleOf(m: Mutation): Schedule {
    Schedule(
      Or(m.status, ""), m.errorMessage, m.lastUsedAt, m.expiresAt, Or(m.autoPauseOnExpired, false),
      Or(m.schedulable, false), m.rateLimitedAt)
  }

  function LimitsOf(m: Mutation): Limits {
    Limits(
      m.rateLimitResetAt, m.overloadUntil, m.tempUnschedulableUntil, m.tempUnschedulableReason,
      m.sessionWindowStart, m.sessionWindowEnd, m.sessionWindowStatus)
  }

  /** The node that a create call returns; the database chooses its id afterwards. */
  function NodeOf(m: Mutation): Node {
    Node(0, if m.proxyIds != [] then Some(m.proxyIds[0]) else None,
         IdentityOf(m), SettingsOf(m), ScheduleOf(m), LimitsOf(m), map[])
  }

  const IDENTITY_COLUMNS := [
    CreatedAt, UpdatedAt, DeletedAt, Name, Notes, Platform, Type]

  const SETTINGS_COLUMNS := [
    Credentials, Extra, ProxyFallbackOriginId, Concurrency, LoadFactor, Priority, RateMultiplier]

  const SCHEDULE_COLUMNS := [
    Status, ErrorMessage, LastUsedAt, ExpiresAt, AutoPauseOnExpired, Schedulable, RateLimitedAt]

  const LIMITS_COLUMNS := [
    RateLimitResetAt, OverloadUntil, TempUnschedulableUntil, TempUnschedulableReason, SessionWindowStart,
    SessionWindowEnd, SessionWindowStatus]

  const FIELD_COLUMNS := IDENTITY_COLUMNS + SETTINGS_COLUMNS + SCHEDULE_COLUMNS + LIMITS_COLUMNS

  /** `spec.SetField` under its `ok` guard: a value that is not set adds nothing. */
  function SetField(fields: seq<Field>, column: Column, value: Cell): seq<Field> {
    if value == Null then fields else fields + [Field(column, value)]
  }

  /** The fields that the mutation sets, in column order. */
  function FieldList(m: Mutation, columns: seq<Column>): seq<Field> {
    if columns == [] then []
    else
      var before, last := FieldList(m, columns[..|columns| - 1]), columns[|columns| - 1];
      SetField(before, last, Value(m, last))
  }

  function SpecOf(m: Mutation): Spec {
    Spec(FieldList(m, FIELD_COLUMNS), m.proxyIds, m.groupIds, m.usageLogIds)
  }

  lemma FieldListStep(m: Mutation, columns: seq<Column>, i: nat)
    requires i < |columns|
    ensures FieldList(m, columns[..i + 1]) == SetField(FieldList(m, columns[..i]), columns[i], Value(m, columns[i]))
  {
    assert columns[..i + 1][..i] == columns[..i];
  }

  function SetTwo(m: Mutation, fields: seq<Field>, a: Column, b: Column): seq<Field> {
    SetField(SetField(fields, a, Value(m, a)), b, Value(m, b))
  }

  /** A group's fields, one after the other. */
  lemma SevenFields(m: Mutation, c: seq<Column>)
    requires |c| == 7
    ensures FieldList(m, c)
         == SetField(SetTwo(m, SetTwo(m, SetTwo(m, [], c[0], c[1]), c[2], c[3]), c[4], c[5]), c[6], Value(m, c[6]))
  {
    assert c[..0] == [] && c[..7] == c;
    SetTwoNext(m, c, 0);
    SetTwoNext(m, c, 2);
    SetTwoNext(m, c, 4);
    FieldListStep(m, c, 6);
  }

  lemma SetTwoNext(m: Mutation, c: seq<Column>, i: nat)
    requires i + 1 < |c|
    ensures FieldList(m, c[..i + 2]) == SetTwo(m, FieldList(m, c[..i]), c[i], c[i + 1])
  {
    FieldListStep(m, c, i);
    FieldListStep(m, c, i + 1);
  }

  lemma {:induction false} FieldListConcat(m: Mutation, columns: seq<Column>, next: seq<Column>)
    ensures FieldList(m, columns + next) == FieldList(m, columns) + FieldList(m, next)
  {
    if next == [] {
      assert columns + next == columns;
    } else {
      var init := next[..|next| - 1];
      assert (columns + next)[..|columns + next| - 1] == columns + init;
      FieldListConcat(m, columns, init);
    }
  }

  method SetIdentity(m: Mutation) returns (node: Identity, fields: seq<Field>)
    ensures node == IdentityOf(m) && fields == FieldList(m, IDENTITY_COLUMNS)
  {
    node, fields := ZERO_NODE.identity, [];
    fields := SetField(fields, CreatedAt, Value(m, CreatedAt));
    node := node.(createdAt := Or(m.createdAt, node.createdAt));
    fields := SetField(fields, UpdatedAt, Value(m, UpdatedAt));
    node := node.(updatedAt := Or(m.updatedAt, node.updatedAt));
    fields := SetField(fields, DeletedAt, Value(m, DeletedAt));
    node := node.(deletedAt := Over(m.deletedAt, node.deletedAt));
    fields := SetField(fields, Name, Value(m, Name));
    node := node.(name := Or(m.name, node.name));
    fields := SetField(fields, Notes, Value(m, Notes));
    node := node.(notes := Over(m.notes, node.notes));
    fields := SetField(fields, Platform, Value(m, Platform));
    node := node.(platform := Or(m.platform, node.platform));
    fields := SetField(fields, Type, Value(m, Type));
    node := node.(kind := Or(m.kind, node.kind));
    SevenFields(m, IDENTITY_COLUMNS);
  }

  method SetSettings(m: Mutation) returns (node: Settings, fields: seq<Field>)
    ensures node == SettingsOf(m) && fields == FieldList(m, SETTINGS_COLUMNS)
  {
    node, fields := ZERO_NODE.settings, [];
    fields := SetField(fields, Credentials, Value(m, Credentials));
    node := node.(credentials := Or(m.credentials, node.credentials));
    fields := SetField(fields, Extra, Value(m, Extra));
    node := node.(extra := Or(m.extra, node.extra));
    fields := SetField(fields, ProxyFallbackOriginId, Value(m, ProxyFallbackOriginId));
    node := node.(proxyFallbackOriginId := Over(m.proxyFallbackOriginId, node.proxyFallbackOriginId));
    fields := SetField(fields, Concurrency, Value(m, Concurrency));
    node := node.(concurrency := Or(m.concurrency, node.concurrency));
    fields := SetField(fields, LoadFactor, Value(m, LoadFactor));
    node := node.(loadFactor := Over(m.loadFactor, node.loadFactor));
    fields := SetField(fields, Priority, Value(m, Priority));
    node := node.(priority := Or(m.priority, node.priority));
    fields := SetField(fields, RateMultiplier, Value(m, RateMultiplier));
    node := node.(rateMultiplier := Or(m.rateMultiplier, node.rateMultiplier));
    SevenFields(m, SETTINGS_COLUMNS);
  }

  method SetSchedule(m: Mutation) returns (node: Schedule, fields: seq<Field>)
    ensures node == ScheduleOf(m) && fields == FieldList(m, SCHEDULE_COLUMNS)
  {
    node, fields := ZERO_NODE.schedule, [];
    fields := SetField(fields, Status, Value(m, Status));
    node := node.(status := Or(m.status, node.status));
    fields := SetField(fields, ErrorMessage, Value(m, ErrorMessage));
    node := node.(errorMessage := Over(m.errorMessage, node.errorMessage));
    fields := SetField(fields, LastUsedAt, Value(m, LastUsedAt));
    node := node.(lastUsedAt := Over(m.lastUsedAt, node.lastUsedAt));
    fields := SetField(fields, ExpiresAt, Value(m, ExpiresAt));
    node := node.(expiresAt := Over(m.expiresAt, node.expiresAt));
    fields := SetField(fields, AutoPauseOnExpired, Value(m, AutoPauseOnExpired));
    node := node.(autoPauseOnExpired := Or(m.autoPauseOnExpired, node.autoPauseOnExpired));
    fields := SetField(fields, Schedulable, Value(m, Schedulable));
    node := node.(schedulable := Or(m.schedulable, node.schedulable));
    fields := SetField(fields, RateLimitedAt, Value(m, RateLimitedAt));
    node := node.(rateLimitedAt := Over(m.rateLimitedAt, node.rateLimitedAt));
    SevenFields(m, SCHEDULE_COLUMNS);
  }

  method SetLimits(m: Mutation) returns (node: Limits, fields: seq<Field>)
    ensures node == LimitsOf(m) && fields == FieldList(m, LIMITS_COLUMNS)
  {
    node, fields := ZERO_NODE.limits, [];
    fields := SetField(fields, RateLimitResetAt, Value(m, RateLimitResetAt));
    node := node.(rateLimitResetAt := Over(m.rateLimitResetAt, node.rateLimitResetAt));
    fields := SetField(fields, OverloadUntil, Value(m, OverloadUntil));
    node := node.(overloadUntil := Over(m.overloadUntil, node.overloadUntil));
    fields := SetField(fields, TempUnschedulableUntil, Value(m, TempUnschedulableUntil));
    node := node.(tempUnschedulableUntil := Over(m.tempUnschedulableUntil, node.tempUnschedulableUntil));
    fields := SetField(fields, TempUnschedulableReason, Value(m, TempUnschedulableReason));
    node := node.(tempUnschedulableReason := Over(m.tempUnschedulableReason, node.tempUnschedulableReason));
    fields := SetField(fields, SessionWindowStart, Value(m, SessionWindowStart));
    node := node.(sessionWindowStart := Over(m.sessionWindowStart, node.sessionWindowStart));
    fields := SetField(fields, SessionWindowEnd, Value(m, SessionWindowEnd));
    node := node.(sessionWindowEnd := Over(m.sessionWindowEnd, node.sessionWindowEnd));
    fields := SetField(fields, SessionWindowStatus, Value(m, SessionWindowStatus));
    node := node.(sessionWindowStatus := Over(m.sessionWindowStatus, node.sessionWindowStatus));
    SevenFields(m, LIMITS_COLUMNS);
  }

  /** `createSpec`: field by field, each set value goes into the spec and into the node. */
  method CreateSpec(m: Mutation) returns (node: Node, spec: Spec)
    ensures node == NodeOf(m) && spec == SpecOf(m)
  {
    var identity, fields1 := SetIdentity(m);
    var settings, fields2 := SetSettings(m);
    var schedule, fields3 := SetSchedule(m);
    var limits, fields4 := SetLimits(m);
    node := Node(0, None, identity, settings, schedule, limits, map[]);
    FieldListConcat(m, IDENTITY_COLUMNS, SETTINGS_COLUMNS);
    FieldListConcat(m, IDENTITY_COLUMNS + SETTINGS_COLUMNS, SCHEDULE_COLUMNS);
    FieldListConcat(m, IDENTITY_COLUMNS + SETTINGS_COLUMNS + SCHEDULE_COLUMNS, LIMITS_COLUMNS);
    if m.proxyIds != [] {
      node := node.(proxyId := Some(m.proxyIds[0]));
    }
    spec := Spec(fields1 + fields2 + fields3 + fields4, m.proxyIds, m.groupIds, m.usageLogIds);
  }

  // ------------------------------------------------- the row and reading it

  /** The value that the insert statement gives a column; the last one if a column is set twice. */
  function Lookup(fields: seq<Field>, column: Column): Cell {
    if fields == [] then Null
    else if fields[|fields| - 1].column == column then fields[|fields| - 1].value
    else Lookup(fields[..|fields| - 1], column)
  }

  /** The row that a spec describes: its fields, the foreign key of the proxy edge, and the id the database chose. */
  function RowCell(spec: Spec, id: int, column: Column): Cell {
    if column == Id then IntCell(id)
    else if column == ProxyId then if spec.proxyEdge != [] then IntCell(spec.proxyEdge[0]) else Null
    else Lookup(spec.fields, column)
  }

  predicate Fits(column: Column, cell: Cell) {
    Fill(NewBuffer(column), cell).Some?
  }

  /** The buffers of one row after the driver has scanned it. */
  function Scanned(columns: seq<Column>, row: Column -> Cell): seq<Buffer>
    requires forall i :: 0 <= i < |columns| ==> Fits(columns[i], row(columns[i]))
  {
    seq(|columns|, i requires 0 <= i < |columns| && Fits(columns[i], row(columns[i])) => Fill(NewBuffer(columns[i]), row(columns[i])).value)
  }

  /** The node after the columns in order, and whether every buffer had the expected type. */
  function AssignAll(node: Node, columns: seq<Column>, values: seq<Buffer>): (Node, bool)
    requires |columns| <= |values|
    decreases |columns|
  {
    if columns == [] then (node, true)
    else
      var next := AssignColumn(node, columns[0], values[0]);
      if next.None? then (node, false) else AssignAll(next.value, columns[1..], values[1..])
  }

  method ScanValues(columns: seq<Column>) returns (values: seq<Buffer>)
    ensures |values| == |columns| && forall i :: 0 <= i < |columns| ==> values[i] == NewBuffer(columns[i])
  {
    var buffers := new Buffer[|columns|](_ => UnknownType(Null));
    for i := 0 to |columns|
      invariant forall j :: 0 <= j < i ==> buffers[j] == NewBuffer(columns[j])
    {
      buffers[i] := NewBuffer(columns[i]);
    }
    return buffers[..];
  }

  class Account {
    var node: Node

    constructor ()
      ensures node == ZERO_NODE
    {
      node := ZERO_NODE;
    }

    /** Stops at the first buffer of an unexpected type, keeping what was assigned before it. */
    method AssignValues(columns: seq<Column>, values: seq<Buffer>) returns (ok: bool)
      modifies this
      ensures if |values| < |columns| then !ok && node == old(node)
              else (node, ok) == AssignAll(old(node), columns, values)
    {
      if |values| < |columns| {
        return false;
      }
      for i := 0 to |columns|
        invariant AssignAll(old(node), columns, values) == AssignAll(node, columns[i..], values[i..])
      {
        assert columns[i..][1..] == columns[i + 1..] && values[i..][1..] == values[i + 1..];
        var next := AssignColumn(node, columns[i], values[i]);
        if next.None? {
          return false;
        }
        node := next.value;
      }
      return true;
    }
  }

  /** What a field that held one cell shows for its column after another has been scanned into it. */
  function Taken(held: Cell, column: Column, cell: Cell): Cell {
    if (column == Credentials || column == Extra) && held.JsonCell? && cell.JsonCell? then JsonCell(Merge(held.j, cell.j))
    else if cell != Null || column.Selected? then cell
    else if column == Id then IntCell(0)
    else held
  }

  lemma TakenTwice(held: Cell, column: Column, cell: Cell)
    ensures Taken(Taken(held, column, cell), column, cell) == Taken(held, column, cell)
  {
    if cell.JsonCell? {
      MergeTwice(if held.JsonCell? then held.j else None, cell.j);
    }
  }

  /** What a node shows for a column after a scanned cell has been assigned to it. */
  function Shown(node: Node, column: Column, cell: Cell): Cell {
    Taken(Get(node, column), column, cell)
  }

  predicate IsIdentity(column: Column) {
    || column.CreatedAt? || column.UpdatedAt? || column.DeletedAt? || column.Name? || column.Notes?
    || column.Platform? || column.Type?
  }

  lemma AssignIdentityValue(node: Identity, column: Column, cell: Cell)
    requires Fits(column, cell) && IsIdentity(column)
    ensures var next := AssignIdentity(node, column, Fill(NewBuffer(column), cell).value);
      next.Some? && GetIdentity(next.value, column) == Taken(GetIdentity(node, column), column, cell)
  {
  }

  lemma AssignIdentityFrame(node: Identity, column: Column, buffer: Buffer, other: Column)
    requires other != column && AssignIdentity(node, column, buffer).Some?
    ensures GetIdentity(AssignIdentity(node, column, buffer).value, other) == GetIdentity(node, other)
  {
  }

  predicate IsSettings(column: Column) {
    || column.Credentials? || column.Extra? || column.ProxyFallbackOriginId? || column.Concurrency?
    || column.LoadFactor? || column.Priority? || column.RateMultiplier?
  }

  lemma AssignSettingsValue(node: Settings, column: Column, cell: Cell)
    requires Fits(column, cell) && IsSettings(column)
    ensures var next := AssignSettings(node, column, Fill(NewBuffer(column), cell).value);
      next.Some? && GetSettings(next.value, column) == Taken(GetSettings(node, column), column, cell)
  {
  }

  lemma AssignSettingsFrame(node: Settings, column: Column, buffer: Buffer, other: Column)
    requires other != column && AssignSettings(node, column, buffer).Some?
    ensures GetSettings(AssignSettings(node, column, buffer).value, other) == GetSettings(node, other)
  {
  }

  predicate IsSchedule(column: Column) {
    || column.Status? || column.ErrorMessage? || column.LastUsedAt? || column.ExpiresAt?
    || column.AutoPauseOnExpired? || column.Schedulable? || column.RateLimitedAt?
  }

  lemma AssignScheduleValue(node: Schedule, column: Column, cell: Cell)
    requires Fits(column, cell) && IsSchedule(column)
    ensures var next := AssignSchedule(node, column, Fill(NewBuffer(column), cell).value);
      next.Some? && GetSchedule(next.value, column) == Taken(GetSchedule(node, column), column, cell)
  {
  }

  lemma AssignScheduleFrame(node: Schedule, column: Column, buffer: Buffer, other: Column)
    requires other != column && AssignSchedule(node, column, buffer).Some?
    ensures GetSchedule(AssignSchedule(node, column, buffer).value, other) == GetSchedule(node, other)
  {
  }

  predicate IsLimits(column: Column) {
    || column.RateLimitResetAt? || column.OverloadUntil? || column.TempUnschedulableUntil?
    || column.TempUnschedulableReason? || column.SessionWindowStart? || column.SessionWindowEnd?
    || column.SessionWindowStatus?
  }

  lemma AssignLimitsValue(node: Limits, column: Column, cell: Cell)
    requires Fits(column, cell) && IsLimits(column)
    ensures var next := AssignLimits(node, column, Fill(NewBuffer(column), cell).value);
      next.Some? && GetLimits(next.value, column) == Taken(GetLimits(node, column), column, cell)
  {
  }

  lemma AssignLimitsFrame(node: Limits, column: Column, buffer: Buffer, other: Column)
    requires other != column && AssignLimits(node, column, buffer).Some?
    ensures GetLimits(AssignLimits(node, column, buffer).value, other) == GetLimits(node, other)
  {
  }

  lemma IdentityTakes(node: Node, column: Column, cell: Cell)
    requires IsIdentity(column) && Fits(column, cell)
    ensures Takes(node, column, cell)
  {
    AssignIdentityValue(node.identity, column, cell);
  }

  lemma SettingsTake(node: Node, column: Column, cell: Cell)
    requires IsSettings(column) && Fits(column, cell)
    ensures Takes(node, column, cell)
  {
    AssignSettingsValue(node.settings, column, cell);
  }

  lemma ScheduleTakes(node: Node, column: Column, cell: Cell)
    requires IsSchedule(column) && Fits(column, cell)
    ensures Takes(node, column, cell)
  {
    AssignScheduleValue(node.schedule, column, cell);
  }

  lemma LimitsTake(node: Node, column: Column, cell: Cell)
    requires IsLimits(column) && Fits(column, cell)
    ensures Takes(node, column, cell)
  {
    AssignLimitsValue(node.limits, column, cell);
  }

  /** The column's own kind of buffer, filled with the cell, is accepted, and the field then shows the cell. */
  ghost predicate Takes(node: Node, column: Column, cell: Cell)
    requires Fits(column, cell)
  {
    var next := AssignColumn(node, column, Fill(NewBuffer(column), cell).value);
    next.Some? && Get(next.value, column) == Shown(node, column, cell)
  }

  /** A column never fails on its own kind of buffer, and its field then shows the scanned value. */
  lemma ColumnTakesValue(node: Node, column: Column, cell: Cell)
    requires Fits(column, cell)
    ensures Takes(node, column, cell)
  {
    if IsIdentity(column) {
      IdentityTakes(node, column, cell);
    } else if IsSettings(column) {
      SettingsTake(node, column, cell);
    } else if IsSchedule(column) {
      ScheduleTakes(node, column, cell);
    } else if IsLimits(column) {
      LimitsTake(node, column, cell);
    }
  }

  /** Assigning the column leaves what another field shows, and the dynamic values if it is a stored column. */
  ghost predicate Leaves(node: Node, column: Column, buffer: Buffer, other: Column)
    requires AssignColumn(node, column, buffer).Some?
  {
    var next := AssignColumn(node, column, buffer).value;
    Get(next, other) == Get(node, other) && (!column.Selected? ==> next.selected == node.selected)
  }

  lemma SameGet(a: Node, b: Node, column: Column)
    requires a.id == b.id && a.proxyId == b.proxyId && a.selected == b.selected
    requires GetIdentity(a.identity, column) == GetIdentity(b.identity, column)
    requires GetSettings(a.settings, column) == GetSettings(b.settings, column)
    requires GetSchedule(a.schedule, column) == GetSchedule(b.schedule, column)
    requires GetLimits(a.limits, column) == GetLimits(b.limits, column)
    ensures Get(a, column) == Get(b, column)
  {
  }

  lemma IdentityLeaves(node: Node, column: Column, buffer: Buffer, other: Column)
    requires IsIdentity(column) && other != column && AssignColumn(node, column, buffer).Some?
    ensures Leaves(node, column, buffer, other)
  {
    AssignIdentityFrame(node.identity, column, buffer, other);
    SameGet(node, AssignColumn(node, column, buffer).value, other);
  }

  lemma SettingsLeave(node: Node, column: Column, buffer: Buffer, other: Column)
    requires IsSettings(column) && other != column && AssignColumn(node, column, buffer).Some?
    ensures Leaves(node, column, buffer, other)
  {
    AssignSettingsFrame(node.settings, column, buffer, other);
    SameGet(node, AssignColumn(node, column, buffer).value, other);
  }

  lemma ScheduleLeaves(node: Node, column: Column, buffer: Buffer, other: Column)
    requires IsSchedule(column) && other != column && AssignColumn(node, column, buffer).Some?
    ensures Leaves(node, column, buffer, other)
  {
    AssignScheduleFrame(node.schedule, column, buffer, other);
    SameGet(node, AssignColumn(node, column, buffer).value, other);
  }

  lemma LimitsLeave(node: Node, column: Column, buffer: Buffer, other: Column)
    requires IsLimits(column) && other != column && AssignColumn(node, column, buffer).Some?
    ensures Leaves(node, column, buffer, other)
  {
    AssignLimitsFrame(node.limits, column, buffer, other);
    SameGet(node, AssignColumn(node, column, buffer).value, other);
  }

  /** A column changes no other field. */
  lemma ColumnKeepsOthers(node: Node, column: Column, buffer: Buffer, other: Column)
    requires other != column && AssignColumn(node, column, buffer).Some?
    ensures Leaves(node, column, buffer, other)
  {
    if IsIdentity(column) {
      IdentityLeaves(node, column, buffer, other);
    } else if IsSettings(column) {
      SettingsLeave(node, column, buffer, other);
    } else if IsSchedule(column) {
      ScheduleLeaves(node, column, buffer, other);
    } else if IsLimits(column) {
      LimitsLeave(node, column, buffer, other);
    }
  }

  lemma ColumnEffect(node: Node, column: Column, cell: Cell, other: Column)
    requires Fits(column, cell)
    ensures var next := AssignColumn(node, column, Fill(NewBuffer(column), cell).value);
      next.Some? && Get(next.value, other) == if other == column then Shown(node, column, cell) else Get(node, other)
  {
    ColumnTakesValue(node, column, cell);
    if other != column {
      ColumnKeepsOthers(node, column, Fill(NewBuffer(column), cell).value, other);
    }
  }

  lemma AssignAllStep(node: Node, columns: seq<Column>, row: Column -> Cell, next: Option<Node>)
    requires columns != [] && forall i :: 0 <= i < |columns| ==> Fits(columns[i], row(columns[i]))
    requires Fits(columns[0], row(columns[0]))
    requires next == AssignColumn(node, columns[0], Fill(NewBuffer(columns[0]), row(columns[0])).value)
    requires next.Some?
    ensures AssignAll(node, columns, Scanned(columns, row))
         == AssignAll(next.value, columns[1..], Scanned(columns[1..], row))
  {
    assert Scanned(columns, row)[1..] == Scanned(columns[1..], row);
  }

  /**
    Columns in any order, possibly missing or repeated: every field shows what it
    takes of its cell if its column was read.
  */
  lemma {:induction false} AssignAllSpec(node: Node, columns: seq<Column>, row: Column -> Cell, other: Column)
    requires forall i :: 0 <= i < |columns| ==> Fits(columns[i], row(columns[i]))
    ensures var (after, ok) := AssignAll(node, columns, Scanned(columns, row));
      ok && Get(after, other) == if other in columns then Shown(node, other, row(other)) else Get(node, other)
    decreases |columns|
  {
    if columns != [] {
      var column, rest := columns[0], columns[1..];
      var next := AssignColumn(node, column, Fill(NewBuffer(column), row(column)).value);
      ColumnEffect(node, column, row(column), other);
      AssignAllStep(node, columns, row, next);
      AssignAllSpec(next.value, rest, row, other);
      TakenTwice(Get(node, other), other, row(other));
      assert other in columns <==> other == column || other in rest;
    }
  }

  /** Stored columns leave the dynamically selected values alone. */
  lemma {:induction false} AssignAllSelected(node: Node, columns: seq<Column>, values: seq<Buffer>)
    requires |columns| <= |values| && AssignAll(node, columns, values).1
    requires forall column :: column in columns ==> !column.Selected?
    ensures AssignAll(node, columns, values).0.selected == node.selected
    decreases |columns|
  {
    if columns != [] {
      assert columns[0] in columns && forall column :: column in columns[1..] ==> column in columns;
      ColumnKeepsOthers(node, columns[0], values[0], Selected(""));
      AssignAllSelected(AssignColumn(node, columns[0], values[0]).value, columns[1..], values[1..]);
    }
  }

  /** No column list whatsoever makes `assignValues` report a type mismatch on the buffers of `scanValues`. */
  lemma ScannedNeverMismatch(node: Node, columns: seq<Column>, row: Column -> Cell)
    requires forall i :: 0 <= i < |columns| ==> Fits(columns[i], row(columns[i]))
    ensures AssignAll(node, columns, Scanned(columns, row)).1
  {
    AssignAllSpec(node, columns, row, Id);
  }

  // ------------------------------------------------------------ round trip

  lemma LookupSet(fields: seq<Field>, last: Column, value: Cell, column: Column)
    requires last == column ==> Lookup(fields, column) == Null || value != Null
    ensures Lookup(SetField(fields, last, value), column) == if last == column then value else Lookup(fields, column)
  {
    if value != Null {
      assert (fields + [Field(last, value)])[..|fields|] == fields;
    }
  }

  /** The field list over any assignment of cells to columns. */
  function ListOf(values: Column -> Cell, columns: seq<Column>): seq<Field> {
    if columns == [] then []
    else
      var before, last := ListOf(values, columns[..|columns| - 1]), columns[|columns| - 1];
      SetField(before, last, values(last))
  }

  lemma {:induction false} FieldListIsListOf(m: Mutation, values: Column -> Cell, columns: seq<Column>)
    requires forall column :: values(column) == Value(m, column)
    ensures FieldList(m, columns) == ListOf(values, columns)
  {
    if columns != [] {
      FieldListIsListOf(m, values, columns[..|columns| - 1]);
    }
  }

  lemma {:induction false} LookupListOf(values: Column -> Cell, columns: seq<Column>, column: Column)
    ensures Lookup(ListOf(values, columns), column) == if column in columns then values(column) else Null
  {
    if columns != [] {
      var init, last := columns[..|columns| - 1], columns[|columns| - 1];
      LookupListOf(values, init, column);
      assert columns == init + [last];
      LookupSet(ListOf(values, init), last, values(last), column);
    }
  }

  lemma LookupFieldList(m: Mutation, columns: seq<Column>, column: Column)
    ensures Lookup(FieldList(m, columns), column) == if column in columns then Value(m, column) else Null
  {
    var values := (other: Column) => Value(m, other);
    FieldListIsListOf(m, values, columns);
    LookupListOf(values, columns, column);
  }

  /** Every stored column but the id and the proxy's foreign key is a field. */
  lemma Listed(column: Column)
    requires column != Id && column != ProxyId && !column.Selected?
    ensures column in FIELD_COLUMNS
  {
  }

  /** The row shows, column by column, what the mutation set. */
  lemma RowShowsMutation(m: Mutation, id: int, column: Column)
    requires !column.Selected?
    ensures RowCell(SpecOf(m), id, column) == if column == Id then IntCell(id) else Value(m, column)
  {
    if column != Id && column != ProxyId {
      LookupFieldList(m, FIELD_COLUMNS, column);
      Listed(column);
    }
  }

  ghost predicate ShowsSet(m: Mutation, column: Column) {
    Get(NodeOf(m), column) == if Value(m, column) != Null then Value(m, column) else Get(ZERO_NODE, column)
  }

  lemma IdentityShows(m: Mutation, column: Column)
    requires IsIdentity(column)
    ensures ShowsSet(m, column)
  {
  }

  lemma SettingsShow(m: Mutation, column: Column)
    requires IsSettings(column)
    ensures ShowsSet(m, column)
  {
  }

  lemma ScheduleShows(m: Mutation, column: Column)
    requires IsSchedule(column)
    ensures ShowsSet(m, column)
  {
  }

  lemma LimitsShow(m: Mutation, column: Column)
    requires IsLimits(column)
    ensures ShowsSet(m, column)
  {
  }

  /** The node shows what the mutation set, and the zero value elsewhere. */
  lemma NodeShowsMutation(m: Mutation, column: Column)
    requires !column.Selected?
    ensures ShowsSet(m, column)
  {
    if IsIdentity(column) {
      IdentityShows(m, column);
    } else if IsSettings(column) {
      SettingsShow(m, column);
    } else if IsSchedule(column) {
      ScheduleShows(m, column);
    } else if IsLimits(column) {
      LimitsShow(m, column);
    }
  }

  lemma ValueFits(m: Mutation, id: int, column: Column)
    ensures Fits(column, Value(m, column)) && Fits(Id, IntCell(id))
  {
  }

  /** Nodes that show the same values are the same node. */
  lemma SameNode(a: Node, b: Node)
    requires a.selected == b.selected && forall column :: Get(a, column) == Get(b, column)
    ensures a == b
  {
    assert Get(a, Id) == Get(b, Id) && Get(a, ProxyId) == Get(b, ProxyId);
    SameIdentity(a, b);
    SameSettings(a, b);
    SameSchedule(a, b);
    SameLimits(a, b);
  }

  lemma SameIdentity(a: Node, b: Node)
    requires forall column :: Get(a, column) == Get(b, column)
    ensures a.identity == b.identity
  {
    forall column
      ensures GetIdentity(a.identity, column) == GetIdentity(b.identity, column)
    {
      assert IsIdentity(column) ==> Get(a, column) == Get(b, column);
    }
    SameIdentityFields(a.identity, b.identity);
  }

  lemma SameIdentityFields(a: Identity, b: Identity)
    requires forall column :: GetIdentity(a, column) == GetIdentity(b, column)
    ensures a == b
  {
    assert GetIdentity(a, CreatedAt) == GetIdentity(b, CreatedAt);
    assert GetIdentity(a, UpdatedAt) == GetIdentity(b, UpdatedAt);
    assert GetIdentity(a, DeletedAt) == GetIdentity(b, DeletedAt);
    assert GetIdentity(a, Name) == GetIdentity(b, Name);
    assert GetIdentity(a, Notes) == GetIdentity(b, Notes);
    assert GetIdentity(a, Platform) == GetIdentity(b, Platform);
    assert GetIdentity(a, Type) == GetIdentity(b, Type);
  }

  lemma SameSettings(a: Node, b: Node)
    requires forall column :: Get(a, column) == Get(b, column)
    ensures a.settings == b.settings
  {
    forall column
      ensures GetSettings(a.settings, column) == GetSettings(b.settings, column)
    {
      assert IsSettings(column) ==> Get(a, column) == Get(b, column);
    }
    SameSettingsFields(a.settings, b.settings);
  }

  lemma SameSettingsFields(a: Settings, b: Settings)
    requires forall column :: GetSettings(a, column) == GetSettings(b, column)
    ensures a == b
  {
    assert GetSettings(a, Credentials) == GetSettings(b, Credentials);
    assert GetSettings(a, Extra) == GetSettings(b, Extra);
    assert GetSettings(a, ProxyFallbackOriginId) == GetSettings(b, ProxyFallbackOriginId);
    assert GetSettings(a, Concurrency) == GetSettings(b, Concurrency);
    assert GetSettings(a, LoadFactor) == GetSettings(b, LoadFactor);
    assert GetSettings(a, Priority) == GetSettings(b, Priority);
    assert GetSettings(a, RateMultiplier) == GetSettings(b, RateMultiplier);
  }

  lemma SameSchedule(a: Node, b: Node)
    requires forall column :: Get(a, column) == Get(b, column)
    ensures a.schedule == b.schedule
  {
    forall column
      ensures GetSchedule(a.schedule, column) == GetSchedule(b.schedule, column)
    {
      assert IsSchedule(column) ==> Get(a, column) == Get(b, column);
    }
    SameScheduleFields(a.schedule, b.schedule);
  }

  lemma SameScheduleFields(a: Schedule, b: Schedule)
    requires forall column :: GetSchedule(a, column) == GetSchedule(b, column)
    ensures a == b
  {
    assert GetSchedule(a, Status) == GetSchedule(b, Status);
    assert GetSchedule(a, ErrorMessage) == GetSchedule(b, ErrorMessage);
    assert GetSchedule(a, LastUsedAt) == GetSchedule(b, LastUsedAt);
    assert GetSchedule(a, ExpiresAt) == GetSchedule(b, ExpiresAt);
    assert GetSchedule(a, AutoPauseOnExpired) == GetSchedule(b, AutoPauseOnExpired);
    assert GetSchedule(a, Schedulable) == GetSchedule(b, Schedulable);
    assert GetSchedule(a, RateLimitedAt) == GetSchedule(b, RateLimitedAt);
  }

  lemma SameLimits(a: Node, b: Node)
    requires forall column :: Get(a, column) == Get(b, column)
    ensures a.limits == b.limits
  {
    forall column
      ensures GetLimits(a.limits, column) == GetLimits(b.limits, column)
    {
      assert IsLimits(column) ==> Get(a, column) == Get(b, column);
    }
    SameLimitsFields(a.limits, b.limits);
  }

  lemma SameLimitsFields(a: Limits, b: Limits)
    requires forall column :: GetLimits(a, column) == GetLimits(b, column)
    ensures a == b
  {
    assert GetLimits(a, RateLimitResetAt) == GetLimits(b, RateLimitResetAt);
    assert GetLimits(a, OverloadUntil) == GetLimits(b, OverloadUntil);
    assert GetLimits(a, TempUnschedulableUntil) == GetLimits(b, TempUnschedulableUntil);
    assert GetLimits(a, TempUnschedulableReason) == GetLimits(b, TempUnschedulableReason);
    assert GetLimits(a, SessionWindowStart) == GetLimits(b, SessionWindowStart);
    assert GetLimits(a, SessionWindowEnd) == GetLimits(b, SessionWindowEnd);
    assert GetLimits(a, SessionWindowStatus) == GetLimits(b, SessionWindowStatus);
  }

  function RowOf(m: Mutation, id: int): Column -> Cell {
    column => RowCell(SpecOf(m), id, column)
  }

  /**
    Round trip: for every mutation, reading back the row that `createSpec`
    describes, through any list of the stored columns that mentions each of them,
    in any order, yields the node that `createSpec` returned, with the id that the
    database chose.
  */
  lemma RoundTrip(m: Mutation, id: int, columns: seq<Column>)
    requires forall column :: column in columns <==> !column.Selected?
    ensures forall i :: 0 <= i < |columns| ==> Fits(columns[i], RowOf(m, id)(columns[i]))
    ensures AssignAll(ZERO_NODE, columns, Scanned(columns, RowOf(m, id))) == (NodeOf(m).(id := id), true)
  {
    var row := RowOf(m, id);
    RowsFit(m, id, columns);
    ScannedNeverMismatch(ZERO_NODE, columns, row);
    AssignAllSelected(ZERO_NODE, columns, Scanned(columns, row));
    ReadBackIs(AssignAll(ZERO_NODE, columns, Scanned(columns, row)).0, NodeOf(m).(id := id), m, id, columns);
  }

  lemma RowsFit(m: Mutation, id: int, columns: seq<Column>)
    requires forall column :: column in columns ==> !column.Selected?
    ensures forall i :: 0 <= i < |columns| ==> Fits(columns[i], RowOf(m, id)(columns[i]))
  {
    forall i | 0 <= i < |columns|
      ensures Fits(columns[i], RowOf(m, id)(columns[i]))
    {
      assert columns[i] in columns;
      RowFits(m, id, columns[i]);
    }
  }

  lemma ReadBackIs(after: Node, expected: Node, m: Mutation, id: int, columns: seq<Column>)
    requires forall column :: column in columns <==> !column.Selected?
    requires forall i :: 0 <= i < |columns| ==> Fits(columns[i], RowOf(m, id)(columns[i]))
    requires AssignAll(ZERO_NODE, columns, Scanned(columns, RowOf(m, id))).0 == after
    requires expected == NodeOf(m).(id := id) && after.selected == expected.selected == map[]
    ensures after == expected
  {
    forall column
      ensures Get(after, column) == Get(expected, column)
    {
      ReadBackShows(after, m, id, columns, column);
    }
    SameNode(after, expected);
  }

  lemma ReadBackShows(after: Node, m: Mutation, id: int, columns: seq<Column>, column: Column)
    requires forall other :: other in columns <==> !other.Selected?
    requires forall i :: 0 <= i < |columns| ==> Fits(columns[i], RowOf(m, id)(columns[i]))
    requires AssignAll(ZERO_NODE, columns, Scanned(columns, RowOf(m, id))).0 == after && after.selected == map[]
    ensures Get(after, column) == Get(NodeOf(m).(id := id), column)
  {
    if column.Selected? {
      DynamicShowsNothing(after, column);
      DynamicShowsNothing(NodeOf(m).(id := id), column);
    } else {
      AssignAllSpec(ZERO_NODE, columns, RowOf(m, id), column);
      ShownIsExpected(m, id, column);
    }
  }

  lemma DynamicShowsNothing(node: Node, column: Column)
    requires column.Selected? && node.selected == map[]
    ensures Get(node, column) == Null
  {
  }

  lemma RowFits(m: Mutation, id: int, column: Column)
    requires !column.Selected?
    ensures Fits(column, RowOf(m, id)(column))
  {
    RowShowsMutation(m, id, column);
    ValueFits(m, id, column);
  }

  lemma ShownIsExpected(m: Mutation, id: int, column: Column)
    requires !column.Selected?
    ensures Shown(ZERO_NODE, column, RowOf(m, id)(column)) == Get(NodeOf(m).(id := id), column)
  {
    RowShowsMutation(m, id, column);
    NodeShowsMutation(m, column);
    IdIsSeparate(NodeOf(m), id, column);
    ShownFromZero(column, RowOf(m, id)(column));
  }

  /** A freshly allocated node holds no map that a scanned one would be merged into. */
  lemma ShownFromZero(column: Column, cell: Cell)
    requires !column.Selected?
    ensures Shown(ZERO_NODE, column, cell) == if cell != Null then cell else Get(ZERO_NODE, column)
  {
  }

  lemma IdIsSeparate(node: Node, id: int, column: Column)
    ensures Get(node.(id := id), column) == if column == Id then IntCell(id) else Get(node, column)
  {
  }

  // ------------------------------------------------------ defaults and check

  /** What the runtime package installs: default values (None if it was not loaded) and validators. */
  datatype Schema = Schema(
    defaultCreatedAt: Option<int>, defaultUpdatedAt: Option<int>, defaultCredentials: Option<Json>,
    defaultExtra: Option<Json>, defaultConcurrency: int, defaultPriority: int, defaultRateMultiplier: real,
    defaultStatus: string, defaultAutoPauseOnExpired: bool, defaultSchedulable: bool,
    validName: string -> bool, validPlatform: string -> bool, validType: string -> bool,
    validStatus: string -> bool, validSessionWindowStatus: string -> bool)

  /**
    `defaults`: fills what is not set, in order, up to the first default that was
    not loaded; the flag says whether it got through.
  */
  function Defaults(m: Mutation, schema: Schema): (Mutation, bool) {
    var m1 := m.(createdAt := Over(m.createdAt, schema.defaultCreatedAt));
    if m1.createdAt.None? then (m, false) else
    var m2 := m1.(updatedAt := Over(m.updatedAt, schema.defaultUpdatedAt));
    if m2.updatedAt.None? then (m1, false) else
    var m3 := m2.(credentials := Over(m.credentials, schema.defaultCredentials));
    if m3.credentials.None? then (m2, false) else
    var m4 := m3.(extra := Over(m.extra, schema.defaultExtra));
    if m4.extra.None? then (m3, false) else
    (PlainDefaults(m4, schema), true)
  }

  /** The defaults that are plain values. */
  function PlainDefaults(m: Mutation, schema: Schema): Mutation {
    m.(concurrency := Over(m.concurrency, Some(schema.defaultConcurrency)),
       priority := Over(m.priority, Some(schema.defaultPriority)),
       rateMultiplier := Over(m.rateMultiplier, Some(schema.defaultRateMultiplier)),
       status := Over(m.status, Some(schema.defaultStatus)),
       autoPauseOnExpired := Over(m.autoPauseOnExpired, Some(schema.defaultAutoPauseOnExpired)),
       schedulable := Over(m.schedulable, Some(schema.defaultSchedulable)))
  }

  const REQUIRED_COLUMNS := {
    CreatedAt, UpdatedAt, Name, Platform, Type, Credentials, Extra, Concurrency, Priority, RateMultiplier, Status,
    AutoPauseOnExpired, Schedulable}

  /** `check`: the column whose validation error is reported, if any. */
  function Check(m: Mutation, schema: Schema): Option<Column> {
    if m.createdAt.None? then Some(CreatedAt)
    else if m.updatedAt.None? then Some(UpdatedAt)
    else if m.name.None? || !schema.validName(m.name.value) then Some(Name)
    else if m.platform.None? || !schema.validPlatform(m.platform.value) then Some(Platform)
    else if m.kind.None? || !schema.validType(m.kind.value) then Some(Type)
    else if m.credentials.None? then Some(Credentials)
    else if m.extra.None? then Some(Extra)
    else if m.concurrency.None? then Some(Concurrency)
    else if m.priority.None? then Some(Priority)
    else if m.rateMultiplier.None? then Some(RateMultiplier)
    else if m.status.None? || !schema.validStatus(m.status.value) then Some(Status)
    else if m.autoPauseOnExpired.None? then Some(AutoPauseOnExpired)
    else if m.schedulable.None? then Some(Schedulable)
    else if m.sessionWindowStatus.Some? && !schema.validSessionWindowStatus(m.sessionWindowStatus.value) then
      Some(SessionWindowStatus)
    else None
  }

  lemma CheckedIsSet(m: Mutation, schema: Schema, column: Column)
    requires Check(m, schema) == None && column in REQUIRED_COLUMNS
    ensures Value(m, column) != Null
  {
  }

  /**
    A mutation that passes the check leaves no required column of its row NULL,
    so reading the row back needs no zero value for them.
  */
  lemma CheckedRowIsComplete(m: Mutation, schema: Schema, id: int, column: Column)
    requires Check(m, schema) == None && column in REQUIRED_COLUMNS
    ensures RowCell(SpecOf(m), id, column) != Null
    ensures Get(NodeOf(m), column) == RowCell(SpecOf(m), id, column)
  {
    CheckedIsSet(m, schema, column);
    RequiredIsStored(column);
    RowShowsMutation(m, id, column);
    NodeShowsMutation(m, column);
  }

  lemma RequiredIsStored(column: Column)
    requires column in REQUIRED_COLUMNS
    ensures column != Id && !column.Selected?
  {
  }

  /** Once the defaults went through, the check fails only for what the caller has to provide or got wrong. */
  lemma DefaultsThenCheck(m: Mutation, schema: Schema)
    requires Defaults(m, schema).1
    ensures var filled := Defaults(m, schema).0;
      Check(filled, schema) == None <==>
        && m.name.Some? && schema.validName(m.name.value)
        && m.platform.Some? && schema.validPlatform(m.platform.value)
        && m.kind.Some? && schema.validType(m.kind.value)
        && schema.validStatus(Or(m.status, schema.defaultStatus))
        && (m.sessionWindowStatus.Some? ==> schema.validSessionWindowStatus(m.sessionWindowStatus.value))
  {
  }

  /** `filled` differs from `m` only in columns that have a default and that the caller left unset. */
  ghost predicate Fills(m: Mutation, filled: Mutation) {
    FillsMaps(m, filled) && FillsValues(m, filled) && SameUndefaulted(m, filled)
  }

  ghost predicate FillsMaps(m: Mutation, filled: Mutation) {
    && (m.createdAt.Some? ==> filled.createdAt == m.createdAt)
    && (m.updatedAt.Some? ==> filled.updatedAt == m.updatedAt)
    && (m.credentials.Some? ==> filled.credentials == m.credentials)
    && (m.extra.Some? ==> filled.extra == m.extra)
  }

  ghost predicate FillsValues(m: Mutation, filled: Mutation) {
    && (m.concurrency.Some? ==> filled.concurrency == m.concurrency)
    && (m.priority.Some? ==> filled.priority == m.priority)
    && (m.rateMultiplier.Some? ==> filled.rateMultiplier == m.rateMultiplier)
    && (m.status.Some? ==> filled.status == m.status)
    && (m.autoPauseOnExpired.Some? ==> filled.autoPauseOnExpired == m.autoPauseOnExpired)
    && (m.schedulable.Some? ==> filled.schedulable == m.schedulable)
  }

  ghost predicate SameUndefaulted(m: Mutation, filled: Mutation) {
    m == filled.(createdAt := m.createdAt, updatedAt := m.updatedAt, credentials := m.credentials,
      extra := m.extra, concurrency := m.concurrency, priority := m.priority, rateMultiplier := m.rateMultiplier,
      status := m.status, autoPauseOnExpired := m.autoPauseOnExpired, schedulable := m.schedulable)
  }

  lemma DefaultsFillMaps(m: Mutation, schema: Schema)
    ensures FillsMaps(m, Defaults(m, schema).0)
  {
  }

  lemma DefaultsFillValues(m: Mutation, schema: Schema)
    ensures FillsValues(m, Defaults(m, schema).0)
  {
  }

  lemma DefaultsKeepUndefaulted(m: Mutation, schema: Schema)
    ensures SameUndefaulted(m, Defaults(m, schema).0)
  {
  }

  /** Defaults never replace a value that the caller set, and touch only the columns that have one. */
  lemma DefaultsKeepSetValues(m: Mutation, schema: Schema)
    ensures Fills(m, Defaults(m, schema).0)
  {
    DefaultsFillMaps(m, schema);
    DefaultsFillValues(m, schema);
    DefaultsKeepUndefaulted(m, schema);
  }
}
