/**
  The audit gate: every high or critical finding of a `pnpm audit` report needs a
  valid, unexpired exception. Loops that accumulate an index and lists of errors
  are proved to decide a policy stated without them.

  An uncaught Python exception ends the script with a failure; it is the None of
  the functions here.
 */
module AuditGate {

  import opened Text
  import Parser = AuditExceptionParser

  type Record = Parser.Record

  /** A JSON value of the report; object entries in order. */
  datatype Json =
    | Null | Bool(b: bool) | Num(n: int) | Str(s: string)
    | List(items: seq<Json>) | Dict(entries: seq<(string, Json)>)

  /**
    `str` on values that are not strings, `date.fromisoformat` (None where it
    raises) to day numbers, and `date.today`.
  */
  datatype Env = Env(repr: Json -> string, parseDate: string -> Option<int>, today: int)

  // ----------------------------------------------------------------- values

  predicate Truthy(v: Json) {
    match v
    case Null => false
    case Bool(b) => b
    case Num(n) => n != 0
    case Str(s) => s != ""
    case List(items) => items != []
    case Dict(entries) => entries != []
  }

  function Or(a: Json, b: Json): Json {
    if Truthy(a) then a else b
  }

  /** `get`, whose default None is also what a null entry gives. */
  function Get(entries: seq<(string, Json)>, key: string): Json
    decreases |entries|
  {
    if |entries| == 0 then Null
    else if entries[0].0 == key then entries[0].1
    else Get(entries[1..], key)
  }

  function Show(env: Env, v: Json): string {
    if v.Str? then v.s else env.repr(v)
  }

  /** None: the value has no `strip`. */
  function NormalizeSeverity(v: Json): Option<string> {
    if !Truthy(v) then Some("") else if v.Str? then Some(Normalized(v.s)) else None
  }

  function NormalizePackage(env: Env, v: Json): string {
    if v == Null then "" else Trim(Show(env, v))
  }

  function NormalizeAdvisory(env: Env, v: Json): string {
    if v == Null then "" else Normalized(Show(env, v))
  }

  // --------------------------------------------------------------- findings

  datatype Finding = Finding(name: Json, severity: Json, advisory: Json)

  /** `(cves or [None])[0]`. */
  function FirstCve(cves: Json): Option<Json> {
    if !Truthy(cves) then Some(Null)
    else
      match cves
      case List(items) => Some(items[0])
      case Str(s) => Some(Str([s[0]]))
      case _ => None
  }

  function PickAdvisoryId(env: Env, advisory: seq<(string, Json)>): Option<Json> {
    var stable := Or(Get(advisory, "github_advisory_id"), Get(advisory, "url"));
    if Truthy(stable) then Some(stable)
    else
      var cve := FirstCve(Get(advisory, "cves"));
      if cve.None? || Truthy(cve.value) then cve
      else
        var id := Get(advisory, "id");
        if id != Null && Show(env, id) != "" then Some(Str(Show(env, id)))
        else Some(Or(Get(advisory, "title"), Or(Get(advisory, "advisory"), Get(advisory, "overview"))))
  }

  function AdvisoryFinding(env: Env, advisory: Json): Option<Finding> {
    if !advisory.Dict? then None
    else
      var id := PickAdvisoryId(env, advisory.entries);
      if id.None? then None
      else
        Some(Finding(Or(Get(advisory.entries, "module_name"), Get(advisory.entries, "name")),
                     Get(advisory.entries, "severity"), id.value))
  }

  function ItemId(item: Json): Json {
    if item.Dict? then
      Or(Get(item.entries, "github_advisory_id"), Or(Get(item.entries, "url"),
         Or(Get(item.entries, "source"), Or(Get(item.entries, "title"), Get(item.entries, "name")))))
    else if item.Str? then item
    else Null
  }

  function ItemTitle(item: Json): Json {
    if item.Dict? then
      Or(Get(item.entries, "title"), Or(Get(item.entries, "url"),
         Or(Get(item.entries, "advisory"), Get(item.entries, "source"))))
    else if item.Str? then item
    else Null
  }

  /** What `via` lists; a lone string counts as a list of one. */
  function ViaItems(via: Json): seq<Json> {
    match via
    case List(items) => items
    case Str(_) => [via]
    case _ => []
  }

  /** Joining the titles fails on one that is not a string. */
  predicate TitlesJoin(items: seq<Json>) {
    forall i :: 0 <= i < |items| ==> Truthy(ItemTitle(items[i])) ==> ItemTitle(items[i]).Str?
  }

  function IdFindings(name: string, severity: Json, items: seq<Json>): seq<Finding>
    decreases |items|
  {
    if |items| == 0 then []
    else
      var id := ItemId(items[|items| - 1]);
      IdFindings(name, severity, items[..|items| - 1])
      + (if Truthy(id) then [Finding(Str(name), severity, id)] else [])
  }

  function VulnFindings(name: string, vuln: Json): Option<seq<Finding>> {
    if !vuln.Dict? then None
    else
      var items := ViaItems(Get(vuln.entries, "via"));
      if TitlesJoin(items) then Some(IdFindings(name, Get(vuln.entries, "severity"), items)) else None
  }

  function Entries(v: Json): seq<(string, Json)> {
    if v.Dict? then v.entries else []
  }

  function FromAdvisories(env: Env, entries: seq<(string, Json)>): Option<seq<Finding>>
    decreases |entries|
  {
    if |entries| == 0 then Some([])
    else
      var before := FromAdvisories(env, entries[..|entries| - 1]);
      var last := AdvisoryFinding(env, entries[|entries| - 1].1);
      if before.None? || last.None? then None else Some(before.value + [last.value])
  }

  function FromVulnerabilities(entries: seq<(string, Json)>): Option<seq<Finding>>
    decreases |entries|
  {
    if |entries| == 0 then Some([])
    else
      var before := FromVulnerabilities(entries[..|entries| - 1]);
      var last := VulnFindings(entries[|entries| - 1].0, entries[|entries| - 1].1);
      if before.None? || last.None? then None else Some(before.value + last.value)
  }

  function Findings(env: Env, audit: Json): Option<seq<Finding>> {
    if !audit.Dict? then None
    else
      var first := FromAdvisories(env, Entries(Get(audit.entries, "advisories")));
      var second := FromVulnerabilities(Entries(Get(audit.entries, "vulnerabilities")));
      if first.None? || second.None? then None else Some(first.value + second.value)
  }

  method CollectIds(name: string, severity: Json, items: seq<Json>) returns (findings: seq<Finding>, joins: bool)
    ensures findings == IdFindings(name, severity, items) && joins == TitlesJoin(items)
  {
    findings, joins := [], true;
    for i := 0 to |items|
      invariant findings == IdFindings(name, severity, items[..i]) && joins == TitlesJoin(items[..i])
    {
      assert items[..i + 1][..i] == items[..i];
      var id, title := ItemId(items[i]), ItemTitle(items[i]);
      if Truthy(title) && !title.Str? {
        joins := false;
        assert items[..i + 1][i] == items[i];
      }
      if Truthy(id) {
        findings := findings + [Finding(Str(name), severity, id)];
      }
      assert joins ==> forall k :: 0 <= k < i + 1 ==> items[..i + 1][k] == if k < i then items[..i][k] else items[i];
      assert forall k :: 0 <= k < i ==> items[..i][k] == items[..i + 1][k];
    }
    assert items[..|items|] == items;
  }

  method CollectAdvisories(env: Env, entries: seq<(string, Json)>) returns (result: Option<seq<Finding>>)
    ensures result == FromAdvisories(env, entries)
  {
    var findings := [];
    for i := 0 to |entries|
      invariant FromAdvisories(env, entries[..i]) == Some(findings)
    {
      assert entries[..i + 1][..i] == entries[..i];
      var finding := AdvisoryFinding(env, entries[i].1);
      if finding.None? {
        AdvisoriesFail(env, entries, i + 1);
        return None;
      }
      findings := findings + [finding.value];
    }
    assert entries[..|entries|] == entries;
    return Some(findings);
  }

  method CollectVulnerabilities(entries: seq<(string, Json)>) returns (result: Option<seq<Finding>>)
    ensures result == FromVulnerabilities(entries)
  {
    var findings := [];
    for i := 0 to |entries|
      invariant FromVulnerabilities(entries[..i]) == Some(findings)
    {
      assert entries[..i + 1][..i] == entries[..i];
      var (name, vuln) := entries[i];
      var more, joins := [], vuln.Dict?;
      if joins {
        more, joins := CollectIds(name, Get(vuln.entries, "severity"), ViaItems(Get(vuln.entries, "via")));
      }
      assert VulnFindings(name, vuln) == if joins then Some(more) else None;
      if !joins {
        VulnerabilitiesFail(entries, i + 1);
        return None;
      }
      findings := findings + more;
    }
    assert entries[..|entries|] == entries;
    return Some(findings);
  }

  method IterVulns(env: Env, audit: Json) returns (result: Option<seq<Finding>>)
    ensures result == Findings(env, audit)
  {
    if !audit.Dict? {
      return None;
    }
    var first := CollectAdvisories(env, Entries(Get(audit.entries, "advisories")));
    if first.None? {
      return None;
    }
    var second := CollectVulnerabilities(Entries(Get(audit.entries, "vulnerabilities")));
    if second.None? {
      return None;
    }
    return Some(first.value + second.value);
  }

  lemma {:induction false} AdvisoriesFail(env: Env, entries: seq<(string, Json)>, n: nat)
    requires n <= |entries| && FromAdvisories(env, entries[..n]).None?
    ensures FromAdvisories(env, entries).None?
    decreases |entries|
  {
    if n < |entries| {
      assert entries[..|entries| - 1][..n] == entries[..n];
      AdvisoriesFail(env, entries[..|entries| - 1], n);
    } else {
      assert entries[..n] == entries;
    }
  }

  lemma {:induction false} VulnerabilitiesFail(entries: seq<(string, Json)>, n: nat)
    requires n <= |entries| && FromVulnerabilities(entries[..n]).None?
    ensures FromVulnerabilities(entries).None?
    decreases |entries|
  {
    if n < |entries| {
      assert entries[..|entries| - 1][..n] == entries[..n];
      VulnerabilitiesFail(entries[..|entries| - 1], n);
    } else {
      assert entries[..n] == entries;
    }
  }

  // -------------------------------------------------------- exception index

  type Key = (string, string)

  datatype Entry = Entry(severity: string, expires: int)

  datatype Complaint =
    | MissingFields(record: Record) | InvalidDate(record: Record) | EmptyKey(record: Record) | Duplicate(record: Record)
    | MissingAdvisory(finding: Finding) | SeverityMismatch(finding: Finding)
    | MissingException(finding: Finding) | Expired(finding: Finding)

  const REQUIRED_FIELDS := {"package", "advisory", "severity", "mitigation", "expires_on"}

  predicate Complete(record: Record) {
    forall field :: field in REQUIRED_FIELDS ==> field in record && record[field] != ""
  }

  function RecordKey(record: Record): Key
    requires Complete(record)
  {
    assert "package" in REQUIRED_FIELDS && "advisory" in REQUIRED_FIELDS;
    (Trim(record["package"]), Normalized(record["advisory"]))
  }

  function RecordDate(env: Env, record: Record): Option<int>
    requires Complete(record)
  {
    assert "expires_on" in REQUIRED_FIELDS;
    env.parseDate(record["expires_on"])
  }

  function RecordSeverity(record: Record): string
    requires Complete(record)
  {
    assert "severity" in REQUIRED_FIELDS;
    Normalized(record["severity"])
  }

  type Index = map<Key, Entry>

  /** One record: what it adds to the index, or the complaint about it. */
  function Judge(env: Env, index: Index, record: Record): (Index, seq<Complaint>) {
    if !Complete(record) then (index, [MissingFields(record)])
    else
      var key, date := RecordKey(record), RecordDate(env, record);
      if date.None? then (index, [InvalidDate(record)])
      else if key.0 == "" || key.1 == "" then (index, [EmptyKey(record)])
      else if key in index then (index, [Duplicate(record)])
      else (index[key := Entry(RecordSeverity(record), date.value)], [])
  }

  function Indexed(env: Env, records: seq<Record>): (Index, seq<Complaint>)
    decreases |records|
  {
    if |records| == 0 then (map[], [])
    else
      var (index, errors) := Indexed(env, records[..|records| - 1]);
      var (next, more) := Judge(env, index, records[|records| - 1]);
      (next, errors + more)
  }

  method BuildIndex(env: Env, records: seq<Record>) returns (index: Index, errors: seq<Complaint>)
    ensures (index, errors) == Indexed(env, records)
  {
    index, errors := map[], [];
    for i := 0 to |records|
      invariant (index, errors) == Indexed(env, records[..i])
    {
      assert records[..i + 1][..i] == records[..i];
      var record := records[i];
      if !Complete(record) {
        errors := errors + [MissingFields(record)];
        continue;
      }
      var severity, key, date := RecordSeverity(record), RecordKey(record), RecordDate(env, record);
      if date.None? {
        errors := errors + [InvalidDate(record)];
        continue;
      }
      if key.0 == "" || key.1 == "" {
        errors := errors + [EmptyKey(record)];
        continue;
      }
      if key in index {
        errors := errors + [Duplicate(record)];
        continue;
      }
      index := index[key := Entry(severity, date.value)];
      assert errors == errors + [];
    }
    assert records[..|records|] == records;
  }

  // ----------------------------------------------------------- the decision

  const HIGH_SEVERITIES := {"high", "critical"}

  datatype Verdicts = Verdicts(seen: set<Key>, errors: seq<Complaint>, missing: seq<Complaint>, expired: seq<Complaint>)

  /** One finding; None where its severity cannot be normalised. */
  function Weigh(env: Env, index: Index, v: Verdicts, finding: Finding): Option<Verdicts> {
    var severity := NormalizeSeverity(finding.severity);
    if severity.None? then None
    else if severity.value !in HIGH_SEVERITIES || !Truthy(finding.name) then Some(v)
    else
      var advisory := NormalizeAdvisory(env, finding.advisory);
      if advisory == "" then Some(v.(errors := v.errors + [MissingAdvisory(finding)]))
      else
        var key := (NormalizePackage(env, finding.name), advisory);
        if key in v.seen then Some(v)
        else if key !in index then
          Some(v.(seen := v.seen + {key}, missing := v.missing + [MissingException(finding)]))
        else
          var entry := index[key];
          Some(v.(seen := v.seen + {key},
                  errors := v.errors + (if entry.severity != "" && entry.severity != severity.value then [SeverityMismatch(finding)] else []),
                  expired := v.expired + (if entry.expires < env.today then [Expired(finding)] else [])))
  }

  function Weighed(env: Env, index: Index, errors: seq<Complaint>, findings: seq<Finding>): Option<Verdicts>
    decreases |findings|
  {
    if |findings| == 0 then Some(Verdicts({}, errors, [], []))
    else
      var before := Weighed(env, index, errors, findings[..|findings| - 1]);
      if before.None? then None else Weigh(env, index, before.value, findings[|findings| - 1])
  }

  /** All complaints in the order in which they are reported; None for a crash. */
  function Complaints(env: Env, audit: Json, lines: seq<string>): Option<seq<Complaint>> {
    var records := Parser.Parsed(lines);
    if records.None? then None
    else
      var findings := Findings(env, audit);
      if findings.None? then None
      else
        var (index, errors) := Indexed(env, records.value);
        var v := Weighed(env, index, errors, findings.value);
        if v.None? then None else Some(v.value.errors + v.value.missing + v.value.expired)
  }

  method WeighAll(env: Env, index: Index, complaints: seq<Complaint>, findings: seq<Finding>)
    returns (result: Option<Verdicts>)
    ensures result == Weighed(env, index, complaints, findings)
  {
    var errors, seen, missing, expired := complaints, {}, [], [];
    for i := 0 to |findings|
      invariant Weighed(env, index, complaints, findings[..i]) == Some(Verdicts(seen, errors, missing, expired))
    {
      assert findings[..i + 1][..i] == findings[..i];
      ghost var before := Verdicts(seen, errors, missing, expired);
      var finding := findings[i];
      var severity := NormalizeSeverity(finding.severity);
      if severity.None? {
        WeighedFails(env, index, complaints, findings, i + 1);
        return None;
      }
      if severity.value !in HIGH_SEVERITIES || !Truthy(finding.name) {
        continue;
      }
      var advisory := NormalizeAdvisory(env, finding.advisory);
      if advisory == "" {
        errors := errors + [MissingAdvisory(finding)];
        continue;
      }
      var key := (NormalizePackage(env, finding.name), advisory);
      if key in seen {
        continue;
      }
      seen := seen + {key};
      if key !in index {
        missing := missing + [MissingException(finding)];
        continue;
      }
      var entry := index[key];
      var mismatch, late := entry.severity != "" && entry.severity != severity.value, entry.expires < env.today;
      if mismatch {
        errors := errors + [SeverityMismatch(finding)];
      }
      if late {
        expired := expired + [Expired(finding)];
      }
      assert errors == before.errors + if mismatch then [SeverityMismatch(finding)] else [];
      assert expired == before.expired + if late then [Expired(finding)] else [];
    }
    assert findings[..|findings|] == findings;
    return Some(Verdicts(seen, errors, missing, expired));
  }

  /** `main`: the exit code, None for a crash, with what it reports. */
  method Check(env: Env, audit: Json, lines: seq<string>) returns (code: Option<int>, report: seq<Complaint>)
    ensures Complaints(env, audit, lines).None? ==> code == None && report == []
    ensures Complaints(env, audit, lines).Some? ==>
      report == Complaints(env, audit, lines).value && code == Some(if report == [] then 0 else 1)
  {
    var records := Parser.ParseExceptions(lines);
    if records.None? {
      return None, [];
    }
    var index, errors := BuildIndex(env, records.value);
    var findings := IterVulns(env, audit);
    if findings.None? {
      return None, [];
    }
    var verdicts := WeighAll(env, index, errors, findings.value);
    if verdicts.None? {
      return None, [];
    }
    report := verdicts.value.errors + verdicts.value.missing + verdicts.value.expired;
    return Some(if report == [] then 0 else 1), report;
  }

  lemma {:induction false} WeighedFails(env: Env, index: Index, errors: seq<Complaint>, findings: seq<Finding>, n: nat)
    requires n <= |findings| && Weighed(env, index, errors, findings[..n]).None?
    ensures Weighed(env, index, errors, findings).None?
    decreases |findings|
  {
    if n < |findings| {
      assert findings[..|findings| - 1][..n] == findings[..n];
      WeighedFails(env, index, errors, findings[..|findings| - 1], n);
    } else {
      assert findings[..n] == findings;
    }
  }

  // -------------------------------------------------------------- the policy

  /** All required fields, a date, and a usable key. */
  predicate GoodRecord(env: Env, record: Record) {
    Complete(record) && RecordDate(env, record).Some? && RecordKey(record).0 != "" && RecordKey(record).1 != ""
  }

  ghost predicate GoodRecords(env: Env, records: seq<Record>) {
    && (forall i :: 0 <= i < |records| ==> GoodRecord(env, records[i]))
    && forall i, j :: 0 <= i < j < |records| ==> RecordKey(records[i]) != RecordKey(records[j])
  }

  predicate Readable(finding: Finding) {
    NormalizeSeverity(finding.severity).Some?
  }

  /** A named finding of high or critical severity. */
  predicate Grave(finding: Finding) {
    Readable(finding) && NormalizeSeverity(finding.severity).value in HIGH_SEVERITIES && Truthy(finding.name)
  }

  function FindingKey(env: Env, finding: Finding): Key {
    (NormalizePackage(env, finding.name), NormalizeAdvisory(env, finding.advisory))
  }

  /** No grave finding before the `i`-th shares its key. */
  ghost predicate IsFirst(env: Env, findings: seq<Finding>, i: nat)
    requires i < |findings|
  {
    forall j :: 0 <= j < i && Grave(findings[j]) ==> FindingKey(env, findings[j]) != FindingKey(env, findings[i])
  }

  /**
    The record excuses the `i`-th finding; only the first finding of a key has to
    agree on the severity, and a blank severity always does.
  */
  ghost predicate Excuses(env: Env, record: Record, findings: seq<Finding>, i: nat)
    requires i < |findings| && Readable(findings[i])
  {
    && GoodRecord(env, record) && RecordKey(record) == FindingKey(env, findings[i])
    && RecordDate(env, record).value >= env.today
    && (IsFirst(env, findings, i) ==>
          RecordSeverity(record) == "" || RecordSeverity(record) == NormalizeSeverity(findings[i].severity).value)
  }

  ghost predicate Excused(env: Env, records: seq<Record>, findings: seq<Finding>, i: nat)
    requires i < |findings| && Readable(findings[i])
  {
    FindingKey(env, findings[i]).1 != "" && exists r :: 0 <= r < |records| && Excuses(env, records[r], findings, i)
  }

  /** What the gate is for: well-formed exceptions with distinct keys, one for every grave finding. */
  ghost predicate Policy(env: Env, records: seq<Record>, findings: seq<Finding>) {
    && GoodRecords(env, records)
    && (forall i :: 0 <= i < |findings| ==> Readable(findings[i]))
    && forall i :: 0 <= i < |findings| && Grave(findings[i]) ==> Excused(env, records, findings, i)
  }

  function EntryOf(env: Env, record: Record): Entry
    requires GoodRecord(env, record)
  {
    Entry(RecordSeverity(record), RecordDate(env, record).value)
  }

  ghost predicate IndexOf(env: Env, records: seq<Record>, index: Index)
    requires GoodRecords(env, records)
  {
    && (forall i :: 0 <= i < |records| ==> Holds(env, records[i], index))
    && forall key :: key in index ==> exists i :: 0 <= i < |records| && RecordKey(records[i]) == key
  }

  /** No complaint iff all exceptions are good, and then the index holds exactly them. */
  lemma {:induction false} IndexedSpec(env: Env, records: seq<Record>)
    ensures Indexed(env, records).1 == [] <==> GoodRecords(env, records)
    ensures GoodRecords(env, records) ==> IndexOf(env, records, Indexed(env, records).0)
    decreases |records|
  {
    if |records| != 0 {
      var init, last := records[..|records| - 1], records[|records| - 1];
      IndexedSpec(env, init);
      JudgedSpec(env, init, last, Indexed(env, init).0);
      assert records == init + [last];
    }
  }

  /** No good record before it has the key of `last`. */
  ghost predicate FreshKey(env: Env, init: seq<Record>, last: Record)
    requires GoodRecords(env, init) && GoodRecord(env, last)
  {
    forall i :: 0 <= i < |init| ==> RecordKey(init[i]) != RecordKey(last)
  }

  lemma GoodAppend(env: Env, init: seq<Record>, last: Record)
    ensures GoodRecords(env, init + [last])
       <==> GoodRecords(env, init) && GoodRecord(env, last) && FreshKey(env, init, last)
  {
    var records, n := init + [last], |init|;
    assert records[n] == last && forall i :: 0 <= i < n ==> records[i] == init[i];
    if GoodRecords(env, records) {
      forall i | 0 <= i < n
        ensures GoodRecord(env, init[i]) && RecordKey(init[i]) != RecordKey(last)
      {
        assert GoodRecord(env, records[i]) && GoodRecord(env, records[n]);
        assert RecordKey(records[i]) != RecordKey(records[n]);
      }
      forall i, j | 0 <= i < j < n
        ensures RecordKey(init[i]) != RecordKey(init[j])
      {
        assert RecordKey(records[i]) != RecordKey(records[j]);
      }
    }
  }

  ghost predicate Holds(env: Env, record: Record, index: Index)
    requires GoodRecord(env, record)
  {
    RecordKey(record) in index && index[RecordKey(record)] == EntryOf(env, record)
  }

  lemma HoldsStep(env: Env, record: Record, last: Record, index: Index)
    requires GoodRecord(env, record) && GoodRecord(env, last)
    requires record == last || (RecordKey(record) != RecordKey(last) && Holds(env, record, index))
    ensures Holds(env, record, index[RecordKey(last) := EntryOf(env, last)])
  {
  }

  lemma IndexAppend(env: Env, init: seq<Record>, last: Record, index: Index, next: Index)
    requires GoodRecords(env, init) && GoodRecord(env, last) && IndexOf(env, init, index)
    requires FreshKey(env, init, last) && GoodRecords(env, init + [last])
    requires next == index[RecordKey(last) := EntryOf(env, last)]
    ensures IndexOf(env, init + [last], next)
  {
    var records, n := init + [last], |init|;
    assert records[n] == last && forall i :: 0 <= i < n ==> records[i] == init[i];
    forall i | 0 <= i < |records|
      ensures Holds(env, records[i], next)
    {
      if i < n {
        assert Holds(env, init[i], index);
      }
      HoldsStep(env, records[i], last, index);
    }
    forall key | key in next
      ensures exists i :: 0 <= i < |records| && RecordKey(records[i]) == key
    {
      if key == RecordKey(last) {
        assert RecordKey(records[n]) == key;
      } else {
        var i :| 0 <= i < n && RecordKey(init[i]) == key;
        assert RecordKey(records[i]) == key;
      }
    }
  }

  lemma JudgedSpec(env: Env, init: seq<Record>, last: Record, index: Index)
    requires GoodRecords(env, init) ==> IndexOf(env, init, index)
    ensures GoodRecords(env, init + [last]) <==> GoodRecords(env, init) && Judge(env, index, last).1 == []
    ensures GoodRecords(env, init + [last]) ==> IndexOf(env, init + [last], Judge(env, index, last).0)
  {
    GoodAppend(env, init, last);
    if GoodRecords(env, init) && GoodRecord(env, last) {
      FreshIsAbsent(env, init, last, index);
      if FreshKey(env, init, last) {
        IndexAppend(env, init, last, index, Judge(env, index, last).0);
      }
    }
  }

  lemma FreshIsAbsent(env: Env, init: seq<Record>, last: Record, index: Index)
    requires GoodRecords(env, init) && GoodRecord(env, last) && IndexOf(env, init, index)
    ensures FreshKey(env, init, last) <==> RecordKey(last) !in index
  {
  }

  /** The `i`-th finding, held against the index. */
  ghost predicate Met(env: Env, index: Index, findings: seq<Finding>, i: nat)
    requires i < |findings| && Readable(findings[i])
  {
    var key := FindingKey(env, findings[i]);
    && key.1 != "" && key in index && index[key].expires >= env.today
    && (IsFirst(env, findings, i) ==>
          index[key].severity == "" || index[key].severity == NormalizeSeverity(findings[i].severity).value)
  }

  predicate Clean(v: Verdicts) {
    v.errors == [] && v.missing == [] && v.expired == []
  }

  ghost predicate SeenRight(env: Env, findings: seq<Finding>, seen: set<Key>) {
    forall key: Key ::
      key in seen <==> key.1 != "" && KeyAmong(env, findings, key)
  }

  ghost predicate KeyAmong(env: Env, findings: seq<Finding>, key: Key) {
    exists j :: 0 <= j < |findings| && Grave(findings[j]) && FindingKey(env, findings[j]) == key
  }

  ghost predicate AllMet(env: Env, index: Index, findings: seq<Finding>) {
    forall i :: 0 <= i < |findings| && Grave(findings[i]) ==> Met(env, index, findings, i)
  }

  lemma {:induction false} WeighedSpec(env: Env, index: Index, errors: seq<Complaint>, findings: seq<Finding>)
    ensures var v := Weighed(env, index, errors, findings);
      && (v.Some? <==> forall i :: 0 <= i < |findings| ==> Readable(findings[i]))
      && (v.Some? ==> SeenRight(env, findings, v.value.seen))
      && (v.Some? ==> (Clean(v.value) <==> errors == [] && AllMet(env, index, findings)))
    decreases |findings|
  {
    if |findings| != 0 {
      var init, last := findings[..|findings| - 1], findings[|findings| - 1];
      WeighedSpec(env, index, errors, init);
      assert findings == init + [last];
      var before := Weighed(env, index, errors, init);
      if before.Some? && Readable(last) {
        WeighStep(env, index, init, last, before.value);
        AllMetStep(env, index, init, last);
      }
    }
  }

  lemma AllMetStep(env: Env, index: Index, init: seq<Finding>, last: Finding)
    ensures AllMet(env, index, init + [last])
       <==> AllMet(env, index, init) && (Grave(last) ==> Met(env, index, init + [last], |init|))
  {
    var all := init + [last];
    forall i | 0 <= i < |init| && Grave(init[i])
      ensures all[i] == init[i] && (Met(env, index, all, i) <==> Met(env, index, init, i))
    {
      assert all[i] == init[i];
      assert forall j :: 0 <= j < i ==> all[j] == init[j];
      assert IsFirst(env, all, i) <==> IsFirst(env, init, i);
    }
    assert all[|init|] == last;
    if AllMet(env, index, all) {
      forall i | 0 <= i < |init| && Grave(init[i])
        ensures Met(env, index, init, i)
      {
        assert Grave(all[i]) && Met(env, index, all, i);
      }
    }
  }

  lemma WeighStep(env: Env, index: Index, init: seq<Finding>, last: Finding, v: Verdicts)
    requires Readable(last) && SeenRight(env, init, v.seen)
    ensures var next := Weigh(env, index, v, last);
      && next.Some? && SeenRight(env, init + [last], next.value.seen)
      && (AllMet(env, index, init) ==>
            (Clean(next.value) <==> Clean(v) && (Grave(last) ==> Met(env, index, init + [last], |init|))))
      && (Clean(next.value) ==> Clean(v))
  {
    var key := FindingKey(env, last);
    SeenStep(env, init, last, v.seen);
    if Grave(last) && key.1 != "" {
      if key in v.seen {
        SeenIsMet(env, index, init, last);
      } else {
        UnseenIsFirst(env, init, last, v.seen);
      }
    }
  }

  /** A later finding of a key is met if the earlier one is. */
  lemma SeenIsMet(env: Env, index: Index, init: seq<Finding>, last: Finding)
    requires Readable(last) && KeyAmong(env, init, FindingKey(env, last)) && FindingKey(env, last).1 != ""
    ensures AllMet(env, index, init) ==> Met(env, index, init + [last], |init|)
  {
    var all, n, key := init + [last], |init|, FindingKey(env, last);
    var j :| 0 <= j < n && Grave(init[j]) && FindingKey(env, init[j]) == key;
    assert all[j] == init[j] && all[n] == last && !IsFirst(env, all, n);
    if AllMet(env, index, init) {
      assert Met(env, index, init, j);
    }
  }

  lemma UnseenIsFirst(env: Env, init: seq<Finding>, last: Finding, seen: set<Key>)
    requires SeenRight(env, init, seen) && FindingKey(env, last) !in seen && FindingKey(env, last).1 != ""
    ensures IsFirst(env, init + [last], |init|)
  {
    var all := init + [last];
    assert all[|init|] == last && forall j :: 0 <= j < |init| ==> all[j] == init[j];
  }

  lemma SeenStep(env: Env, init: seq<Finding>, last: Finding, seen: set<Key>)
    requires SeenRight(env, init, seen)
    ensures var key := FindingKey(env, last);
      SeenRight(env, init + [last], if Grave(last) && key.1 != "" then seen + {key} else seen)
  {
    var all, n := init + [last], |init|;
    assert all[n] == last && forall j :: 0 <= j < n ==> all[j] == init[j];
    forall key: Key
      ensures KeyAmong(env, all, key)
         <==> KeyAmong(env, init, key) || (Grave(last) && FindingKey(env, last) == key)
    {
      if j :| 0 <= j < n && Grave(init[j]) && FindingKey(env, init[j]) == key {
        assert Grave(all[j]);
      }
      if Grave(last) && FindingKey(env, last) == key {
        assert Grave(all[n]);
      }
    }
  }

  /** With good exceptions, being met by the index is being excused by a record. */
  lemma MetIsExcused(env: Env, records: seq<Record>, index: Index, findings: seq<Finding>, i: nat)
    requires GoodRecords(env, records) && IndexOf(env, records, index)
    requires i < |findings| && Readable(findings[i])
    ensures Met(env, index, findings, i) <==> Excused(env, records, findings, i)
  {
  }

  /**
    Exactness: the script reports nothing, and so exits with 0, iff both files can
    be read and the policy holds. It crashes iff a file cannot be read or some
    finding's severity is neither text nor falsy.
  */
  lemma GateIsPolicy(env: Env, audit: Json, lines: seq<string>)
    ensures var records, findings := Parser.Parsed(lines), Findings(env, audit);
      && (Complaints(env, audit, lines) == Some([])
          <==> (records.Some? && findings.Some? && Policy(env, records.value, findings.value)))
      && (Complaints(env, audit, lines).Some?
          <==> (records.Some? && findings.Some?
                && forall i :: 0 <= i < |findings.value| ==> Readable(findings.value[i])))
  {
    var records, findings := Parser.Parsed(lines), Findings(env, audit);
    if records.Some? && findings.Some? {
      var (index, errors) := Indexed(env, records.value);
      IndexedSpec(env, records.value);
      WeighedSpec(env, index, errors, findings.value);
      if GoodRecords(env, records.value) {
        forall i | 0 <= i < |findings.value| && Grave(findings.value[i])
          ensures Met(env, index, findings.value, i) <==> Excused(env, records.value, findings.value, i)
        {
          MetIsExcused(env, records.value, index, findings.value, i);
        }
      }
    }
  }

  /**
    No advisory of a vulnerability is dropped: each identifier found under `via`
    becomes a finding, and nothing else does.
  */
  lemma {:induction false} IdFindingsAre(name: string, severity: Json, items: seq<Json>, finding: Finding)
    ensures finding in IdFindings(name, severity, items)
       <==> exists i :: 0 <= i < |items| && Truthy(ItemId(items[i])) && finding == Finding(Str(name), severity, ItemId(items[i]))
    decreases |items|
  {
    if |items| != 0 {
      var init, n := items[..|items| - 1], |items| - 1;
      IdFindingsAre(name, severity, init, finding);
      assert forall i :: 0 <= i < n ==> init[i] == items[i];
      if i :| 0 <= i < n && Truthy(ItemId(init[i])) && finding == Finding(Str(name), severity, ItemId(init[i])) {
        assert Truthy(ItemId(items[i]));
      }
    }
  }
}
