/** The two independently written gates that approve a snapshot for staging and for production. */
module SnapshotGates {
  import opened Wrappers

  // ----- the snapshot -----

  /** Nested data, for the search for demonstration evidence. */
  datatype Json = Text(text: string) | Scalar | List(items: seq<Json>) | Dict(pairs: seq<(string, Json)>)

  datatype Capability = Capability(status: Option<string>, errorCode: Option<string>)

  datatype SourceError = NoError | PlainError | ErrorWith(code: Option<string>)

  /** `capabilities` is None when the field is no mapping, and a capability is None when it is none. */
  datatype Source = Source(
    kind: Option<string>, capabilities: Option<map<string, Option<Capability>>>,
    status: Option<string>, error: SourceError)

  /** Times are in microseconds. `contract` says that the fields, the schema version and the list fields are right. */
  datatype Snapshot = Snapshot(
    contract: bool, tree: Json, publicationMode: string, score: int, sources: seq<Source>, state: string,
    startedAt: int, completedAt: int, generatedAt: int, maxAgeSeconds: int)

  const ESXI := "vmware_esxi"
  const CLASSIC := "cisco_cyber_vision"
  const NEW_UI := "cisco_cyber_vision_new_ui"
  const KINDS := [ESXI, CLASSIC, NEW_UI]

  function StagingRequired(kind: string): set<string> {
    if kind == ESXI then {"vm_inventory"}
    else if kind == CLASSIC then {
      "activities", "baseline_differences", "baselines", "components", "device_risk_scores",
      "device_vulnerabilities", "devices", "event_categories", "event_severities", "flows",
      "protocol_distribution", "reports_metadata", "risk_distribution", "sensor_details", "sensor_stats",
      "sensors", "version", "vulnerabilities"}
    else {"alerts", "assets", "networks", "org_hierarchy", "vulnerability_assets"}
  }

  function ProductionRequired(kind: string): set<string> {
    if kind == ESXI then {"vm_inventory"}
    else if kind == CLASSIC then {
      "activities", "baseline_differences", "baselines", "components", "device_risk_scores",
      "device_vulnerabilities", "devices", "event_categories", "event_severities", "flows",
      "protocol_distribution", "reports_metadata", "risk_distribution", "sensor_details", "sensor_stats",
      "sensors", "version", "vulnerabilities"}
    else {"alerts", "assets", "networks", "org_hierarchy", "vulnerability_assets"}
  }

  const MIN_QUALITY := 80

  // ----- demonstration evidence -----

  predicate MarksDemo(j: Json) {
    j.Dict? && exists i :: 0 <= i < |j.pairs| && j.pairs[i] == ("truth", Text("demo"))
  }

  function Children(j: Json): (c: seq<Json>)
    ensures forall x :: x in c ==> x < j
  {
    match j
    case List(items) => items
    case Dict(pairs) => seq(|pairs|, i requires 0 <= i < |pairs| => pairs[i].1)
    case _ => []
  }

  predicate ContainsDemo(j: Json)
    decreases j
  {
    MarksDemo(j) || exists i :: 0 <= i < |Children(j)| && ContainsDemo(Children(j)[i])
  }

  /** One step down into nested data: an item of a list, or a value of a dictionary. */
  ghost predicate Holds(j: Json, inner: Json) {
    || (j.List? && inner in j.items)
    || (j.Dict? && exists i :: 0 <= i < |j.pairs| && j.pairs[i].1 == inner)
  }

  /** A way down through nested data to a dictionary that says `truth: demo`. */
  ghost predicate LeadsToDemo(way: seq<Json>) {
    && way != [] && (forall i :: 0 <= i < |way| - 1 ==> Holds(way[i], way[i + 1]))
    && var last := way[|way| - 1];
       last.Dict? && ("truth", Text("demo")) in last.pairs
  }

  ghost predicate HasDemo(j: Json) {
    exists way :: LeadsToDemo(way) && way[0] == j
  }

  lemma ChildrenAreHeld(j: Json, inner: Json)
    ensures Holds(j, inner) <==> inner in Children(j)
  {
    if j.Dict? && Holds(j, inner) {
      var i :| 0 <= i < |j.pairs| && j.pairs[i].1 == inner;
      assert Children(j)[i] == inner;
    }
  }

  lemma DemoBelow(j: Json, inner: Json)
    requires Holds(j, inner) && HasDemo(inner)
    ensures HasDemo(j)
  {
    hide Holds;
    var way :| LeadsToDemo(way) && way[0] == inner;
    assert LeadsToDemo([j] + way);
  }

  /** The search finds exactly the data in which some dictionary, at any depth, marks its truth as demo. */
  lemma {:induction false} ContainsDemoMeans(j: Json)
    ensures ContainsDemo(j) <==> HasDemo(j)
    decreases j
  {
    hide Children, Holds;
    forall i | 0 <= i < |Children(j)|
      ensures Holds(j, Children(j)[i]) && (ContainsDemo(Children(j)[i]) <==> HasDemo(Children(j)[i]))
    {
      assert Children(j)[i] in Children(j);
      ChildrenAreHeld(j, Children(j)[i]);
      ContainsDemoMeans(Children(j)[i]);
    }
    if MarksDemo(j) {
      assert LeadsToDemo([j]);
    } else if ContainsDemo(j) {
      var i :| 0 <= i < |Children(j)| && ContainsDemo(Children(j)[i]);
      DemoBelow(j, Children(j)[i]);
    }
    forall way | LeadsToDemo(way) && way[0] == j ensures ContainsDemo(j) {
      if |way| > 1 {
        ChildrenAreHeld(j, way[1]);
        assert LeadsToDemo(way[1..]);
      }
    }
  }

  // ----- findings -----

  datatype Code =
    | PublicationMode | DemoSource | DemoEvidence | LowQuality | ContractInvalid
    | SourceMissing(kind: string) | SourceAmbiguous(kind: string) | SourceMissingOrAmbiguous(kind: string)
    | CapabilityError(kind: string) | CapabilityMissing(kind: string) | SensorStatsNotApproved
    | SourceUnhealthy(kind: string) | SourceFailed(kind: string)
    | StaleByAge | PartialNotApproved | NotFresh

  datatype Note = NetworkScope | SensorStats | PartialForException | RollbackStale

  datatype Policy = Strict | RollbackStaleAllowed

  /** What one capability contributes. */
  datatype Finding = Fine | Fails(code: Code) | Warns | Excepts

  function StagingFinding(kind: string, name: string, capability: Option<Capability>, allowSensorStats: bool): Finding {
    if capability.None? then Fails(CapabilityError(kind))
    else
      var status, error := capability.value.status, capability.value.errorCode;
      if status == Some("available") && error == None then Fine
      else if kind == ESXI && name == "host_network_scope"
              && status == Some("endpoint_unavailable") && error == Some("permission_scope") then Warns
      else if kind == CLASSIC && name == "sensor_stats" && status == Some("error") && error == Some("server_error") then
        if allowSensorStats then Excepts else Fails(SensorStatsNotApproved)
      else Fails(CapabilityError(kind))
  }

  function ProductionFinding(
    kind: string, name: string, capability: Option<Capability>, allowSensorStats: bool): Finding
  {
    if capability.None? then Fails(CapabilityError(kind))
    else
      var status, error := capability.value.status, capability.value.errorCode;
      if status == Some("available") && error == None then Fine
      else if kind == ESXI && name == "host_network_scope"
              && status == Some("endpoint_unavailable") && error == Some("permission_scope") then Warns
      else if kind == CLASSIC && name == "sensor_stats" && status == Some("error") && error == Some("server_error")
              && allowSensorStats then Excepts
      else Fails(CapabilityError(kind))
  }

  type Capabilities = map<string, Option<Capability>>

  function CapabilitiesOf(s: Source): Capabilities {
    if s.capabilities.Some? then s.capabilities.value else map[]
  }

  function Matching(sources: seq<Source>, kind: string): seq<Source> {
    if sources == [] then []
    else
      var last := sources[|sources| - 1];
      Matching(sources[..|sources| - 1], kind) + if last.kind == Some(kind) then [last] else []
  }

  predicate HasDemoSource(sources: seq<Source>) {
    exists i :: 0 <= i < |sources| && sources[i].kind == Some("demo")
  }

  /** A degraded classic source is tolerated when its only trouble is the approved exception. */
  predicate Tolerated(kind: string, s: Source, excepted: bool) {
    && kind == CLASSIC && excepted && s.status == Some("degraded")
    && s.error.ErrorWith? && s.error.code == Some("partial_capabilities")
  }

  /** Failures, warnings and exceptions found in one required kind of source. */
  datatype Findings = Findings(failures: set<Code>, warned: bool, excepted: bool)

  ghost function StagingCodes(kind: string, caps: Capabilities, names: set<string>, allow: bool): set<Code>
    requires names <= caps.Keys
  {
    set n | n in names && StagingFinding(kind, n, caps[n], allow).Fails? :: StagingFinding(kind, n, caps[n], allow).code
  }

  ghost predicate StagingWarns(kind: string, caps: Capabilities, names: set<string>, allow: bool)
    requires names <= caps.Keys
  {
    exists n :: n in names && StagingFinding(kind, n, caps[n], allow).Warns?
  }

  ghost predicate StagingExcepts(kind: string, caps: Capabilities, names: set<string>, allow: bool)
    requires names <= caps.Keys
  {
    exists n :: n in names && StagingFinding(kind, n, caps[n], allow).Excepts?
  }

  ghost function StagingSource(kind: string, matching: seq<Source>, allow: bool): Findings
    requires kind in KINDS
  {
    if matching == [] then Findings({SourceMissing(kind)}, false, false)
    else if |matching| != 1 then Findings({SourceAmbiguous(kind)}, false, false)
    else
      var s := matching[0];
      var caps := CapabilitiesOf(s);
      var excepted := StagingExcepts(kind, caps, caps.Keys, allow);
      var tolerated := Tolerated(kind, s, excepted);
      Findings(
        (if s.capabilities.None? then {CapabilityError(kind)} else {})
        + (if StagingRequired(kind) <= caps.Keys then {} else {CapabilityMissing(kind)})
        + StagingCodes(kind, caps, caps.Keys, allow)
        + (if s.status != Some("connected") && !tolerated then {SourceUnhealthy(kind)} else {})
        + (if !s.error.NoError? && !tolerated then {SourceFailed(kind)} else {}),
        StagingWarns(kind, caps, caps.Keys, allow), excepted)
  }

  ghost function ProductionCodes(kind: string, caps: Capabilities, names: set<string>, allow: bool): set<Code>
    requires names <= caps.Keys
  {
    set n | n in names && ProductionFinding(kind, n, caps[n], allow).Fails?
      :: ProductionFinding(kind, n, caps[n], allow).code
  }

  ghost predicate ProductionWarns(kind: string, caps: Capabilities, names: set<string>, allow: bool)
    requires names <= caps.Keys
  {
    exists n :: n in names && ProductionFinding(kind, n, caps[n], allow).Warns?
  }

  ghost predicate ProductionExcepts(kind: string, caps: Capabilities, names: set<string>, allow: bool)
    requires names <= caps.Keys
  {
    exists n :: n in names && ProductionFinding(kind, n, caps[n], allow).Excepts?
  }

  ghost function ProductionSource(kind: string, matching: seq<Source>, allow: bool): Findings
    requires kind in KINDS
  {
    if |matching| != 1 then Findings({SourceMissingOrAmbiguous(kind)}, false, false)
    else
      var s := matching[0];
      var caps := CapabilitiesOf(s);
      var excepted := ProductionExcepts(kind, caps, caps.Keys, allow);
      var tolerated := Tolerated(kind, s, excepted);
      Findings(
        (if s.capabilities.None? then {CapabilityError(kind)} else {})
        + (if ProductionRequired(kind) <= caps.Keys then {} else {CapabilityMissing(kind)})
        + ProductionCodes(kind, caps, caps.Keys, allow)
        + (if s.status != Some("connected") && !tolerated then {SourceUnhealthy(kind)} else {})
        + (if !s.error.NoError? && !tolerated then {SourceFailed(kind)} else {}),
        ProductionWarns(kind, caps, caps.Keys, allow), excepted)
  }

  /** The two checks of one kind of source agree on everything but the wording of a failure. */
  lemma SourcesAgree(kind: string, matching: seq<Source>, allow: bool)
    requires kind in KINDS
    ensures var a, b := StagingSource(kind, matching, allow), ProductionSource(kind, matching, allow);
            (a.failures == {} <==> b.failures == {}) && a.warned == b.warned && a.excepted == b.excepted
  {
    if |matching| == 1 {
      var caps := CapabilitiesOf(matching[0]);
      assert StagingRequired(kind) == ProductionRequired(kind);
      hide StagingRequired, ProductionRequired;
      forall n | n in caps
        ensures var x, y := StagingFinding(kind, n, caps[n], allow), ProductionFinding(kind, n, caps[n], allow);
                (x.Fails? <==> y.Fails?) && (x.Warns? <==> y.Warns?) && (x.Excepts? <==> y.Excepts?)
      {
      }
      hide StagingFinding, ProductionFinding;
      CodesAgree(kind, caps, allow);
    }
  }

  lemma CodesAgree(kind: string, caps: Capabilities, allow: bool)
    requires forall n :: n in caps ==>
               (StagingFinding(kind, n, caps[n], allow).Fails? <==> ProductionFinding(kind, n, caps[n], allow).Fails?)
    ensures StagingCodes(kind, caps, caps.Keys, allow) == {} <==> ProductionCodes(kind, caps, caps.Keys, allow) == {}
  {
    hide StagingFinding, ProductionFinding;
    forall n | n in caps && StagingFinding(kind, n, caps[n], allow).Fails?
      ensures StagingFinding(kind, n, caps[n], allow).code in StagingCodes(kind, caps, caps.Keys, allow)
      ensures ProductionFinding(kind, n, caps[n], allow).code in ProductionCodes(kind, caps, caps.Keys, allow)
    {
    }
  }

  // ----- freshness -----

  function AgeSeconds(s: Snapshot, now: int): (age: int)
    ensures age >= 0
  {
    if now <= s.completedAt then 0 else (now - s.completedAt) / 1000000
  }

  predicate IsTerminal(state: string) {
    state == "offline" || state == "failed" || state == "stale"
  }

  /** A state that is not already bad becomes stale once the snapshot is older than it allows. */
  function EffectiveState(s: Snapshot, now: int): string {
    if IsTerminal(s.state) then s.state else if AgeSeconds(s, now) > s.maxAgeSeconds then "stale" else s.state
  }

  function FreshnessCodes(state: string, runtimeState: string, approved: bool, allowStale: bool): set<Code> {
    (if runtimeState == "stale" && !(allowStale && (state == "fresh" || state == "partial")) then {StaleByAge} else {})
    + (if state == "partial" then if approved then {} else {PartialNotApproved}
       else if state != "fresh" then {NotFresh} else {})
  }

  predicate IsRollbackCandidate(state: string, runtimeState: string, allowStale: bool) {
    runtimeState == "stale" && allowStale && (state == "fresh" || state == "partial")
  }

  // ----- the staging gate -----

  datatype SourceResult = Missing | Fail | Warning | Pass

  datatype StagingResult = StagingResult(
    approved: bool, exceptions: set<Note>, failures: set<Code>, policy: Policy, quality: int,
    runtimeState: string, age: int, sourceResults: map<string, SourceResult>, state: string, warnings: set<Note>)

  datatype Options = Options(allowSensorStats: bool, allowStale: bool, now: int)

  ghost function StagingAt(s: Snapshot, o: Options, i: nat): Findings
    requires i < |KINDS|
  {
    StagingSource(KINDS[i], Matching(s.sources, KINDS[i]), o.allowSensorStats)
  }

  function StagingBasics(s: Snapshot, minQuality: int): set<Code> {
    (if s.publicationMode != "real_only" then {PublicationMode} else {})
    + (if HasDemoSource(s.sources) then {DemoSource} else {})
    + (if ContainsDemo(s.tree) then {DemoEvidence} else {})
    + (if s.score < minQuality then {LowQuality} else {})
  }

  ghost function StagingCodesTo(s: Snapshot, minQuality: int, o: Options, i: nat): set<Code>
    requires i <= |KINDS|
  {
    if i == 0 then StagingBasics(s, minQuality)
    else StagingCodesTo(s, minQuality, o, i - 1) + StagingAt(s, o, i - 1).failures
  }

  /** The result for one kind of source: whether it failed, was only tolerated, or passed. */
  ghost function ResultAt(s: Snapshot, o: Options, i: nat): SourceResult
    requires i < |KINDS|
  {
    var matching, f := Matching(s.sources, KINDS[i]), StagingAt(s, o, i);
    if matching == [] then Missing
    else if f.failures != {} then Fail
    else if f.warned || Tolerated(KINDS[i], matching[0], f.excepted) then Warning
    else Pass
  }

  /** The staging result, as a whole. */
  ghost function StagingResultOf(s: Snapshot, minQuality: int, o: Options): StagingResult {
    var excepted := StagingAt(s, o, 1).excepted;
    var warned := StagingAt(s, o, 0).warned;
    var runtimeState := EffectiveState(s, o.now);
    var approvedPartial := o.allowSensorStats && excepted;
    var failures := StagingCodesTo(s, minQuality, o, |KINDS|)
                    + FreshnessCodes(s.state, runtimeState, approvedPartial, o.allowStale);
    var rollback := IsRollbackCandidate(s.state, runtimeState, o.allowStale) && failures == {};
    StagingResult(
      failures == {}, if excepted then {SensorStats} else {}, failures,
      if rollback then RollbackStaleAllowed else Strict, s.score, runtimeState, AgeSeconds(s, o.now),
      map[ESXI := ResultAt(s, o, 0), CLASSIC := ResultAt(s, o, 1), NEW_UI := ResultAt(s, o, 2)], s.state,
      (if warned then {NetworkScope} else {})
      + (if s.state == "partial" && approvedPartial then {PartialForException} else {})
      + (if rollback then {RollbackStale} else {}))
  }

  lemma StagingCodesNext(kind: string, caps: Capabilities, names: set<string>, n: string, allow: bool)
    requires names <= caps.Keys && n in caps
    ensures var f := StagingFinding(kind, n, caps[n], allow);
            StagingCodes(kind, caps, names + {n}, allow)
            == StagingCodes(kind, caps, names, allow) + if f.Fails? then {f.code} else {}
  {
    hide StagingFinding;
  }

  /** What the capabilities of one source contribute, one by one. */
  method StagingCapabilities(kind: string, caps: Capabilities, allow: bool)
    returns (failures: set<Code>, warned: bool, excepted: bool)
    ensures failures == StagingCodes(kind, caps, caps.Keys, allow)
    ensures warned == StagingWarns(kind, caps, caps.Keys, allow)
    ensures excepted == StagingExcepts(kind, caps, caps.Keys, allow)
  {
    hide StagingFinding;
    failures, warned, excepted := {}, false, false;
    var left := caps.Keys;
    while left != {}
      invariant left <= caps.Keys
      invariant failures == StagingCodes(kind, caps, caps.Keys - left, allow)
      invariant warned == StagingWarns(kind, caps, caps.Keys - left, allow)
      invariant excepted == StagingExcepts(kind, caps, caps.Keys - left, allow)
    {
      var n :| n in left;
      var finding := StagingFinding(kind, n, caps[n], allow);
      StagingCodesNext(kind, caps, caps.Keys - left, n, allow);
      hide StagingCodes;
      assert caps.Keys - (left - {n}) == (caps.Keys - left) + {n};
      match finding {
        case Fine =>
        case Fails(code) => failures := failures + {code};
        case Warns => warned := true;
        case Excepts => excepted := true;
      }
      left := left - {n};
    }
    assert caps.Keys - left == caps.Keys;
  }

  /** The findings of the one source of a kind. */
  method CheckStagingSource(kind: string, s: Source, allow: bool) returns (f: Findings, tolerated: bool)
    requires kind in KINDS
    ensures f == StagingSource(kind, [s], allow) && tolerated == Tolerated(kind, s, f.excepted)
  {
    hide StagingCodes, StagingWarns, StagingExcepts, StagingRequired, Tolerated;
    var caps := CapabilitiesOf(s);
    var failures, warned, excepted := StagingCapabilities(kind, caps, allow);
    if s.capabilities.None? {
      failures := failures + {CapabilityError(kind)};
    }
    if !(StagingRequired(kind) <= caps.Keys) {
      failures := failures + {CapabilityMissing(kind)};
    }
    tolerated := Tolerated(kind, s, excepted);
    if s.status != Some("connected") && !tolerated {
      failures := failures + {SourceUnhealthy(kind)};
    }
    if !s.error.NoError? && !tolerated {
      failures := failures + {SourceFailed(kind)};
    }
    f := Findings(failures, warned, excepted);
  }

  /** Failure codes say which kind of source they belong to. */
  predicate Owns(kind: string, c: Code) {
    match c
    case SourceMissing(k) => k == kind
    case SourceAmbiguous(k) => k == kind
    case CapabilityError(k) => k == kind
    case CapabilityMissing(k) => k == kind
    case SourceUnhealthy(k) => k == kind
    case SourceFailed(k) => k == kind
    case SensorStatsNotApproved => kind == CLASSIC
    case _ => false
  }

  lemma StagingSourceOwns(kind: string, matching: seq<Source>, allow: bool)
    requires kind in KINDS
    ensures forall c :: c in StagingSource(kind, matching, allow).failures ==> Owns(kind, c)
    ensures StagingSource(kind, matching, allow).warned ==> kind == ESXI
    ensures StagingSource(kind, matching, allow).excepted ==> kind == CLASSIC
  {
    hide StagingRequired, Tolerated;
    if |matching| == 1 {
      CapabilityCodesOwn(kind, CapabilitiesOf(matching[0]), allow);
      hide StagingCodes, StagingWarns, StagingExcepts;
    }
  }

  lemma CapabilityCodesOwn(kind: string, caps: Capabilities, allow: bool)
    ensures forall c :: c in StagingCodes(kind, caps, caps.Keys, allow) ==> Owns(kind, c)
    ensures StagingWarns(kind, caps, caps.Keys, allow) ==> kind == ESXI
    ensures StagingExcepts(kind, caps, caps.Keys, allow) ==> kind == CLASSIC
  {
  }

  lemma {:induction false} EarlierCodesAreOthers(s: Snapshot, minQuality: int, o: Options, i: nat, k: nat)
    requires i <= k < |KINDS|
    ensures forall c :: c in StagingCodesTo(s, minQuality, o, i) ==> !Owns(KINDS[k], c)
  {
    hide StagingSource, HasDemoSource, ContainsDemo, Matching;
    if i > 0 {
      EarlierCodesAreOthers(s, minQuality, o, i - 1, k);
      StagingSourceOwns(KINDS[i - 1], Matching(s.sources, KINDS[i - 1]), o.allowSensorStats);
      assert KINDS[i - 1] != KINDS[k];
    }
  }

  lemma CountGrows(a: set<Code>, b: set<Code>)
    requires a !! b
    ensures |a + b| > |a| <==> b != {}
  {
    if b != {} {
      var x :| x in b;
      assert |b| > 0;
    }
    assert |a + b| == |a| + |b|;
  }

  /** The bookkeeping by counting codes is exact: a source is marked failed just when it contributed a code. */
  method CheckStagingKind(s: Snapshot, minQuality: int, o: Options, i: nat, failures: set<Code>, warnings: set<Note>)
    returns (failures': set<Code>, warnings': set<Note>, excepted: bool, result: SourceResult)
    requires i < |KINDS| && failures == StagingCodesTo(s, minQuality, o, i)
    requires i == 0 ==> warnings == {}
    ensures failures' == StagingCodesTo(s, minQuality, o, i + 1)
    ensures warnings' == if StagingAt(s, o, i).warned then warnings + {NetworkScope} else warnings
    ensures excepted == StagingAt(s, o, i).excepted && result == ResultAt(s, o, i)
  {
    hide HasDemoSource, ContainsDemo, Matching, StagingBasics;
    var kind := KINDS[i];
    var matching := Matching(s.sources, kind);
    failures', warnings', excepted := failures, warnings, false;
    if matching == [] {
      failures' := failures' + {SourceMissing(kind)};
      result := Missing;
      return;
    }
    if |matching| != 1 {
      failures' := failures' + {SourceAmbiguous(kind)};
      result := Fail;
      return;
    }
    EarlierCodesAreOthers(s, minQuality, o, i, i);
    StagingSourceOwns(kind, matching, o.allowSensorStats);
    assert matching == [matching[0]];
    hide StagingSource, Tolerated;
    var f, tolerated := CheckStagingSource(kind, matching[0], o.allowSensorStats);
    failures' := failures' + f.failures;
    CountGrows(failures, f.failures);
    if f.warned {
      assert kind == ESXI && i == 0;
      warnings' := warnings' + {NetworkScope};
    }
    excepted := f.excepted;
    result := if |failures'| > |failures| then Fail
              else if |warnings'| > |warnings| || tolerated then Warning else Pass;
  }

  method EvaluateStaging(s: Snapshot, minQuality: int, o: Options) returns (r: StagingResult)
    ensures r == StagingResultOf(s, minQuality, o)
    ensures AnswersStaging(s, minQuality, o, r)
  {
    hide AnswersStaging;
    StagingAnswers(s, minQuality, o);
    hide StagingSource, HasDemoSource, ContainsDemo, Matching, Tolerated, ResultAt, EffectiveState;
    var failures := StagingBasics(s, minQuality);
    var warnings: set<Note>, observed := {}, false;
    var results: map<string, SourceResult> := map[];
    hide StagingBasics;
    for i := 0 to |KINDS|
      invariant failures == StagingCodesTo(s, minQuality, o, i)
      invariant observed == (i > 1 && StagingAt(s, o, 1).excepted)
      invariant warnings == if i > 0 && StagingAt(s, o, 0).warned then {NetworkScope} else {}
      invariant results.Keys == (set j | 0 <= j < i :: KINDS[j])
      invariant forall j :: 0 <= j < i ==> results[KINDS[j]] == ResultAt(s, o, j)
    {
      StagingSourceOwns(KINDS[i], Matching(s.sources, KINDS[i]), o.allowSensorStats);
      hide StagingCodesTo;
      var excepted, result;
      failures, warnings, excepted, result := CheckStagingKind(s, minQuality, o, i, failures, warnings);
      observed := observed || excepted;
      results := results[KINDS[i] := result];
    }
    hide StagingCodesTo;
    assert results == map[ESXI := ResultAt(s, o, 0), CLASSIC := ResultAt(s, o, 1), NEW_UI := ResultAt(s, o, 2)];
    var runtimeState := EffectiveState(s, o.now);
    var approvedPartial := o.allowSensorStats && observed;
    failures := failures + FreshnessCodes(s.state, runtimeState, approvedPartial, o.allowStale);
    if s.state == "partial" && approvedPartial {
      warnings := warnings + {PartialForException};
    }
    var policy := Strict;
    if IsRollbackCandidate(s.state, runtimeState, o.allowStale) && failures == {} {
      policy, warnings := RollbackStaleAllowed, warnings + {RollbackStale};
    }
    r := StagingResult(failures == {}, if observed then {SensorStats} else {}, failures, policy, s.score, runtimeState,
                       AgeSeconds(s, o.now), results, s.state, warnings);
  }

  // ----- the production gate -----

  datatype Accepted = Accepted(
    state: string, runtimeState: string, age: int, quality: int, exceptions: set<Note>, warnings: set<Note>,
    policy: Policy)

  /** The production gate checks again what a validated snapshot guarantees. */
  predicate TimesInOrder(s: Snapshot) {
    s.startedAt <= s.completedAt <= s.generatedAt && 60 <= s.maxAgeSeconds <= 604800
  }

  ghost function ProductionAt(s: Snapshot, o: Options, i: nat): Findings
    requires i < |KINDS|
  {
    ProductionSource(KINDS[i], Matching(s.sources, KINDS[i]), o.allowSensorStats)
  }

  function ProductionBasics(s: Snapshot): set<Code> {
    (if !s.contract then {ContractInvalid} else {})
    + (if s.publicationMode != "real_only" then {PublicationMode} else {})
    + (if !(MIN_QUALITY <= s.score <= 100) then {LowQuality} else {})
    + (if HasDemoSource(s.sources) then {DemoSource} else {})
    + (if ContainsDemo(s.tree) then {DemoEvidence} else {})
  }

  ghost function ProductionCodesTo(s: Snapshot, o: Options, i: nat): set<Code>
    requires i <= |KINDS|
  {
    if i == 0 then ProductionBasics(s) else ProductionCodesTo(s, o, i - 1) + ProductionAt(s, o, i - 1).failures
  }

  /** Without a valid time sequence the state is taken as it is and the age is unknown. */
  function ProductionState(s: Snapshot, now: int): string {
    if TimesInOrder(s) then EffectiveState(s, now) else s.state
  }

  ghost function ProductionResultOf(s: Snapshot, o: Options): Result<Accepted, set<Code>> {
    var excepted := ProductionAt(s, o, 1).excepted;
    var warned := ProductionAt(s, o, 0).warned;
    var runtimeState := ProductionState(s, o.now);
    var failures := ProductionCodesTo(s, o, |KINDS|) + (if TimesInOrder(s) then {} else {ContractInvalid})
                    + FreshnessCodes(s.state, runtimeState, o.allowSensorStats && excepted, o.allowStale);
    var rollback := IsRollbackCandidate(s.state, runtimeState, o.allowStale);
    if failures != {} then Err(failures)
    else
      Ok(Accepted(
        s.state, runtimeState, AgeSeconds(s, o.now), s.score, if excepted then {SensorStats} else {},
        (if warned then {NetworkScope} else {}) + (if rollback then {RollbackStale} else {}),
        if rollback then RollbackStaleAllowed else Strict))
  }

  lemma ProductionCodesNext(kind: string, caps: Capabilities, names: set<string>, n: string, allow: bool)
    requires names <= caps.Keys && n in caps
    ensures var f := ProductionFinding(kind, n, caps[n], allow);
            ProductionCodes(kind, caps, names + {n}, allow)
            == ProductionCodes(kind, caps, names, allow) + if f.Fails? then {f.code} else {}
  {
    hide ProductionFinding;
  }

  method ProductionCapabilities(kind: string, caps: Capabilities, allow: bool)
    returns (failures: set<Code>, warned: bool, excepted: bool)
    ensures failures == ProductionCodes(kind, caps, caps.Keys, allow)
    ensures warned == ProductionWarns(kind, caps, caps.Keys, allow)
    ensures excepted == ProductionExcepts(kind, caps, caps.Keys, allow)
  {
    hide ProductionFinding;
    failures, warned, excepted := {}, false, false;
    var left := caps.Keys;
    while left != {}
      invariant left <= caps.Keys
      invariant failures == ProductionCodes(kind, caps, caps.Keys - left, allow)
      invariant warned == ProductionWarns(kind, caps, caps.Keys - left, allow)
      invariant excepted == ProductionExcepts(kind, caps, caps.Keys - left, allow)
    {
      var n :| n in left;
      var finding := ProductionFinding(kind, n, caps[n], allow);
      ProductionCodesNext(kind, caps, caps.Keys - left, n, allow);
      hide ProductionCodes;
      assert caps.Keys - (left - {n}) == (caps.Keys - left) + {n};
      match finding {
        case Fine =>
        case Fails(code) => failures := failures + {code};
        case Warns => warned := true;
        case Excepts => excepted := true;
      }
      left := left - {n};
    }
    assert caps.Keys - left == caps.Keys;
  }

  lemma ProductionNotes(kind: string, matching: seq<Source>, allow: bool)
    requires kind in KINDS
    ensures ProductionSource(kind, matching, allow).warned ==> kind == ESXI
    ensures ProductionSource(kind, matching, allow).excepted ==> kind == CLASSIC
  {
    hide ProductionRequired, Tolerated;
  }

  method CheckProductionKind(s: Snapshot, o: Options, i: nat) returns (f: Findings)
    requires i < |KINDS|
    ensures f == ProductionAt(s, o, i)
  {
    hide HasDemoSource, ContainsDemo, ProductionCodes, ProductionWarns, ProductionExcepts;
    hide ProductionRequired, Tolerated;
    var kind := KINDS[i];
    var matching := Matching(s.sources, kind);
    hide Matching;
    if |matching| != 1 {
      return Findings({SourceMissingOrAmbiguous(kind)}, false, false);
    }
    var source := matching[0];
    var caps := CapabilitiesOf(source);
    var failures, warned, excepted := ProductionCapabilities(kind, caps, o.allowSensorStats);
    if source.capabilities.None? {
      failures := failures + {CapabilityError(kind)};
    }
    if !(ProductionRequired(kind) <= caps.Keys) {
      failures := failures + {CapabilityMissing(kind)};
    }
    var allowedDegradation := Tolerated(kind, source, excepted);
    if source.status != Some("connected") && !allowedDegradation {
      failures := failures + {SourceUnhealthy(kind)};
    }
    if !source.error.NoError? && !allowedDegradation {
      failures := failures + {SourceFailed(kind)};
    }
    f := Findings(failures, warned, excepted);
  }

  method EvaluateProduction(s: Snapshot, o: Options) returns (r: Result<Accepted, set<Code>>)
    ensures r == ProductionResultOf(s, o)
    ensures AnswersProduction(s, o, r)
  {
    hide AnswersProduction;
    ProductionAnswers(s, o);
    hide ProductionSource, HasDemoSource, ContainsDemo, Matching, EffectiveState;
    var failures := ProductionBasics(s);
    var warned, excepted := false, false;
    for i := 0 to |KINDS|
      invariant failures == ProductionCodesTo(s, o, i)
      invariant excepted == (i > 1 && ProductionAt(s, o, 1).excepted)
      invariant warned == (i > 0 && ProductionAt(s, o, 0).warned)
    {
      ProductionNotes(KINDS[i], Matching(s.sources, KINDS[i]), o.allowSensorStats);
      var f := CheckProductionKind(s, o, i);
      failures, warned, excepted := failures + f.failures, warned || f.warned, excepted || f.excepted;
    }
    hide ProductionCodesTo;
    var runtimeState := s.state;
    if TimesInOrder(s) {
      assert failures + {} == failures;
      runtimeState := EffectiveState(s, o.now);
    } else {
      failures := failures + {ContractInvalid};
    }
    failures := failures + FreshnessCodes(s.state, runtimeState, o.allowSensorStats && excepted, o.allowStale);
    if failures != {} {
      return Err(failures);
    }
    var policy, warnings := Strict, if warned then {NetworkScope} else {};
    assert warnings + {} == warnings;
    if IsRollbackCandidate(s.state, runtimeState, o.allowStale) {
      policy, warnings := RollbackStaleAllowed, warnings + {RollbackStale};
    }
    r := Ok(Accepted(s.state, runtimeState, AgeSeconds(s, o.now), s.score,
                     if excepted then {SensorStats} else {}, warnings, policy));
  }

  // ----- agreement -----

  /** What the snapshot contract guarantees and only the production gate checks again. */
  predicate MeetsContract(s: Snapshot) {
    s.contract && TimesInOrder(s) && s.score <= 100
  }

  lemma {:induction false} CodesToAgree(s: Snapshot, o: Options, i: nat)
    requires i <= |KINDS| && s.contract && s.score <= 100
    ensures StagingCodesTo(s, MIN_QUALITY, o, i) == {} <==> ProductionCodesTo(s, o, i) == {}
  {
    hide StagingSource, ProductionSource, HasDemoSource, ContainsDemo, Matching;
    if i > 0 {
      CodesToAgree(s, o, i - 1);
      SourcesAgree(KINDS[i - 1], Matching(s.sources, KINDS[i - 1]), o.allowSensorStats);
    }
  }

  lemma {:induction false} ProductionWantsContract(s: Snapshot, o: Options, i: nat)
    requires i <= |KINDS| && (!s.contract || s.score > 100)
    ensures ProductionCodesTo(s, o, i) != {}
  {
    hide ProductionSource, HasDemoSource, ContainsDemo, Matching;
    if i > 0 {
      ProductionWantsContract(s, o, i - 1);
    }
  }

  /** For every snapshot, source list, capabilities, clock and flags: production accepts exactly when staging
      approves and the snapshot meets its contract; and then both give the same state, age, quality, approved
      exceptions and freshness policy, and their warnings differ only by staging's note on a partial snapshot. */
  lemma {:induction false} GatesAgree(s: Snapshot, o: Options)
    ensures var staging, production := StagingResultOf(s, MIN_QUALITY, o), ProductionResultOf(s, o);
            && (production.Ok? <==> staging.approved && MeetsContract(s))
            && (production.Ok? ==>
                  var p := production.value;
                  && p.state == staging.state && p.runtimeState == staging.runtimeState && p.age == staging.age
                  && p.quality == staging.quality && p.exceptions == staging.exceptions && p.policy == staging.policy
                  && staging.warnings == p.warnings + if s.state == "partial" then {PartialForException} else {})
  {
    hide StagingSource, ProductionSource, HasDemoSource, ContainsDemo, Matching, ResultAt, EffectiveState,
      StagingCodesTo, ProductionCodesTo, AgeSeconds;
    SourcesAgree(KINDS[0], Matching(s.sources, KINDS[0]), o.allowSensorStats);
    SourcesAgree(KINDS[1], Matching(s.sources, KINDS[1]), o.allowSensorStats);
    if s.contract && s.score <= 100 {
      CodesToAgree(s, o, |KINDS|);
    } else {
      ProductionWantsContract(s, o, |KINDS|);
    }
  }

  // ----- what is approved, on the fields of the snapshot -----

  function NeededCapabilities(kind: string): set<string> {
    if kind == "vmware_esxi" then {"vm_inventory"}
    else if kind == "cisco_cyber_vision" then {
      "version", "sensors", "sensor_details", "sensor_stats", "devices", "components", "device_vulnerabilities",
      "device_risk_scores", "vulnerabilities", "flows", "activities", "baselines", "baseline_differences",
      "event_categories", "event_severities", "protocol_distribution", "risk_distribution", "reports_metadata"}
    else {"assets", "alerts", "networks", "org_hierarchy", "vulnerability_assets"}
  }

  /** The two troubles of a capability that may be let pass. */
  predicate NoHostScope(kind: string, name: string, c: Capability) {
    && kind == "vmware_esxi" && name == "host_network_scope"
    && c == Capability(Some("endpoint_unavailable"), Some("permission_scope"))
  }

  predicate NoSensorStats(kind: string, name: string, c: Capability) {
    kind == "cisco_cyber_vision" && name == "sensor_stats" && c == Capability(Some("error"), Some("server_error"))
  }

  ghost predicate FineCapabilities(kind: string, caps: Capabilities, allowSensorStats: bool) {
    && NeededCapabilities(kind) <= caps.Keys
    && forall n :: n in caps ==>
         && caps[n].Some?
         && var c := caps[n].value;
            (c == Capability(Some("available"), None) || NoHostScope(kind, n, c)
             || (NoSensorStats(kind, n, c) && allowSensorStats))
  }

  /** The approved exception: the sensor statistics of the classic source failed, and that is allowed. */
  ghost predicate Excepted(s: Source, allowSensorStats: bool) {
    && s.kind == Some("cisco_cyber_vision") && s.capabilities.Some? && allowSensorStats
    && var caps := s.capabilities.value;
       "sensor_stats" in caps && caps["sensor_stats"] == Some(Capability(Some("error"), Some("server_error")))
  }

  ghost predicate FineSource(kind: string, s: Source, allowSensorStats: bool) {
    && s.capabilities.Some? && FineCapabilities(kind, s.capabilities.value, allowSensorStats)
    && ((s.status == Some("connected") && s.error == NoError)
        || (Excepted(s, allowSensorStats) && s.status == Some("degraded")
            && s.error == ErrorWith(Some("partial_capabilities"))))
  }

  /** The source at `i` is the only one of its kind. */
  ghost predicate IsOnly(sources: seq<Source>, kind: string, i: int) {
    && 0 <= i < |sources| && sources[i].kind == Some(kind)
    && forall j :: 0 <= j < |sources| && sources[j].kind == Some(kind) ==> j == i
  }

  ghost predicate OneFineSource(sources: seq<Source>, kind: string, allowSensorStats: bool) {
    exists i :: IsOnly(sources, kind, i) && FineSource(kind, sources[i], allowSensorStats)
  }

  /** The snapshot is not older than it says it may become, to the whole second. */
  predicate IsRecent(s: Snapshot, now: int) {
    s.maxAgeSeconds >= 0 && now - s.completedAt < (s.maxAgeSeconds + 1) * 1_000_000
  }

  /** Everything but freshness. */
  ghost predicate SoundContent(s: Snapshot, minQuality: int, allowSensorStats: bool) {
    && s.publicationMode == "real_only" && s.score >= minQuality
    && (forall i :: 0 <= i < |s.sources| ==> s.sources[i].kind != Some("demo")) && !HasDemo(s.tree)
    && OneFineSource(s.sources, "vmware_esxi", allowSensorStats)
    && OneFineSource(s.sources, "cisco_cyber_vision", allowSensorStats)
    && OneFineSource(s.sources, "cisco_cyber_vision_new_ui", allowSensorStats)
  }

  ghost predicate Approvable(s: Snapshot, minQuality: int, o: Options) {
    && SoundContent(s, minQuality, o.allowSensorStats)
    && (s.state == "fresh"
        || (s.state == "partial" && exists i :: 0 <= i < |s.sources| && Excepted(s.sources[i], o.allowSensorStats)))
    && (IsRecent(s, o.now) || o.allowStale)
  }

  lemma {:induction false} MatchingIs(sources: seq<Source>, kind: string)
    ensures forall i :: IsOnly(sources, kind, i) ==> Matching(sources, kind) == [sources[i]]
    ensures |Matching(sources, kind)| == 1 ==> exists i :: IsOnly(sources, kind, i)
    ensures Matching(sources, kind) == [] <==> forall i :: 0 <= i < |sources| ==> sources[i].kind != Some(kind)
  {
    hide IsOnly;
    if sources != [] {
      var n := |sources| - 1;
      MatchingIs(sources[..n], kind);
      OnlyAndOneMore(sources, kind);
      assert forall j :: 0 <= j < n ==> sources[..n][j] == sources[j];
      if |Matching(sources, kind)| == 1 && sources[n].kind == Some(kind) {
        assert IsOnly(sources, kind, n);
      }
    } else {
      NothingIsOnly(kind);
    }
  }

  lemma NothingIsOnly(kind: string)
    ensures forall i :: !IsOnly([], kind, i)
  {
  }

  lemma OnlyAndOneMore(sources: seq<Source>, kind: string)
    requires sources != []
    ensures var n := |sources| - 1;
            forall i :: IsOnly(sources, kind, i) <==>
              if sources[n].kind == Some(kind) then i == n && forall j :: 0 <= j < n ==> sources[j].kind != Some(kind)
              else IsOnly(sources[..n], kind, i)
    ensures var n := |sources| - 1;
            forall i :: IsOnly(sources, kind, i) && sources[n].kind != Some(kind) ==> 0 <= i < n
  {
    var n := |sources| - 1;
    assert forall j :: 0 <= j < n ==> sources[..n][j] == sources[j];
  }

  lemma CapabilitiesMean(kind: string, s: Source, allow: bool)
    requires kind in KINDS && s.kind == Some(kind) && s.capabilities.Some?
    ensures var caps := s.capabilities.value;
            && (StagingRequired(kind) <= caps.Keys && StagingCodes(kind, caps, caps.Keys, allow) == {} <==>
                  FineCapabilities(kind, caps, allow))
            && (StagingExcepts(kind, caps, caps.Keys, allow) <==> Excepted(s, allow))
  {
    var caps := s.capabilities.value;
    assert StagingRequired(kind) == NeededCapabilities(kind);
    hide StagingRequired, NeededCapabilities;
    forall n | n in caps
      ensures StagingFinding(kind, n, caps[n], allow).Fails? ==>
                StagingFinding(kind, n, caps[n], allow).code in StagingCodes(kind, caps, caps.Keys, allow)
      ensures !StagingFinding(kind, n, caps[n], allow).Fails? <==>
                && caps[n].Some?
                && (caps[n].value == Capability(Some("available"), None) || NoHostScope(kind, n, caps[n].value)
                    || (NoSensorStats(kind, n, caps[n].value) && allow))
      ensures StagingFinding(kind, n, caps[n], allow).Excepts? <==>
                caps[n].Some? && NoSensorStats(kind, n, caps[n].value) && allow
    {
    }
    hide StagingFinding;
  }

  lemma SourceMeans(kind: string, sources: seq<Source>, allow: bool)
    requires kind in KINDS
    ensures StagingSource(kind, Matching(sources, kind), allow).failures == {} <==> OneFineSource(sources, kind, allow)
    ensures forall i :: IsOnly(sources, kind, i) ==>
              (StagingSource(kind, Matching(sources, kind), allow).excepted <==> Excepted(sources[i], allow))
  {
    MatchingIs(sources, kind);
    hide Matching, Excepted, FineSource;
    forall i | IsOnly(sources, kind, i)
      ensures StagingSource(kind, [sources[i]], allow).failures == {} <==> FineSource(kind, sources[i], allow)
      ensures StagingSource(kind, [sources[i]], allow).excepted <==> Excepted(sources[i], allow)
    {
      OneSourceMeans(kind, sources[i], allow);
    }
    hide StagingCodes, StagingExcepts, StagingWarns, StagingRequired, Tolerated;
  }

  lemma OneSourceMeans(kind: string, s: Source, allow: bool)
    requires kind in KINDS && s.kind == Some(kind)
    ensures StagingSource(kind, [s], allow).failures == {} <==> FineSource(kind, s, allow)
    ensures StagingSource(kind, [s], allow).excepted <==> Excepted(s, allow)
  {
    if s.capabilities.Some? {
      CapabilitiesMean(kind, s, allow);
    } else {
      NoCapabilities(kind, s, allow);
    }
    hide StagingRequired, StagingCodes, StagingExcepts, StagingWarns, FineCapabilities;
  }

  lemma NoCapabilities(kind: string, s: Source, allow: bool)
    requires s.capabilities.None?
    ensures !StagingExcepts(kind, CapabilitiesOf(s), CapabilitiesOf(s).Keys, allow) && !Excepted(s, allow)
  {
  }

  /** The age is the whole seconds since completion, and never negative. */
  predicate IsAge(s: Snapshot, now: int, age: int) {
    if now <= s.completedAt then age == 0
    else age >= 0 && age * 1_000_000 <= now - s.completedAt < (age + 1) * 1_000_000
  }

  lemma AgeMeans(s: Snapshot, now: int)
    ensures IsAge(s, now, AgeSeconds(s, now))
    ensures AgeSeconds(s, now) <= s.maxAgeSeconds <==> IsRecent(s, now)
  {
  }

  lemma FreshnessMeans(s: Snapshot, o: Options, excepted: bool)
    ensures FreshnessCodes(s.state, EffectiveState(s, o.now), excepted, o.allowStale) == {} <==>
            && (s.state == "fresh" || (s.state == "partial" && excepted))
            && (IsRecent(s, o.now) || o.allowStale)
  {
    AgeMeans(s, o.now);
    hide AgeSeconds, IsRecent;
  }

  lemma BasicsMean(s: Snapshot, minQuality: int)
    ensures StagingBasics(s, minQuality) == {} <==>
            && s.publicationMode == "real_only" && s.score >= minQuality && !HasDemo(s.tree)
            && forall i :: 0 <= i < |s.sources| ==> s.sources[i].kind != Some("demo")
  {
    ContainsDemoMeans(s.tree);
    hide ContainsDemo, HasDemo;
  }

  /** The exception is observed in the one classic source. */
  lemma ExceptedMeans(s: Snapshot, o: Options)
    requires OneFineSource(s.sources, CLASSIC, o.allowSensorStats)
    ensures StagingAt(s, o, 1).excepted <==>
            exists i :: 0 <= i < |s.sources| && Excepted(s.sources[i], o.allowSensorStats)
  {
    hide StagingSource, FineSource, Matching;
    SourceMeans(CLASSIC, s.sources, o.allowSensorStats);
    var i :| IsOnly(s.sources, CLASSIC, i) && FineSource(CLASSIC, s.sources[i], o.allowSensorStats);
    forall j | 0 <= j < |s.sources| && Excepted(s.sources[j], o.allowSensorStats) ensures j == i {
    }
  }

  lemma ContentMeans(s: Snapshot, minQuality: int, o: Options)
    ensures StagingCodesTo(s, minQuality, o, |KINDS|) == {} <==> SoundContent(s, minQuality, o.allowSensorStats)
  {
    SourceMeans(KINDS[0], s.sources, o.allowSensorStats);
    SourceMeans(KINDS[1], s.sources, o.allowSensorStats);
    SourceMeans(KINDS[2], s.sources, o.allowSensorStats);
    BasicsMean(s, minQuality);
    CodesInTurn(s, minQuality, o);
    hide StagingSource, StagingBasics, HasDemo, OneFineSource, StagingCodesTo, Matching;
  }

  /** Staging approves exactly the snapshots that these fields make approvable. */
  lemma StagingApprovesExactly(s: Snapshot, minQuality: int, o: Options)
    ensures StagingResultOf(s, minQuality, o).approved <==> Approvable(s, minQuality, o)
  {
    ContentMeans(s, minQuality, o);
    var excepted := StagingAt(s, o, 1).excepted;
    FreshnessMeans(s, o, o.allowSensorStats && excepted);
    if OneFineSource(s.sources, CLASSIC, o.allowSensorStats) {
      ExceptedMeans(s, o);
    }
    if exists i :: 0 <= i < |s.sources| && Excepted(s.sources[i], o.allowSensorStats) {
      ExceptedIsAllowed(s, o);
    }
    hide StagingAt, FreshnessCodes, HasDemo, OneFineSource, IsRecent, EffectiveState, ResultAt, StagingCodesTo,
      AgeSeconds, Excepted;
  }

  lemma ExceptedIsAllowed(s: Snapshot, o: Options)
    requires exists i :: 0 <= i < |s.sources| && Excepted(s.sources[i], o.allowSensorStats)
    ensures o.allowSensorStats
  {
  }

  lemma CodesInTurn(s: Snapshot, minQuality: int, o: Options)
    ensures StagingCodesTo(s, minQuality, o, |KINDS|)
            == StagingBasics(s, minQuality) + StagingAt(s, o, 0).failures + StagingAt(s, o, 1).failures
               + StagingAt(s, o, 2).failures
  {
    hide StagingBasics, StagingAt;
    assert StagingCodesTo(s, minQuality, o, 1) == StagingBasics(s, minQuality) + StagingAt(s, o, 0).failures;
    assert StagingCodesTo(s, minQuality, o, 2) == StagingCodesTo(s, minQuality, o, 1) + StagingAt(s, o, 1).failures;
  }

  /** Production accepts exactly the approvable snapshots that also meet their contract. */
  lemma ProductionAcceptsExactly(s: Snapshot, o: Options)
    ensures ProductionResultOf(s, o).Ok? <==>
            && Approvable(s, 80, o) && s.contract && s.score <= 100
            && s.startedAt <= s.completedAt <= s.generatedAt && 60 <= s.maxAgeSeconds <= 604800
  {
    hide StagingResultOf, ProductionResultOf, Approvable;
    GatesAgree(s, o);
    StagingApprovesExactly(s, MIN_QUALITY, o);
  }

  // ----- what an approval says -----

  ghost predicate ScopeMissing(s: Source) {
    && s.kind == Some("vmware_esxi") && s.capabilities.Some?
    && var caps := s.capabilities.value;
       && "host_network_scope" in caps
       && caps["host_network_scope"] == Some(Capability(Some("endpoint_unavailable"), Some("permission_scope")))
  }

  lemma WarnedMeans(kind: string, s: Source, allow: bool)
    requires kind in KINDS && s.kind == Some(kind)
    ensures StagingSource(kind, [s], allow).warned <==> ScopeMissing(s)
  {
    hide StagingRequired, StagingCodes, StagingExcepts, Tolerated;
    var caps := CapabilitiesOf(s);
    assert StagingSource(kind, [s], allow).warned == StagingWarns(kind, caps, caps.Keys, allow);
    if ScopeMissing(s) {
      assert StagingFinding(kind, "host_network_scope", caps["host_network_scope"], allow).Warns?;
    }
  }

  /** What is noted of one fine source. */
  lemma ResultMeans(s: Snapshot, o: Options, k: nat, i: nat)
    requires k < |KINDS| && IsOnly(s.sources, KINDS[k], i)
    requires FineSource(KINDS[k], s.sources[i], o.allowSensorStats)
    ensures StagingAt(s, o, k).warned <==> ScopeMissing(s.sources[i])
    ensures ResultAt(s, o, k)
            == if ScopeMissing(s.sources[i]) || s.sources[i].status == Some("degraded") then Warning else Pass
  {
    MatchingIs(s.sources, KINDS[k]);
    WarnedMeans(KINDS[k], s.sources[i], o.allowSensorStats);
    OneSourceMeans(KINDS[k], s.sources[i], o.allowSensorStats);
    hide Matching, StagingSource, FineCapabilities;
  }

  /** What an approving result says about the freshness of the snapshot. */
  ghost predicate SaysFreshness(s: Snapshot, o: Options, r: StagingResult) {
    && r.failures == {} && r.quality == s.score && r.state == s.state && IsAge(s, o.now, r.age)
    && r.runtimeState == (if IsRecent(s, o.now) then s.state else "stale")
    && r.policy == (if IsRecent(s, o.now) then Strict else RollbackStaleAllowed)
    && (RollbackStale in r.warnings <==> !IsRecent(s, o.now))
    && (PartialForException in r.warnings <==> s.state == "partial")
  }

  /** What it says about the sources: the approved exception, the missing host scope, and for each kind whether its
      source was only tolerated. */
  ghost predicate SaysSources(s: Snapshot, o: Options, r: StagingResult) {
    && r.exceptions == (if exists i :: 0 <= i < |s.sources| && Excepted(s.sources[i], o.allowSensorStats)
                        then {SensorStats} else {})
    && (NetworkScope in r.warnings <==> exists i :: 0 <= i < |s.sources| && ScopeMissing(s.sources[i]))
    && SaysKind(s, r, "vmware_esxi") && SaysKind(s, r, "cisco_cyber_vision")
    && SaysKind(s, r, "cisco_cyber_vision_new_ui")
  }

  ghost predicate SaysKind(s: Snapshot, r: StagingResult, kind: string) {
    && kind in r.sourceResults
    && forall i :: 0 <= i < |s.sources| && s.sources[i].kind == Some(kind) ==>
         r.sourceResults[kind]
         == if ScopeMissing(s.sources[i]) || s.sources[i].status == Some("degraded") then Warning else Pass
  }

  /** All that an approving result says is true of the fields. */
  lemma ApprovalSaysTruly(s: Snapshot, minQuality: int, o: Options)
    requires StagingResultOf(s, minQuality, o).approved
    ensures SaysFreshness(s, o, StagingResultOf(s, minQuality, o))
    ensures SaysSources(s, o, StagingResultOf(s, minQuality, o))
  {
    StagingApprovesExactly(s, minQuality, o);
    hide StagingResultOf, SoundContent, Excepted;
    if s.state == "partial" {
      ExceptedIsAllowed(s, o);
    }
    ExceptedMeans(s, o) by { ContentHasClassic(s, minQuality, o); }
    FreshnessIsSaid(s, minQuality, o);
    SourcesAreSaid(s, minQuality, o);
  }

  lemma ContentHasClassic(s: Snapshot, minQuality: int, o: Options)
    requires SoundContent(s, minQuality, o.allowSensorStats)
    ensures OneFineSource(s.sources, CLASSIC, o.allowSensorStats)
  {
    hide HasDemo, OneFineSource;
  }

  lemma FreshnessIsSaid(s: Snapshot, minQuality: int, o: Options)
    requires StagingResultOf(s, minQuality, o).approved
    requires s.state == "fresh" || (s.state == "partial" && o.allowSensorStats && StagingAt(s, o, 1).excepted)
    requires IsRecent(s, o.now) || o.allowStale
    ensures SaysFreshness(s, o, StagingResultOf(s, minQuality, o))
  {
    AgeMeans(s, o.now);
    hide StagingAt, FreshnessCodes, ResultAt, StagingCodesTo, AgeSeconds, IsAge, IsRecent;
  }

  lemma ResultsLookup(s: Snapshot, minQuality: int, o: Options)
    ensures var results := StagingResultOf(s, minQuality, o).sourceResults;
            forall k :: 0 <= k < |KINDS| ==> KINDS[k] in results && results[KINDS[k]] == ResultAt(s, o, k)
  {
    hide StagingAt, FreshnessCodes, ResultAt, StagingCodesTo, AgeSeconds, EffectiveState;
  }

  lemma NotesLookup(s: Snapshot, minQuality: int, o: Options)
    ensures var r := StagingResultOf(s, minQuality, o);
            && r.exceptions == (if StagingAt(s, o, 1).excepted then {SensorStats} else {})
            && (NetworkScope in r.warnings <==> StagingAt(s, o, 0).warned)
  {
    hide StagingAt, FreshnessCodes, ResultAt, StagingCodesTo, AgeSeconds, EffectiveState;
  }

  lemma KindIsSaid(s: Snapshot, minQuality: int, o: Options, k: nat)
    requires k < |KINDS| && OneFineSource(s.sources, KINDS[k], o.allowSensorStats)
    ensures SaysKind(s, StagingResultOf(s, minQuality, o), KINDS[k])
  {
    ResultsLookup(s, minQuality, o);
    hide StagingAt, ResultAt, StagingResultOf, ScopeMissing, FineSource;
    var i: nat :| IsOnly(s.sources, KINDS[k], i) && FineSource(KINDS[k], s.sources[i], o.allowSensorStats);
    ResultMeans(s, o, k, i);
  }

  lemma SourcesAreSaid(s: Snapshot, minQuality: int, o: Options)
    requires SoundContent(s, minQuality, o.allowSensorStats)
    requires StagingAt(s, o, 1).excepted <==>
             exists i :: 0 <= i < |s.sources| && Excepted(s.sources[i], o.allowSensorStats)
    ensures SaysSources(s, o, StagingResultOf(s, minQuality, o))
  {
    hide StagingAt, StagingResultOf, Excepted, ScopeMissing, HasDemo, OneFineSource, SaysKind;
    KindIsSaid(s, minQuality, o, 0);
    KindIsSaid(s, minQuality, o, 1);
    KindIsSaid(s, minQuality, o, 2);
    NotesLookup(s, minQuality, o);
    ScopeIsNoted(s, o);
  }

  lemma ScopeIsNoted(s: Snapshot, o: Options)
    requires OneFineSource(s.sources, ESXI, o.allowSensorStats)
    ensures StagingAt(s, o, 0).warned <==> exists i :: 0 <= i < |s.sources| && ScopeMissing(s.sources[i])
  {
    hide StagingAt, ResultAt, FineSource;
    var i: nat :| IsOnly(s.sources, KINDS[0], i) && FineSource(KINDS[0], s.sources[i], o.allowSensorStats);
    ResultMeans(s, o, 0, i);
    forall j | 0 <= j < |s.sources| && ScopeMissing(s.sources[j]) ensures j == i {
    }
  }

  // ----- every failure has its reason, and every reason its failure -----

  /** A capability that is neither available nor one of the two troubles that may be let pass. */
  ghost predicate BadCapability(kind: string, n: string, c: Option<Capability>) {
    c.None? || (c.value != Capability(Some("available"), None) && !NoHostScope(kind, n, c.value)
                && !NoSensorStats(kind, n, c.value))
  }

  ghost predicate Excused(s: Source, allow: bool) {
    Excepted(s, allow) && s.status == Some("degraded") && s.error == ErrorWith(Some("partial_capabilities"))
  }

  /** Why the only source of its kind makes staging fail. */
  ghost predicate SourceReason(kind: string, s: Source, allow: bool, c: Code) {
    match c
    case CapabilityError(k) =>
      k == kind && (s.capabilities.None?
                    || exists n :: n in s.capabilities.value && BadCapability(kind, n, s.capabilities.value[n]))
    case CapabilityMissing(k) =>
      k == kind && (s.capabilities.None? || !(NeededCapabilities(kind) <= s.capabilities.value.Keys))
    case SensorStatsNotApproved => !allow && Excepted(s, true)
    case SourceUnhealthy(k) => k == kind && s.status != Some("connected") && !Excused(s, allow)
    case SourceFailed(k) => k == kind && s.error != NoError && !Excused(s, allow)
    case _ => false
  }

  /** Why a kind of source makes staging fail. */
  ghost predicate KindReason(sources: seq<Source>, kind: string, allow: bool, c: Code) {
    || (c == SourceMissing(kind) && forall i :: 0 <= i < |sources| ==> sources[i].kind != Some(kind))
    || (c == SourceAmbiguous(kind)
        && exists i, j :: 0 <= i < j < |sources| && sources[i].kind == sources[j].kind == Some(kind))
    || exists i :: IsOnly(sources, kind, i) && SourceReason(kind, sources[i], allow, c)
  }

  ghost predicate StagingReason(s: Snapshot, minQuality: int, o: Options, c: Code) {
    || (c == PublicationMode && s.publicationMode != "real_only")
    || (c == DemoSource && exists i :: 0 <= i < |s.sources| && s.sources[i].kind == Some("demo"))
    || (c == DemoEvidence && HasDemo(s.tree))
    || (c == LowQuality && s.score < minQuality)
    || KindReason(s.sources, "vmware_esxi", o.allowSensorStats, c)
    || KindReason(s.sources, "cisco_cyber_vision", o.allowSensorStats, c)
    || KindReason(s.sources, "cisco_cyber_vision_new_ui", o.allowSensorStats, c)
    || FreshnessReason(s, o, c)
  }

  ghost predicate FreshnessReason(s: Snapshot, o: Options, c: Code) {
    match c
    case StaleByAge =>
      && (s.state == "stale" || (s.state != "offline" && s.state != "failed" && !IsRecent(s, o.now)))
      && (!o.allowStale || (s.state != "fresh" && s.state != "partial"))
    case PartialNotApproved =>
      s.state == "partial" && forall i :: IsOnly(s.sources, "cisco_cyber_vision", i) ==>
                                !Excepted(s.sources[i], o.allowSensorStats)
    case NotFresh => s.state != "fresh" && s.state != "partial"
    case _ => false
  }

  lemma CapabilityReasons(kind: string, s: Source, allow: bool, c: Code)
    requires kind in KINDS && s.kind == Some(kind) && s.capabilities.Some?
    ensures var caps := s.capabilities.value;
            c in StagingCodes(kind, caps, caps.Keys, allow) <==>
            || (c == CapabilityError(kind) && exists n :: n in caps && BadCapability(kind, n, caps[n]))
            || (c == SensorStatsNotApproved && !allow && Excepted(s, true))
  {
    var caps := s.capabilities.value;
    forall n | n in caps
      ensures var f := StagingFinding(kind, n, caps[n], allow);
              && (f == Fails(CapabilityError(kind)) <==> BadCapability(kind, n, caps[n]))
              && (f == Fails(SensorStatsNotApproved) <==>
                    caps[n].Some? && NoSensorStats(kind, n, caps[n].value) && !allow)
              && (f.Fails? ==> f.code == CapabilityError(kind) || f.code == SensorStatsNotApproved)
              && (f.Fails? ==> f.code in StagingCodes(kind, caps, caps.Keys, allow))
    {
    }
    hide StagingFinding, BadCapability;
  }

  lemma CodesOfOne(kind: string, s: Source, allow: bool, c: Code)
    requires kind in KINDS && s.kind == Some(kind)
    ensures var caps := CapabilitiesOf(s);
            c in StagingSource(kind, [s], allow).failures <==>
            || (c == CapabilityError(kind) && s.capabilities.None?)
            || (c == CapabilityMissing(kind) && !(StagingRequired(kind) <= caps.Keys))
            || c in StagingCodes(kind, caps, caps.Keys, allow)
            || (c == SourceUnhealthy(kind) && s.status != Some("connected") && !Excused(s, allow))
            || (c == SourceFailed(kind) && s.error != NoError && !Excused(s, allow))
  {
    if s.capabilities.Some? {
      CapabilitiesMean(kind, s, allow);
    } else {
      NoCapabilities(kind, s, allow);
    }
    hide StagingRequired, StagingCodes, StagingExcepts, StagingWarns, FineCapabilities;
  }

  lemma OneSourceReasons(kind: string, s: Source, allow: bool, c: Code)
    requires kind in KINDS && s.kind == Some(kind)
    ensures c in StagingSource(kind, [s], allow).failures <==> SourceReason(kind, s, allow, c)
  {
    assert StagingRequired(kind) == NeededCapabilities(kind) != {};
    CodesOfOne(kind, s, allow, c);
    if s.capabilities.Some? {
      CapabilityReasons(kind, s, allow, c);
    } else {
      NoCapabilities(kind, s, true);
      assert StagingCodes(kind, map[], {}, allow) == {};
    }
    hide StagingRequired, NeededCapabilities, StagingCodes, StagingSource, BadCapability, Excused, Excepted;
  }

  lemma {:induction false} SeveralMatch(sources: seq<Source>, kind: string)
    ensures |Matching(sources, kind)| > 1 <==>
            exists i, j :: 0 <= i < j < |sources| && sources[i].kind == sources[j].kind == Some(kind)
  {
    MatchingIs(sources, kind);
    hide Matching;
    if |Matching(sources, kind)| == 1 {
      var i :| IsOnly(sources, kind, i);
    } else if |Matching(sources, kind)| > 1 {
      var i :| 0 <= i < |sources| && sources[i].kind == Some(kind);
      assert !IsOnly(sources, kind, i);
      var j :| 0 <= j < |sources| && sources[j].kind == Some(kind) && j != i;
    }
  }

  lemma KindReasons(sources: seq<Source>, kind: string, allow: bool, c: Code)
    requires kind in KINDS
    ensures c in StagingSource(kind, Matching(sources, kind), allow).failures <==> KindReason(sources, kind, allow, c)
  {
    MatchingIs(sources, kind);
    SeveralMatch(sources, kind);
    hide Matching, SourceReason;
    if |Matching(sources, kind)| == 1 {
      var i :| IsOnly(sources, kind, i);
      OneSourceReasons(kind, sources[i], allow, c);
    } else {
      assert forall i :: !IsOnly(sources, kind, i);
    }
    hide StagingCodes, StagingExcepts, StagingWarns, StagingRequired, Tolerated;
  }

  lemma ObservedOfOne(s: Snapshot, o: Options)
    ensures o.allowSensorStats && StagingAt(s, o, 1).excepted <==>
            exists i :: IsOnly(s.sources, "cisco_cyber_vision", i) && Excepted(s.sources[i], o.allowSensorStats)
  {
    SourceMeans(CLASSIC, s.sources, o.allowSensorStats);
    MatchingIs(s.sources, CLASSIC);
    NotedOnlyOfOne(s, o);
    hide StagingSource, Matching;
    if i :| IsOnly(s.sources, CLASSIC, i) && Excepted(s.sources[i], o.allowSensorStats) {
      ExceptedIsAllowed(s, o);
    }
    hide Excepted;
  }

  lemma FreshnessReasons(s: Snapshot, o: Options, c: Code)
    ensures c in FreshnessCodes(s.state, EffectiveState(s, o.now),
                                o.allowSensorStats && StagingAt(s, o, 1).excepted, o.allowStale) <==>
            FreshnessReason(s, o, c)
  {
    AgeMeans(s, o.now);
    ObservedOfOne(s, o);
    hide AgeSeconds, IsRecent, StagingAt, IsOnly, Excepted;
  }

  lemma NotedOnlyOfOne(s: Snapshot, o: Options)
    ensures StagingAt(s, o, 1).excepted ==> |Matching(s.sources, CLASSIC)| == 1
  {
    hide Matching;
  }

  lemma FailuresLookup(s: Snapshot, minQuality: int, o: Options, c: Code)
    ensures c in StagingResultOf(s, minQuality, o).failures <==>
            || c in StagingBasics(s, minQuality)
            || c in StagingAt(s, o, 0).failures || c in StagingAt(s, o, 1).failures || c in StagingAt(s, o, 2).failures
            || c in FreshnessCodes(s.state, EffectiveState(s, o.now),
                                   o.allowSensorStats && StagingAt(s, o, 1).excepted, o.allowStale)
  {
    CodesInTurn(s, minQuality, o);
    hide StagingAt, FreshnessCodes, StagingCodesTo, StagingBasics, ResultAt, EffectiveState, AgeSeconds;
  }

  lemma BasicReasons(s: Snapshot, minQuality: int, c: Code)
    ensures c in StagingBasics(s, minQuality) <==>
            || (c == PublicationMode && s.publicationMode != "real_only")
            || (c == DemoSource && exists i :: 0 <= i < |s.sources| && s.sources[i].kind == Some("demo"))
            || (c == DemoEvidence && HasDemo(s.tree))
            || (c == LowQuality && s.score < minQuality)
  {
    ContainsDemoMeans(s.tree);
    hide HasDemo, ContainsDemo;
  }

  /** Staging reports exactly the failures that have a reason in the fields of the snapshot. */
  lemma FailuresHaveReasons(s: Snapshot, minQuality: int, o: Options, c: Code)
    ensures c in StagingResultOf(s, minQuality, o).failures <==> StagingReason(s, minQuality, o, c)
  {
    BasicReasons(s, minQuality, c);
    KindReasons(s.sources, KINDS[0], o.allowSensorStats, c);
    KindReasons(s.sources, KINDS[1], o.allowSensorStats, c);
    KindReasons(s.sources, KINDS[2], o.allowSensorStats, c);
    FreshnessReasons(s, o, c);
    FailuresLookup(s, minQuality, o, c);
    hide StagingSource, FreshnessCodes, HasDemo, KindReason, FreshnessReason, StagingResultOf, StagingBasics, Matching,
      EffectiveState;
  }

  // ----- the same for production -----

  ghost predicate ProductionSourceReason(kind: string, s: Source, allow: bool, c: Code) {
    match c
    case CapabilityError(k) =>
      k == kind && (s.capabilities.None? || (!allow && Excepted(s, true))
                    || exists n :: n in s.capabilities.value && BadCapability(kind, n, s.capabilities.value[n]))
    case SensorStatsNotApproved => false
    case _ => SourceReason(kind, s, allow, c)
  }

  ghost predicate ProductionKindReason(sources: seq<Source>, kind: string, allow: bool, c: Code) {
    || (c == SourceMissingOrAmbiguous(kind) && forall i :: !IsOnly(sources, kind, i))
    || exists i :: IsOnly(sources, kind, i) && ProductionSourceReason(kind, sources[i], allow, c)
  }

  /** Start, completion and generation in order, and an admissible maximal age. */
  predicate Ordered(s: Snapshot) {
    s.startedAt <= s.completedAt <= s.generatedAt && 60 <= s.maxAgeSeconds <= 604800
  }

  ghost predicate ProductionReason(s: Snapshot, o: Options, c: Code) {
    || (c == ContractInvalid && !(s.contract && Ordered(s)))
    || (c == PublicationMode && s.publicationMode != "real_only")
    || (c == DemoSource && exists i :: 0 <= i < |s.sources| && s.sources[i].kind == Some("demo"))
    || (c == DemoEvidence && HasDemo(s.tree))
    || (c == LowQuality && !(80 <= s.score <= 100))
    || ProductionKindReason(s.sources, "vmware_esxi", o.allowSensorStats, c)
    || ProductionKindReason(s.sources, "cisco_cyber_vision", o.allowSensorStats, c)
    || ProductionKindReason(s.sources, "cisco_cyber_vision_new_ui", o.allowSensorStats, c)
    || (FreshnessReason(s, o, c) && (c == StaleByAge ==> Ordered(s) || s.state == "stale"))
  }

  lemma ProductionCapabilityReasons(kind: string, s: Source, allow: bool, c: Code)
    requires kind in KINDS && s.kind == Some(kind) && s.capabilities.Some?
    ensures var caps := s.capabilities.value;
            c in ProductionCodes(kind, caps, caps.Keys, allow) <==>
            c == CapabilityError(kind)
            && ((exists n :: n in caps && BadCapability(kind, n, caps[n])) || (!allow && Excepted(s, true)))
  {
    var caps := s.capabilities.value;
    forall n | n in caps
      ensures var f := ProductionFinding(kind, n, caps[n], allow);
              && (f == Fails(CapabilityError(kind)) <==>
                    BadCapability(kind, n, caps[n]) || (!allow && NoSensorStats(kind, n, caps[n].value)))
              && (f.Fails? ==> f.code == CapabilityError(kind))
              && (f.Fails? ==> f.code in ProductionCodes(kind, caps, caps.Keys, allow))
    {
    }
    hide ProductionFinding, BadCapability;
  }

  lemma ProductionExceptsMeans(kind: string, s: Source, allow: bool)
    requires kind in KINDS && s.kind == Some(kind)
    ensures ProductionExcepts(kind, CapabilitiesOf(s), CapabilitiesOf(s).Keys, allow) <==> Excepted(s, allow)
  {
    var caps := CapabilitiesOf(s);
    forall n | n in caps
      ensures ProductionFinding(kind, n, caps[n], allow).Excepts? <==>
                caps[n].Some? && NoSensorStats(kind, n, caps[n].value) && allow
    {
    }
    hide ProductionFinding;
  }

  lemma ProductionCodesOfOne(kind: string, s: Source, allow: bool, c: Code)
    requires kind in KINDS && s.kind == Some(kind)
    ensures var caps := CapabilitiesOf(s);
            c in ProductionSource(kind, [s], allow).failures <==>
            || (c == CapabilityError(kind) && s.capabilities.None?)
            || (c == CapabilityMissing(kind) && !(ProductionRequired(kind) <= caps.Keys))
            || c in ProductionCodes(kind, caps, caps.Keys, allow)
            || (c == SourceUnhealthy(kind) && s.status != Some("connected") && !Excused(s, allow))
            || (c == SourceFailed(kind) && s.error != NoError && !Excused(s, allow))
  {
    ProductionExceptsMeans(kind, s, allow);
    hide ProductionRequired, ProductionCodes, ProductionExcepts, ProductionWarns;
  }

  lemma OneProductionSourceReasons(kind: string, s: Source, allow: bool, c: Code)
    requires kind in KINDS && s.kind == Some(kind)
    ensures c in ProductionSource(kind, [s], allow).failures <==> ProductionSourceReason(kind, s, allow, c)
  {
    hide ProductionSource, BadCapability, Excused, Excepted;
    assert ProductionRequired(kind) == NeededCapabilities(kind) != {};
    ProductionCodesOfOne(kind, s, allow, c);
    if s.capabilities.Some? {
      ProductionCapabilityReasons(kind, s, allow, c);
    } else {
      NoCapabilities(kind, s, true);
      assert ProductionCodes(kind, map[], {}, allow) == {};
    }
    hide ProductionRequired, NeededCapabilities, ProductionCodes, ProductionSource, BadCapability, Excused, Excepted;
  }

  lemma ProductionKindReasons(sources: seq<Source>, kind: string, allow: bool, c: Code)
    requires kind in KINDS
    ensures c in ProductionSource(kind, Matching(sources, kind), allow).failures <==>
            ProductionKindReason(sources, kind, allow, c)
    ensures ProductionSource(kind, Matching(sources, kind), allow).excepted <==>
            exists i :: IsOnly(sources, kind, i) && Excepted(sources[i], allow)
  {
    MatchingIs(sources, kind);
    hide Matching, ProductionSourceReason, Excepted;
    if |Matching(sources, kind)| == 1 {
      var i :| IsOnly(sources, kind, i);
      OneProductionSourceReasons(kind, sources[i], allow, c);
      ProductionExceptsMeans(kind, sources[i], allow);
    } else {
      assert forall i :: !IsOnly(sources, kind, i);
    }
    hide ProductionCodes, ProductionExcepts, ProductionWarns, ProductionRequired, Tolerated;
  }

  lemma ProductionFreshnessReasons(s: Snapshot, o: Options, c: Code)
    ensures c in FreshnessCodes(s.state, ProductionState(s, o.now),
                                o.allowSensorStats && ProductionAt(s, o, 1).excepted, o.allowStale) <==>
            FreshnessReason(s, o, c) && (c == StaleByAge ==> Ordered(s) || s.state == "stale")
  {
    AgeMeans(s, o.now);
    ProductionObservedOfOne(s, o);
    hide AgeSeconds, IsRecent, ProductionAt, IsOnly, Excepted;
  }

  lemma ProductionObservedOfOne(s: Snapshot, o: Options)
    ensures o.allowSensorStats && ProductionAt(s, o, 1).excepted <==>
            exists i :: IsOnly(s.sources, "cisco_cyber_vision", i) && Excepted(s.sources[i], o.allowSensorStats)
  {
    ProductionKindReasons(s.sources, CLASSIC, o.allowSensorStats, NotFresh);
    hide ProductionSource, Matching, ProductionKindReason;
    if i :| IsOnly(s.sources, CLASSIC, i) && Excepted(s.sources[i], o.allowSensorStats) {
      ExceptedIsAllowed(s, o);
    }
    hide Excepted;
  }

  lemma ProductionCodesInTurn(s: Snapshot, o: Options)
    ensures ProductionCodesTo(s, o, |KINDS|)
            == ProductionBasics(s) + ProductionAt(s, o, 0).failures + ProductionAt(s, o, 1).failures
               + ProductionAt(s, o, 2).failures
  {
    hide ProductionBasics, ProductionAt;
    assert ProductionCodesTo(s, o, 1) == ProductionBasics(s) + ProductionAt(s, o, 0).failures;
    assert ProductionCodesTo(s, o, 2) == ProductionCodesTo(s, o, 1) + ProductionAt(s, o, 1).failures;
  }

  lemma ProductionBasicReasons(s: Snapshot, c: Code)
    ensures c in ProductionBasics(s) <==>
            || (c == ContractInvalid && !s.contract)
            || (c == PublicationMode && s.publicationMode != "real_only")
            || (c == DemoSource && exists i :: 0 <= i < |s.sources| && s.sources[i].kind == Some("demo"))
            || (c == DemoEvidence && HasDemo(s.tree))
            || (c == LowQuality && !(80 <= s.score <= 100))
  {
    ContainsDemoMeans(s.tree);
    hide HasDemo, ContainsDemo;
  }

  /** What the refusal of production carries, before it is known to be one. */
  ghost function ProductionFailures(s: Snapshot, o: Options): set<Code> {
    match ProductionResultOf(s, o)
    case Ok(_) => {}
    case Err(failures) => failures
  }

  lemma ProductionFailuresLookup(s: Snapshot, o: Options, c: Code)
    ensures c in ProductionFailures(s, o) <==>
            || c in ProductionBasics(s) || (c == ContractInvalid && !Ordered(s))
            || c in ProductionAt(s, o, 0).failures || c in ProductionAt(s, o, 1).failures
            || c in ProductionAt(s, o, 2).failures
            || c in FreshnessCodes(s.state, ProductionState(s, o.now),
                                   o.allowSensorStats && ProductionAt(s, o, 1).excepted, o.allowStale)
  {
    ProductionCodesInTurn(s, o);
    hide ProductionAt, FreshnessCodes, ProductionCodesTo, ProductionBasics, ProductionState, AgeSeconds;
  }

  /** Production refuses with exactly the failures that have a reason in the fields of the snapshot. */
  lemma RefusalsHaveReasons(s: Snapshot, o: Options, c: Code)
    ensures c in ProductionFailures(s, o) <==> ProductionReason(s, o, c)
  {
    ProductionBasicReasons(s, c);
    ProductionKindReasons(s.sources, KINDS[0], o.allowSensorStats, c);
    ProductionKindReasons(s.sources, KINDS[1], o.allowSensorStats, c);
    ProductionKindReasons(s.sources, KINDS[2], o.allowSensorStats, c);
    ProductionFreshnessReasons(s, o, c);
    ProductionFailuresLookup(s, o, c);
    hide ProductionSource, FreshnessCodes, HasDemo, ProductionKindReason, FreshnessReason, ProductionFailures,
      ProductionBasics, Matching, ProductionState;
  }

  // ----- the two answers, on the fields -----

  /** Staging approves exactly the approvable snapshots, says of them only what is true, and of the others names
      exactly the failures that have a reason. */
  ghost predicate AnswersStaging(s: Snapshot, minQuality: int, o: Options, r: StagingResult) {
    && (r.approved <==> Approvable(s, minQuality, o))
    && (r.approved ==> SaysFreshness(s, o, r) && SaysSources(s, o, r))
    && forall c :: c in r.failures <==> StagingReason(s, minQuality, o, c)
  }

  /** Production accepts exactly the approvable snapshots that meet their contract, and names the reasons otherwise. */
  ghost predicate AnswersProduction(s: Snapshot, o: Options, r: Result<Accepted, set<Code>>) {
    && (r.Ok? <==> Approvable(s, 80, o) && s.contract && s.score <= 100 && Ordered(s))
    && (r.Err? ==> forall c :: c in r.error <==> ProductionReason(s, o, c))
  }

  lemma StagingAnswers(s: Snapshot, minQuality: int, o: Options)
    ensures AnswersStaging(s, minQuality, o, StagingResultOf(s, minQuality, o))
  {
    hide Approvable, StagingReason, SaysFreshness, SaysSources, StagingResultOf;
    StagingApprovesExactly(s, minQuality, o);
    if Approvable(s, minQuality, o) {
      ApprovalSaysTruly(s, minQuality, o);
    }
    forall c ensures c in StagingResultOf(s, minQuality, o).failures <==> StagingReason(s, minQuality, o, c) {
      FailuresHaveReasons(s, minQuality, o, c);
    }
  }

  lemma ProductionAnswers(s: Snapshot, o: Options)
    ensures AnswersProduction(s, o, ProductionResultOf(s, o))
  {
    hide Approvable, ProductionReason, ProductionResultOf;
    ProductionAcceptsExactly(s, o);
    forall c ensures c in ProductionFailures(s, o) <==> ProductionReason(s, o, c) {
      RefusalsHaveReasons(s, o, c);
    }
  }
}
