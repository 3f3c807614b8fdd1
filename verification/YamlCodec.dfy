/**
  Policies and intents as YAML documents (ai-agents/ui/yaml_codec.py).

  Documents are abstract: the YAML and JSON texts themselves are taken to load
  what was dumped.  Raising is one outcome, whatever the message.
*/
module YamlCodec {
  import opened Prelude
  import opened Text

  /** The keys the codec reads or writes, and any other. */
  datatype Key =
    | Name | Alertname | FixType | DeviceRole | Environment | Description
    | Gate | Level | MinConfidence | MaxRisk | Promotable
    | FastPath | Conditions | Rca | Fix
    | Diagnosis | Confidence | Action | UpstreamCause | Commands | Risk | Reason | Type
    | Device | Enabled | Monitor | Query | Threshold | IntervalSeconds | CooldownMinutes | Priority | Chaos | Schedule
    | OtherKey(text: string)

  datatype Yaml =
    | YNull
    | YBool(b: bool)
    | YInt(n: int)
    | YStr(s: string)
    | YList(items: seq<Yaml>)
    | YMap(entries: map<Key, Yaml>)

  predicate Truthy(v: Yaml) {
    match v
    case YNull => false
    case YBool(b) => b
    case YInt(n) => n != 0
    case YStr(s) => s != ""
    case YList(items) => items != []
    case YMap(entries) => entries != map[]
  }

  /** `m.get(k)`. */
  function Lookup(m: map<Key, Yaml>, k: Key): Yaml {
    if k in m then m[k] else YNull
  }

  /** `(v or default).strip()`; values that are not text have no `strip`. */
  function TextOr(v: Yaml, fallback: string): Result<string> {
    if !Truthy(v) then Ok(fallback) else if v.YStr? then Ok(Strip(v.s)) else Raised
  }

  /** `TextOr` followed by the membership test. */
  function ChoiceOr(v: Yaml, fallback: string, valid: set<string>): Result<string> {
    var s :- TextOr(v, fallback);
    if s in valid then Ok(s) else Raised
  }

  /** `v or {}` used as a mapping. */
  function MappingOr(v: Yaml): Result<map<Key, Yaml>> {
    if !Truthy(v) then Ok(map[]) else if v.YMap? then Ok(v.entries) else Raised
  }

  /** `bool(m.get(k, True))`. */
  function FlagOr(m: map<Key, Yaml>, k: Key): bool {
    if k in m then Truthy(m[k]) else true
  }

  const LEVELS := {"L0", "L1", "L2", "L3", "L4", "L5"}
  const CONFIDENCES := {"low", "medium", "high", "certain"}
  const RISKS := {"low", "medium", "high"}
  const CONDITION_TYPES := {"metric", "show_command", "nautobot"}
  const FIX_TYPES := {"config_change", "runbook", "escalate_human", "no_action"}

  datatype RcaTemplate = RcaTemplate(diagnosis: string, confidence: string, action: string, upstreamCause: string)

  datatype FixTemplate = FixTemplate(fixType: string, commands: string, risk: string, confidence: string, reason: string)

  datatype PolicyGate = PolicyGate(level: string, minConfidence: string, maxRisk: string, promotable: bool)

  datatype PolicyTexts = PolicyTexts(
    name: string, alertname: string, fixType: string, deviceRole: string, environment: string, description: string)

  datatype FastPathParts = FastPathParts(conditions: Option<seq<Yaml>>, rca: Option<RcaTemplate>, fix: Option<FixTemplate>)

  /** The row, its columns grouped as the document groups them. */
  datatype PolicyData = PolicyData(texts: PolicyTexts, gate: PolicyGate, fastPath: FastPathParts, tenant: string)

  // ---------------------------------------------------------------- policies

  predicate ValidCondition(c: Yaml) {
    c.YMap? && Lookup(c.entries, Type).YStr? && Lookup(c.entries, Type).s in CONDITION_TYPES
  }

  function ParseConditions(v: Yaml): Result<Option<seq<Yaml>>> {
    if !Truthy(v) then Ok(None)
    else if v.YList? && forall i :: 0 <= i < |v.items| ==> ValidCondition(v.items[i]) then Ok(Some(v.items))
    else Raised
  }

  function ParseRca(v: Yaml): Result<Option<RcaTemplate>> {
    if !v.YMap? || !Truthy(Lookup(v.entries, Diagnosis)) then Ok(None) else
    var confidence :- ChoiceOr(Lookup(v.entries, Confidence), "high", CONFIDENCES);
    var diagnosis :- TextOr(Lookup(v.entries, Diagnosis), "");
    var action :- TextOr(Lookup(v.entries, Action), "");
    var upstream :- TextOr(Lookup(v.entries, UpstreamCause), "");
    Ok(Some(RcaTemplate(diagnosis, confidence, action, upstream)))
  }

  function ParseFix(v: Yaml): Result<Option<FixTemplate>> {
    ParseFixOver(v, "config_change", FIX_TYPES, "low", RISKS, "high", CONFIDENCES)
  }

  /** With the defaults and the values allowed for type, risk and confidence. */
  function ParseFixOver(v: Yaml, type0: string, types: set<string>, risk0: string, risks: set<string>, confidence0: string,
                        confidences: set<string>): Result<Option<FixTemplate>> {
    if !v.YMap? || !Truthy(Lookup(v.entries, Commands)) then Ok(None) else
    var fixType :- ChoiceOr(Lookup(v.entries, FixType), type0, types);
    var risk :- ChoiceOr(Lookup(v.entries, Risk), risk0, risks);
    var confidence :- ChoiceOr(Lookup(v.entries, Confidence), confidence0, confidences);
    var commands :- TextOr(Lookup(v.entries, Commands), "");
    var reason :- TextOr(Lookup(v.entries, Reason), "");
    Ok(Some(FixTemplate(fixType, commands, risk, confidence, reason)))
  }

  function ParseGate(v: Yaml): Result<PolicyGate> {
    ParseGateOver(v, "L2", LEVELS, "low", CONFIDENCES, "high", RISKS)
  }

  /** With the defaults and the values allowed for level, confidence and risk. */
  function ParseGateOver(v: Yaml, level0: string, levels: set<string>, confidence0: string, confidences: set<string>, risk0: string,
                         risks: set<string>): Result<PolicyGate> {
    var gate :- MappingOr(v);
    var level :- ChoiceOr(Lookup(gate, Level), level0, levels);
    var minConfidence :- ChoiceOr(Lookup(gate, MinConfidence), confidence0, confidences);
    var maxRisk :- ChoiceOr(Lookup(gate, MaxRisk), risk0, risks);
    Ok(PolicyGate(level, minConfidence, maxRisk, FlagOr(gate, Promotable)))
  }

  function ParseTexts(m: map<Key, Yaml>): Result<PolicyTexts> {
    var name :- TextOr(Lookup(m, Name), "");
    if name == "" then Raised else
    var alertname :- TextOr(Lookup(m, Alertname), "");
    var fixType :- TextOr(Lookup(m, FixType), "");
    var deviceRole :- TextOr(Lookup(m, DeviceRole), "");
    var environment :- TextOr(Lookup(m, Environment), "");
    var description :- TextOr(Lookup(m, Description), "");
    Ok(PolicyTexts(name, alertname, fixType, deviceRole, environment, description))
  }

  /** Anything but a mapping under `fast_path` is ignored. */
  function ParseFastPath(v: Yaml): Result<FastPathParts> {
    var fp := if v.YMap? then v.entries else map[];
    var conditions :- ParseConditions(Lookup(fp, Conditions));
    var rca :- ParseRca(Lookup(fp, Rca));
    var fix :- ParseFix(Lookup(fp, Fix));
    Ok(FastPathParts(conditions, rca, fix))
  }

  /** `yaml_to_policy`. */
  function ParsePolicy(doc: Yaml, tenant: string): Result<PolicyData> {
    if !doc.YMap? then Raised else
    var texts :- ParseTexts(doc.entries);
    var gate :- ParseGate(Lookup(doc.entries, Gate));
    var fastPath :- ParseFastPath(Lookup(doc.entries, FastPath));
    Ok(PolicyData(texts, gate, fastPath, tenant))
  }

  function PrintRca(r: RcaTemplate): Yaml {
    YMap(map[Diagnosis := YStr(r.diagnosis), Confidence := YStr(r.confidence), Action := YStr(r.action),
             UpstreamCause := YStr(r.upstreamCause)])
  }

  function PrintFix(f: FixTemplate): Yaml {
    YMap(map[FixType := YStr(f.fixType), Commands := YStr(f.commands), Risk := YStr(f.risk),
             Confidence := YStr(f.confidence), Reason := YStr(f.reason)])
  }

  function PrintGate(g: PolicyGate): Yaml {
    YMap(map[Level := YStr(g.level), MinConfidence := YStr(g.minConfidence), MaxRisk := YStr(g.maxRisk),
             Promotable := YBool(g.promotable)])
  }

  function PrintFastPath(p: FastPathParts): map<Key, Yaml> {
    (if p.conditions.Some? && p.conditions.value != [] then map[Conditions := YList(p.conditions.value)] else map[])
    + (if p.rca.Some? then map[Rca := PrintRca(p.rca.value)] else map[])
    + (if p.fix.Some? then map[Fix := PrintFix(p.fix.value)] else map[])
  }

  /** `policy_to_yaml`, for rows that hold what the parser produces. */
  function PrintPolicy(p: PolicyData): Yaml {
    var t, fp := p.texts, PrintFastPath(p.fastPath);
    var doc := map[Name := YStr(t.name), Alertname := YStr(t.alertname), FixType := YStr(t.fixType),
                   DeviceRole := YStr(t.deviceRole), Environment := YStr(t.environment), Description := YStr(t.description),
                   Gate := PrintGate(p.gate)];
    YMap(if fp != map[] then doc[FastPath := YMap(fp)] else doc)
  }

  predicate Stripped(s: string) { Strip(s) == s }

  predicate GoodRca(r: RcaTemplate) {
    Stripped(r.diagnosis) && Stripped(r.confidence) && r.confidence in CONFIDENCES && Stripped(r.action) && Stripped(r.upstreamCause)
  }

  predicate GoodFix(f: FixTemplate) {
    && Stripped(f.fixType) && f.fixType in FIX_TYPES && Stripped(f.commands) && Stripped(f.risk) && f.risk in RISKS
    && Stripped(f.confidence) && f.confidence in CONFIDENCES && Stripped(f.reason)
  }

  predicate GoodGate(g: PolicyGate) {
    && Stripped(g.level) && g.level in LEVELS && Stripped(g.minConfidence) && g.minConfidence in CONFIDENCES
    && Stripped(g.maxRisk) && g.maxRisk in RISKS
  }

  predicate GoodTexts(t: PolicyTexts) {
    && t.name != "" && Stripped(t.name) && Stripped(t.alertname) && Stripped(t.fixType) && Stripped(t.deviceRole)
    && Stripped(t.environment) && Stripped(t.description)
  }

  predicate GoodFastPath(p: FastPathParts) {
    && (p.conditions.Some? ==> p.conditions.value != [] && forall c :: c in p.conditions.value ==> ValidCondition(c))
    && (p.rca.Some? ==> GoodRca(p.rca.value))
    && (p.fix.Some? ==> GoodFix(p.fix.value))
  }

  /** Everything the parser can produce. */
  predicate GoodPolicy(p: PolicyData) {
    GoodTexts(p.texts) && GoodGate(p.gate) && GoodFastPath(p.fastPath)
  }

  lemma TextOrIsStripped(v: Yaml, fallback: string)
    requires Stripped(fallback)
    ensures TextOr(v, fallback).Ok? ==> Stripped(TextOr(v, fallback).value)
  {
    if v.YStr? { StripIdempotent(v.s); }
  }

  /** Stripped text survives printing and parsing; empty text becomes the fallback. */
  lemma TextOrPrinted(s: string, fallback: string)
    requires Stripped(s)
    ensures TextOr(YStr(s), fallback) == Ok(if s == "" then fallback else s)
  {
  }

  lemma LiteralsAreStripped()
    ensures Stripped("") && Stripped("L2") && Stripped("low") && Stripped("high") && Stripped("config_change")
    ensures "" !in LEVELS && "" !in CONFIDENCES && "" !in RISKS && "" !in FIX_TYPES
  {
  }

  lemma ParseRcaIsGood(v: Yaml)
    ensures match ParseRca(v) case Ok(Some(r)) => GoodRca(r) case _ => true
  {
    LiteralsAreStripped();
    if v.YMap? {
      TextOrIsStripped(Lookup(v.entries, Confidence), "high");
      TextOrIsStripped(Lookup(v.entries, Diagnosis), "");
      TextOrIsStripped(Lookup(v.entries, Action), "");
      TextOrIsStripped(Lookup(v.entries, UpstreamCause), "");
    }
  }

  lemma ParseFixIsGood(v: Yaml)
    ensures match ParseFix(v) case Ok(Some(f)) => GoodFix(f) case _ => true
  {
    LiteralsAreStripped();
    if v.YMap? {
      TextOrIsStripped(Lookup(v.entries, FixType), "config_change");
      TextOrIsStripped(Lookup(v.entries, Risk), "low");
      TextOrIsStripped(Lookup(v.entries, Confidence), "high");
      TextOrIsStripped(Lookup(v.entries, Commands), "");
      TextOrIsStripped(Lookup(v.entries, Reason), "");
    }
  }

  lemma ParseGateIsGood(v: Yaml)
    ensures match ParseGate(v) case Ok(g) => GoodGate(g) case Raised => true
  {
    LiteralsAreStripped();
    var gate := MappingOr(v);
    if gate.Ok? {
      TextOrIsStripped(Lookup(gate.value, Level), "L2");
      TextOrIsStripped(Lookup(gate.value, MinConfidence), "low");
      TextOrIsStripped(Lookup(gate.value, MaxRisk), "high");
    }
  }

  lemma ParseTextsIsGood(m: map<Key, Yaml>)
    ensures match ParseTexts(m) case Ok(t) => GoodTexts(t) case Raised => true
  {
    TextOrIsStripped(Lookup(m, Name), "");
    TextOrIsStripped(Lookup(m, Alertname), "");
    TextOrIsStripped(Lookup(m, FixType), "");
    TextOrIsStripped(Lookup(m, DeviceRole), "");
    TextOrIsStripped(Lookup(m, Environment), "");
    TextOrIsStripped(Lookup(m, Description), "");
  }

  lemma ParseFastPathIsGood(v: Yaml)
    ensures match ParseFastPath(v) case Ok(p) => GoodFastPath(p) case Raised => true
  {
    var fp := if v.YMap? then v.entries else map[];
    ParseRcaIsGood(Lookup(fp, Rca));
    ParseFixIsGood(Lookup(fp, Fix));
  }

  lemma ParsePolicyIsGood(doc: Yaml, tenant: string)
    ensures match ParsePolicy(doc, tenant) case Ok(p) => GoodPolicy(p) && p.tenant == tenant case Raised => true
  {
    if doc.YMap? {
      ParseTextsIsGood(doc.entries);
      ParseGateIsGood(Lookup(doc.entries, Gate));
      ParseFastPathIsGood(Lookup(doc.entries, FastPath));
    }
  }

  /** What printing loses: a root cause with a blank diagnosis, a fix with blank commands. */
  function DropBlank(p: FastPathParts): FastPathParts {
    p.(rca := if p.rca.Some? && p.rca.value.diagnosis == "" then None else p.rca,
       fix := if p.fix.Some? && p.fix.value.commands == "" then None else p.fix)
  }

  lemma RcaRoundTrip(r: RcaTemplate)
    requires GoodRca(r)
    ensures ParseRca(PrintRca(r)) == Ok(if r.diagnosis == "" then None else Some(r))
  {
    LiteralsAreStripped();
  }

  lemma FixLookups(f: FixTemplate)
    ensures var m := PrintFix(f).entries;
            && Lookup(m, FixType) == YStr(f.fixType) && Lookup(m, Commands) == YStr(f.commands) && Lookup(m, Risk) == YStr(f.risk)
            && Lookup(m, Confidence) == YStr(f.confidence) && Lookup(m, Reason) == YStr(f.reason)
  {
  }

  lemma FixRoundTripOver(f: FixTemplate, type0: string, types: set<string>, risk0: string, risks: set<string>, confidence0: string,
                         confidences: set<string>)
    requires Stripped(f.fixType) && Stripped(f.commands) && Stripped(f.risk) && Stripped(f.confidence) && Stripped(f.reason)
    requires f.fixType in types && f.risk in risks && f.confidence in confidences
    requires "" !in types && "" !in risks && "" !in confidences
    ensures ParseFixOver(PrintFix(f), type0, types, risk0, risks, confidence0, confidences)
            == Ok(if f.commands == "" then None else Some(f))
  {
    FixLookups(f);
    ChoiceOrPrinted(f.fixType, type0, types);
    ChoiceOrPrinted(f.risk, risk0, risks);
    ChoiceOrPrinted(f.confidence, confidence0, confidences);
    TextOrPrinted(f.commands, "");
    TextOrPrinted(f.reason, "");
  }

  lemma FixRoundTrip(f: FixTemplate)
    requires GoodFix(f)
    ensures ParseFix(PrintFix(f)) == Ok(if f.commands == "" then None else Some(f))
  {
    LiteralsAreStripped();
    FixRoundTripOver(f, "config_change", FIX_TYPES, "low", RISKS, "high", CONFIDENCES);
  }

  lemma ChoiceOrPrinted(s: string, fallback: string, valid: set<string>)
    requires Stripped(s) && s in valid && "" !in valid
    ensures ChoiceOr(YStr(s), fallback, valid) == Ok(s)
  {
  }

  lemma FastPathLookups(p: FastPathParts)
    ensures var fp := PrintFastPath(p);
            && Lookup(fp, Conditions) == (if p.conditions.Some? && p.conditions.value != [] then YList(p.conditions.value) else YNull)
            && Lookup(fp, Rca) == (if p.rca.Some? then PrintRca(p.rca.value) else YNull)
            && Lookup(fp, Fix) == (if p.fix.Some? then PrintFix(p.fix.value) else YNull)
  {
  }

  lemma FastPathRoundTrip(p: FastPathParts)
    requires GoodFastPath(p)
    ensures ParseFastPath(YMap(PrintFastPath(p))) == Ok(DropBlank(p))
  {
    FastPathLookups(p);
    if p.conditions.Some? { ConditionsRoundTrip(p.conditions.value); }
    if p.rca.Some? { RcaRoundTrip(p.rca.value); }
    if p.fix.Some? { FixRoundTrip(p.fix.value); }
  }

  lemma ConditionsRoundTrip(cs: seq<Yaml>)
    requires cs != [] && forall c :: c in cs ==> ValidCondition(c)
    ensures ParseConditions(YList(cs)) == Ok(Some(cs))
  {
  }

  lemma PolicyLookups(p: PolicyData)
    ensures var m, t := PrintPolicy(p).entries, p.texts;
            && Lookup(m, Name) == YStr(t.name) && Lookup(m, Alertname) == YStr(t.alertname)
            && Lookup(m, FixType) == YStr(t.fixType) && Lookup(m, DeviceRole) == YStr(t.deviceRole)
            && Lookup(m, Environment) == YStr(t.environment) && Lookup(m, Description) == YStr(t.description)
            && Lookup(m, Gate) == PrintGate(p.gate)
            && ParseFastPath(Lookup(m, FastPath)) == ParseFastPath(YMap(PrintFastPath(p.fastPath)))
  {
  }

  lemma GateLookups(g: PolicyGate)
    ensures var m := PrintGate(g).entries;
            && m != map[]
            && Lookup(m, Level) == YStr(g.level) && Lookup(m, MinConfidence) == YStr(g.minConfidence)
            && Lookup(m, MaxRisk) == YStr(g.maxRisk) && FlagOr(m, Promotable) == g.promotable
  {
    assert Level in PrintGate(g).entries;
  }

  lemma GateRoundTripOver(g: PolicyGate, level0: string, levels: set<string>, confidence0: string, confidences: set<string>,
                          risk0: string, risks: set<string>)
    requires Stripped(g.level) && Stripped(g.minConfidence) && Stripped(g.maxRisk)
    requires g.level in levels && g.minConfidence in confidences && g.maxRisk in risks
    requires "" !in levels && "" !in confidences && "" !in risks
    ensures ParseGateOver(PrintGate(g), level0, levels, confidence0, confidences, risk0, risks) == Ok(g)
  {
    GateLookups(g);
    ChoiceOrPrinted(g.level, level0, levels);
    ChoiceOrPrinted(g.minConfidence, confidence0, confidences);
    ChoiceOrPrinted(g.maxRisk, risk0, risks);
  }

  lemma GateRoundTrip(g: PolicyGate)
    requires GoodGate(g)
    ensures ParseGate(PrintGate(g)) == Ok(g)
  {
    LiteralsAreStripped();
    GateRoundTripOver(g, "L2", LEVELS, "low", CONFIDENCES, "high", RISKS);
  }

  lemma TextsRoundTripFrom(t: PolicyTexts, m: map<Key, Yaml>)
    requires GoodTexts(t)
    requires Lookup(m, Name) == YStr(t.name) && Lookup(m, Alertname) == YStr(t.alertname)
    requires Lookup(m, FixType) == YStr(t.fixType) && Lookup(m, DeviceRole) == YStr(t.deviceRole)
    requires Lookup(m, Environment) == YStr(t.environment) && Lookup(m, Description) == YStr(t.description)
    ensures ParseTexts(m) == Ok(t)
  {
    TextOrPrinted(t.name, "");
    TextOrPrinted(t.alertname, "");
    TextOrPrinted(t.fixType, "");
    TextOrPrinted(t.deviceRole, "");
    TextOrPrinted(t.environment, "");
    TextOrPrinted(t.description, "");
  }

  lemma TextsRoundTrip(p: PolicyData)
    requires GoodTexts(p.texts)
    ensures ParseTexts(PrintPolicy(p).entries) == Ok(p.texts)
  {
    PolicyLookups(p);
    TextsRoundTripFrom(p.texts, PrintPolicy(p).entries);
  }

  /** Printing and parsing gives back exactly what is not blank. */
  lemma PrintThenParsePolicy(p: PolicyData)
    requires GoodPolicy(p)
    ensures ParsePolicy(PrintPolicy(p), p.tenant) == Ok(p.(fastPath := DropBlank(p.fastPath)))
  {
    PolicyLookups(p);
    TextsRoundTrip(p);
    GateRoundTrip(p.gate);
    FastPathRoundTrip(p.fastPath);
  }

  predicate NothingBlank(p: FastPathParts) {
    && (p.rca.Some? ==> p.rca.value.diagnosis != "")
    && (p.fix.Some? ==> p.fix.value.commands != "")
  }

  /** For every document the parser accepts: printing the result and parsing again is the identity exactly when
      neither the diagnosis nor the commands of its fast path are blank, and it is always stable after one round. */
  lemma PolicyRoundTrip(doc: Yaml, tenant: string)
    ensures match ParsePolicy(doc, tenant)
            case Ok(p) =>
              var q := p.(fastPath := DropBlank(p.fastPath));
              && (ParsePolicy(PrintPolicy(p), tenant) == Ok(p) <==> NothingBlank(p.fastPath))
              && ParsePolicy(PrintPolicy(p), tenant) == Ok(q)
              && ParsePolicy(PrintPolicy(q), tenant) == Ok(q)
            case Raised => true
  {
    ParsePolicyIsGood(doc, tenant);
    var r := ParsePolicy(doc, tenant);
    if r.Ok? {
      PrintThenParsePolicy(r.value);
      PrintThenParsePolicy(r.value.(fastPath := DropBlank(r.value.fastPath)));
    }
  }

  // ---------------------------------------------------------------- which policies are accepted, and what they mean

  predicate Blank(v: Yaml) {
    v in {YNull, YBool(false), YInt(0), YStr(""), YList([]), YMap(map[])}
  }

  predicate TextFine(v: Yaml) { Blank(v) || v.YStr? }

  predicate ChoiceFine(v: Yaml, valid: set<string>) { Blank(v) || (v.YStr? && Strip(v.s) in valid) }

  /** The text a field holds, or its default when it is missing or blank. */
  function TextIn(v: Yaml, fallback: string): string {
    if !Blank(v) && v.YStr? then Strip(v.s) else fallback
  }

  function Fields(v: Yaml): map<Key, Yaml> { if v.YMap? then v.entries else map[] }

  lemma BlankIsFalse(v: Yaml)
    ensures Blank(v) <==> !Truthy(v)
  {
  }

  lemma TextMeans(v: Yaml, fallback: string)
    ensures TextOr(v, fallback) == if TextFine(v) then Ok(TextIn(v, fallback)) else Raised
  {
    BlankIsFalse(v);
  }

  lemma ChoiceMeans(v: Yaml, fallback: string, valid: set<string>)
    requires fallback in valid
    ensures ChoiceOr(v, fallback, valid) == if ChoiceFine(v, valid) then Ok(TextIn(v, fallback)) else Raised
  {
    BlankIsFalse(v);
  }

  lemma DefaultsAreValid()
    ensures "L2" in LEVELS && "low" in CONFIDENCES && "high" in CONFIDENCES && "low" in RISKS && "high" in RISKS
    ensures "config_change" in FIX_TYPES
  {
  }

  predicate AcceptableGate(v: Yaml, levels: set<string>, confidences: set<string>, risks: set<string>) {
    && (Blank(v) || v.YMap?)
    && ChoiceFine(Lookup(Fields(v), Level), levels)
    && ChoiceFine(Lookup(Fields(v), MinConfidence), confidences)
    && ChoiceFine(Lookup(Fields(v), MaxRisk), risks)
  }

  /** What a gate means: L2, low confidence, high risk and promotable unless it says otherwise. */
  function MeantGate(v: Yaml, level0: string, confidence0: string, risk0: string): PolicyGate {
    var m := Fields(v);
    PolicyGate(TextIn(Lookup(m, Level), level0), TextIn(Lookup(m, MinConfidence), confidence0),
               TextIn(Lookup(m, MaxRisk), risk0), Promotable in m ==> !Blank(m[Promotable]))
  }

  lemma GateMeansOver(v: Yaml, level0: string, levels: set<string>, confidence0: string, confidences: set<string>, risk0: string,
                      risks: set<string>)
    requires level0 in levels && confidence0 in confidences && risk0 in risks
    ensures ParseGateOver(v, level0, levels, confidence0, confidences, risk0, risks) ==
            if AcceptableGate(v, levels, confidences, risks) then Ok(MeantGate(v, level0, confidence0, risk0)) else Raised
  {
    var m := Fields(v);
    BlankIsFalse(v);
    ChoiceMeans(Lookup(m, Level), level0, levels);
    ChoiceMeans(Lookup(m, MinConfidence), confidence0, confidences);
    ChoiceMeans(Lookup(m, MaxRisk), risk0, risks);
    if Promotable in m { BlankIsFalse(m[Promotable]); }
  }

  predicate AcceptableTexts(m: map<Key, Yaml>) {
    && TextFine(Lookup(m, Name)) && TextIn(Lookup(m, Name), "") != ""
    && TextFine(Lookup(m, Alertname)) && TextFine(Lookup(m, FixType)) && TextFine(Lookup(m, DeviceRole))
    && TextFine(Lookup(m, Environment)) && TextFine(Lookup(m, Description))
  }

  function MeantTexts(m: map<Key, Yaml>): PolicyTexts {
    PolicyTexts(TextIn(Lookup(m, Name), ""), TextIn(Lookup(m, Alertname), ""), TextIn(Lookup(m, FixType), ""),
                TextIn(Lookup(m, DeviceRole), ""), TextIn(Lookup(m, Environment), ""), TextIn(Lookup(m, Description), ""))
  }

  lemma TextsMean(m: map<Key, Yaml>)
    ensures ParseTexts(m) == if AcceptableTexts(m) then Ok(MeantTexts(m)) else Raised
  {
    TextMeans(Lookup(m, Name), "");
    TextMeans(Lookup(m, Alertname), "");
    TextMeans(Lookup(m, FixType), "");
    TextMeans(Lookup(m, DeviceRole), "");
    TextMeans(Lookup(m, Environment), "");
    TextMeans(Lookup(m, Description), "");
  }

  /** A root cause without diagnosis is none, whatever else it holds. */
  predicate AcceptableRca(v: Yaml, confidences: set<string>) {
    var m := Fields(v);
    Blank(Lookup(m, Diagnosis))
    || (&& TextFine(Lookup(m, Diagnosis)) && ChoiceFine(Lookup(m, Confidence), confidences)
        && TextFine(Lookup(m, Action)) && TextFine(Lookup(m, UpstreamCause)))
  }

  function MeantRca(v: Yaml): Option<RcaTemplate> {
    var m := Fields(v);
    if Blank(Lookup(m, Diagnosis)) then None
    else Some(RcaTemplate(TextIn(Lookup(m, Diagnosis), ""), TextIn(Lookup(m, Confidence), "high"),
                          TextIn(Lookup(m, Action), ""), TextIn(Lookup(m, UpstreamCause), "")))
  }

  lemma RcaMeans(v: Yaml)
    ensures ParseRca(v) == if AcceptableRca(v, CONFIDENCES) then Ok(MeantRca(v)) else Raised
  {
    var m := Fields(v);
    DefaultsAreValid();
    BlankIsFalse(Lookup(m, Diagnosis));
    TextMeans(Lookup(m, Diagnosis), "");
    ChoiceMeans(Lookup(m, Confidence), "high", CONFIDENCES);
    TextMeans(Lookup(m, Action), "");
    TextMeans(Lookup(m, UpstreamCause), "");
  }

  /** A fix without commands is none, whatever else it holds. */
  predicate AcceptableFix(v: Yaml, types: set<string>, risks: set<string>, confidences: set<string>) {
    var m := Fields(v);
    Blank(Lookup(m, Commands))
    || (&& TextFine(Lookup(m, Commands)) && TextFine(Lookup(m, Reason)) && ChoiceFine(Lookup(m, FixType), types)
        && ChoiceFine(Lookup(m, Risk), risks) && ChoiceFine(Lookup(m, Confidence), confidences))
  }

  function MeantFix(v: Yaml, type0: string, risk0: string, confidence0: string): Option<FixTemplate> {
    var m := Fields(v);
    if Blank(Lookup(m, Commands)) then None
    else Some(FixTemplate(TextIn(Lookup(m, FixType), type0), TextIn(Lookup(m, Commands), ""), TextIn(Lookup(m, Risk), risk0),
                          TextIn(Lookup(m, Confidence), confidence0), TextIn(Lookup(m, Reason), "")))
  }

  lemma FixMeansOver(v: Yaml, type0: string, types: set<string>, risk0: string, risks: set<string>, confidence0: string,
                     confidences: set<string>)
    requires type0 in types && risk0 in risks && confidence0 in confidences
    ensures ParseFixOver(v, type0, types, risk0, risks, confidence0, confidences) ==
            if AcceptableFix(v, types, risks, confidences) then Ok(MeantFix(v, type0, risk0, confidence0)) else Raised
  {
    var m := Fields(v);
    BlankIsFalse(Lookup(m, Commands));
    TextMeans(Lookup(m, Commands), "");
    TextMeans(Lookup(m, Reason), "");
    ChoiceMeans(Lookup(m, FixType), type0, types);
    ChoiceMeans(Lookup(m, Risk), risk0, risks);
    ChoiceMeans(Lookup(m, Confidence), confidence0, confidences);
  }

  predicate AcceptableConditions(v: Yaml) {
    Blank(v) || (v.YList? && forall c :: c in v.items ==> ValidCondition(c))
  }

  function MeantConditions(v: Yaml): Option<seq<Yaml>> {
    if !Blank(v) && v.YList? then Some(v.items) else None
  }

  lemma ConditionsMean(v: Yaml)
    ensures ParseConditions(v) == if AcceptableConditions(v) then Ok(MeantConditions(v)) else Raised
  {
    BlankIsFalse(v);
    if v.YList? {
      assert (forall c :: c in v.items ==> ValidCondition(c)) <==> forall i :: 0 <= i < |v.items| ==> ValidCondition(v.items[i]);
    }
  }

  predicate AcceptableFastPath(v: Yaml) {
    var fp := Fields(v);
    && AcceptableConditions(Lookup(fp, Conditions)) && AcceptableRca(Lookup(fp, Rca), CONFIDENCES)
    && AcceptableFix(Lookup(fp, Fix), FIX_TYPES, RISKS, CONFIDENCES)
  }

  function MeantFastPath(v: Yaml): FastPathParts {
    var fp := Fields(v);
    FastPathParts(MeantConditions(Lookup(fp, Conditions)), MeantRca(Lookup(fp, Rca)),
                  MeantFix(Lookup(fp, Fix), "config_change", "low", "high"))
  }

  lemma FastPathMeans(v: Yaml)
    ensures ParseFastPath(v) == if AcceptableFastPath(v) then Ok(MeantFastPath(v)) else Raised
  {
    var fp := Fields(v);
    DefaultsAreValid();
    ConditionsMean(Lookup(fp, Conditions));
    RcaMeans(Lookup(fp, Rca));
    FixMeansOver(Lookup(fp, Fix), "config_change", FIX_TYPES, "low", RISKS, "high", CONFIDENCES);
  }

  /** The documents `yaml_to_policy` accepts. */
  predicate AcceptablePolicy(doc: Yaml) {
    && doc.YMap? && AcceptableTexts(doc.entries)
    && AcceptableGate(Lookup(doc.entries, Gate), LEVELS, CONFIDENCES, RISKS)
    && AcceptableFastPath(Lookup(doc.entries, FastPath))
  }

  /** A document is rejected exactly when a field it sets is wrong, and otherwise means what it sets, with these defaults for the rest. */
  lemma PolicyMeans(doc: Yaml, tenant: string)
    ensures ParsePolicy(doc, tenant) ==
            if AcceptablePolicy(doc) then
              Ok(PolicyData(MeantTexts(doc.entries), MeantGate(Lookup(doc.entries, Gate), "L2", "low", "high"),
                            MeantFastPath(Lookup(doc.entries, FastPath)), tenant))
            else Raised
  {
    if doc.YMap? {
      DefaultsAreValid();
      TextsMean(doc.entries);
      GateMeansOver(Lookup(doc.entries, Gate), "L2", LEVELS, "low", CONFIDENCES, "high", RISKS);
      FastPathMeans(Lookup(doc.entries, FastPath));
    }
  }

  // ---------------------------------------------------------------- intents

  const INTENT_TYPES := {"suppress", "escalate", "monitor", "chaos_schedule"}
  const PRIORITIES := {"low", "normal", "high"}

  datatype IntentData = IntentData(
    name: string, kind: string, description: string, device: string, alertname: string, enabled: bool, tenant: string,
    query: string, threshold: string, interval: int, cooldown: int, priority: string, schedule: string, action: string)

  /** `int(v)`; `ofText` stands for the conversion of text. */
  function IntOf(v: Yaml, ofText: string -> Option<int>): Result<int> {
    match v
    case YInt(n) => Ok(n)
    case YBool(b) => Ok(if b then 1 else 0)
    case YStr(s) => (match ofText(s) case Some(n) => Ok(n) case None => Raised)
    case _ => Raised
  }

  function IntOr(v: Yaml, fallback: int, ofText: string -> Option<int>): Result<int> {
    if Truthy(v) then IntOf(v, ofText) else Ok(fallback)
  }

  function Max(a: int, b: int): int { if a < b then b else a }

  /** `yaml_to_intent`. */
  function ParseIntent(doc: Yaml, tenant: string, ofText: string -> Option<int>): Result<IntentData> {
    if !doc.YMap? then Raised else
    var m := doc.entries;
    var base :- ParseHeader(m, tenant);
    if base.kind == "monitor" then ParseMonitor(Lookup(m, Monitor), base, ofText)
    else if base.kind == "chaos_schedule" then ParseChaos(Lookup(m, Chaos), base)
    else Ok(base)
  }

  function ParseHeader(m: map<Key, Yaml>, tenant: string): Result<IntentData> {
    var name :- TextOr(Lookup(m, Name), "");
    if name == "" then Raised else
    var kind :- ChoiceOr(Lookup(m, Type), "monitor", INTENT_TYPES);
    var description :- TextOr(Lookup(m, Description), "");
    var device :- TextOr(Lookup(m, Device), "");
    var alertname :- TextOr(Lookup(m, Alertname), "");
    Ok(IntentData(name, kind, description, device, alertname, FlagOr(m, Enabled), tenant, "", "", 300, 0, "normal", "", ""))
  }

  function ParseMonitor(v: Yaml, base: IntentData, ofText: string -> Option<int>): Result<IntentData> {
    var mon :- MappingOr(v);
    var query :- TextOr(Lookup(mon, Query), "");
    if query == "" then Raised else
    var threshold :- TextOr(Lookup(mon, Threshold), "");
    var interval :- IntOr(Lookup(mon, IntervalSeconds), 300, ofText);
    var cooldown :- IntOr(Lookup(mon, CooldownMinutes), 0, ofText);
    var priority :- ChoiceOr(Lookup(mon, Priority), "normal", PRIORITIES);
    Ok(base.(query := query, threshold := threshold, interval := Max(60, interval), cooldown := Max(0, cooldown),
             priority := priority))
  }

  function ParseChaos(v: Yaml, base: IntentData): Result<IntentData> {
    var chaos :- MappingOr(v);
    var schedule :- TextOr(Lookup(chaos, Schedule), "");
    var action :- TextOr(Lookup(chaos, Action), "");
    Ok(base.(schedule := schedule, action := action))
  }

  function PrintMonitor(i: IntentData): Yaml {
    YMap(map[Query := YStr(i.query), Threshold := YStr(i.threshold),
             IntervalSeconds := YInt(if i.interval == 0 then 300 else i.interval),
             CooldownMinutes := YInt(i.cooldown),
             Priority := YStr(if i.priority == "" then "normal" else i.priority)])
  }

  function PrintChaos(i: IntentData): Yaml {
    YMap(map[Schedule := YStr(i.schedule), Action := YStr(i.action)])
  }

  /** `intent_to_yaml`. */
  function PrintIntent(i: IntentData): Yaml {
    var doc := map[Name := YStr(i.name), Type := YStr(i.kind), Description := YStr(i.description), Device := YStr(i.device),
                   Alertname := YStr(i.alertname), Enabled := YBool(i.enabled)];
    YMap(if i.kind == "monitor" then doc[Monitor := PrintMonitor(i)]
         else if i.kind == "chaos_schedule" then doc[Chaos := PrintChaos(i)]
         else doc)
  }

  predicate GoodMonitor(i: IntentData) {
    && i.query != "" && Stripped(i.query) && Stripped(i.threshold) && i.interval >= 60 && i.cooldown >= 0
    && Stripped(i.priority) && i.priority in PRIORITIES
  }

  predicate GoodHeader(i: IntentData) {
    && i.name != "" && Stripped(i.name) && Stripped(i.kind) && i.kind in INTENT_TYPES
    && Stripped(i.description) && Stripped(i.device) && Stripped(i.alertname)
  }

  /** The part of an intent that only monitors or only chaos schedules set. */
  function Base(i: IntentData): IntentData {
    i.(query := "", threshold := "", interval := 300, cooldown := 0, priority := "normal", schedule := "", action := "")
  }

  /** Everything the parser can produce: fields of other kinds keep their defaults, numbers are clamped. */
  predicate GoodIntent(i: IntentData) {
    && GoodHeader(i)
    && (if i.kind == "monitor" then
          GoodMonitor(i) && i == Base(i).(query := i.query, threshold := i.threshold, interval := i.interval,
                                          cooldown := i.cooldown, priority := i.priority)
        else if i.kind == "chaos_schedule" then
          Stripped(i.schedule) && Stripped(i.action) && i == Base(i).(schedule := i.schedule, action := i.action)
        else i == Base(i))
  }

  lemma IntentLiteralsAreStripped()
    ensures Stripped("") && Stripped("monitor") && Stripped("normal") && "" !in INTENT_TYPES && "" !in PRIORITIES
    ensures "monitor" != "chaos_schedule"
  {
  }

  lemma ParseMonitorIsGood(v: Yaml, base: IntentData, ofText: string -> Option<int>)
    ensures match ParseMonitor(v, base, ofText)
            case Ok(i) => GoodMonitor(i) && i == base.(query := i.query, threshold := i.threshold, interval := i.interval,
                                                       cooldown := i.cooldown, priority := i.priority)
            case Raised => true
  {
    IntentLiteralsAreStripped();
    var mon := MappingOr(v);
    if mon.Ok? {
      TextOrIsStripped(Lookup(mon.value, Query), "");
      TextOrIsStripped(Lookup(mon.value, Threshold), "");
      TextOrIsStripped(Lookup(mon.value, Priority), "normal");
    }
  }

  lemma ParseChaosIsGood(v: Yaml, base: IntentData)
    ensures match ParseChaos(v, base)
            case Ok(i) => Stripped(i.schedule) && Stripped(i.action) && i == base.(schedule := i.schedule, action := i.action)
            case Raised => true
  {
    IntentLiteralsAreStripped();
    var chaos := MappingOr(v);
    if chaos.Ok? {
      TextOrIsStripped(Lookup(chaos.value, Schedule), "");
      TextOrIsStripped(Lookup(chaos.value, Action), "");
    }
  }

  lemma ParseHeaderIsGood(m: map<Key, Yaml>, tenant: string)
    ensures match ParseHeader(m, tenant) case Ok(i) => GoodHeader(i) && i == Base(i) && i.tenant == tenant case Raised => true
  {
    IntentLiteralsAreStripped();
    TextOrIsStripped(Lookup(m, Name), "");
    TextOrIsStripped(Lookup(m, Type), "monitor");
    TextOrIsStripped(Lookup(m, Description), "");
    TextOrIsStripped(Lookup(m, Device), "");
    TextOrIsStripped(Lookup(m, Alertname), "");
  }

  lemma ParseIntentIsGood(doc: Yaml, tenant: string, ofText: string -> Option<int>)
    ensures match ParseIntent(doc, tenant, ofText) case Ok(i) => GoodIntent(i) && i.tenant == tenant case Raised => true
  {
    if ParseIntent(doc, tenant, ofText).Ok? {
      var m := doc.entries;
      ParseHeaderIsGood(m, tenant);
      var base := ParseHeader(m, tenant).value;
      ParseMonitorIsGood(Lookup(m, Monitor), base, ofText);
      ParseChaosIsGood(Lookup(m, Chaos), base);
    }
  }

  lemma IntentLookups(i: IntentData)
    ensures var m := PrintIntent(i).entries;
            && Lookup(m, Name) == YStr(i.name) && Lookup(m, Type) == YStr(i.kind) && Lookup(m, Description) == YStr(i.description)
            && Lookup(m, Device) == YStr(i.device) && Lookup(m, Alertname) == YStr(i.alertname) && FlagOr(m, Enabled) == i.enabled
            && (i.kind == "monitor" ==> Lookup(m, Monitor) == PrintMonitor(i))
            && (i.kind == "chaos_schedule" ==> Lookup(m, Chaos) == PrintChaos(i))
  {
    IntentLiteralsAreStripped();
  }

  /** A stored row as printing and parsing leave it: blanks become the defaults and numbers are clamped. */
  function Clamped(i: IntentData, base: IntentData): IntentData {
    base.(query := i.query, threshold := i.threshold, interval := if i.interval == 0 then 300 else Max(60, i.interval),
          cooldown := Max(0, i.cooldown), priority := if i.priority == "" then "normal" else i.priority)
  }

  lemma MonitorLookups(i: IntentData)
    ensures var mon := PrintMonitor(i).entries;
            && Lookup(mon, Query) == YStr(i.query) && Lookup(mon, Threshold) == YStr(i.threshold)
            && Lookup(mon, IntervalSeconds) == YInt(if i.interval == 0 then 300 else i.interval)
            && Lookup(mon, CooldownMinutes) == YInt(i.cooldown)
            && Lookup(mon, Priority) == YStr(if i.priority == "" then "normal" else i.priority)
  {
  }

  lemma MonitorParses(mon: map<Key, Yaml>, base: IntentData, ofText: string -> Option<int>, query: string, threshold: string,
                      interval: int, cooldown: int, priority: string)
    requires Query in mon && query != ""
    requires TextOr(Lookup(mon, Query), "") == Ok(query) && TextOr(Lookup(mon, Threshold), "") == Ok(threshold)
    requires IntOr(Lookup(mon, IntervalSeconds), 300, ofText) == Ok(interval)
    requires IntOr(Lookup(mon, CooldownMinutes), 0, ofText) == Ok(cooldown)
    requires ChoiceOr(Lookup(mon, Priority), "normal", PRIORITIES) == Ok(priority)
    ensures ParseMonitor(YMap(mon), base, ofText)
            == Ok(base.(query := query, threshold := threshold, interval := Max(60, interval), cooldown := Max(0, cooldown),
                        priority := priority))
  {
  }

  lemma PriorityPrinted(priority: string)
    requires Stripped(priority) && (priority == "" || priority in PRIORITIES)
    ensures var p := if priority == "" then "normal" else priority;
            ChoiceOr(YStr(p), "normal", PRIORITIES) == Ok(p) && Truthy(YStr(p))
  {
    IntentLiteralsAreStripped();
    assert "normal" in PRIORITIES;
    if priority != "" { ChoiceOrPrinted(priority, "normal", PRIORITIES); }
  }

  /** Any stored row of a monitor with a query is printed with an interval and a priority, and parsed as its clamped form. */
  lemma StoredMonitorRoundTrip(i: IntentData, base: IntentData, ofText: string -> Option<int>)
    requires i.query != "" && Stripped(i.query) && Stripped(i.threshold)
    requires Stripped(i.priority) && (i.priority == "" || i.priority in PRIORITIES)
    ensures Truthy(Lookup(PrintMonitor(i).entries, IntervalSeconds)) && Truthy(Lookup(PrintMonitor(i).entries, Priority))
    ensures ParseMonitor(PrintMonitor(i), base, ofText) == Ok(Clamped(i, base))
  {
    MonitorLookups(i);
    PriorityPrinted(i.priority);
    TextOrPrinted(i.query, "");
    TextOrPrinted(i.threshold, "");
    MonitorParses(PrintMonitor(i).entries, base, ofText, i.query, i.threshold, if i.interval == 0 then 300 else i.interval,
                  i.cooldown, if i.priority == "" then "normal" else i.priority);
  }

  lemma MonitorRoundTrip(i: IntentData, base: IntentData, ofText: string -> Option<int>)
    requires GoodMonitor(i)
    ensures ParseMonitor(PrintMonitor(i), base, ofText)
            == Ok(base.(query := i.query, threshold := i.threshold, interval := i.interval, cooldown := i.cooldown,
                        priority := i.priority))
  {
    IntentLiteralsAreStripped();
    StoredMonitorRoundTrip(i, base, ofText);
  }

  lemma ChaosRoundTrip(i: IntentData, base: IntentData)
    requires Stripped(i.schedule) && Stripped(i.action)
    ensures ParseChaos(PrintChaos(i), base) == Ok(base.(schedule := i.schedule, action := i.action))
  {
    assert Schedule in PrintChaos(i).entries;
  }

  lemma HeaderRoundTrip(i: IntentData)
    requires GoodHeader(i)
    ensures ParseHeader(PrintIntent(i).entries, i.tenant) == Ok(Base(i))
  {
    IntentLiteralsAreStripped();
    IntentLookups(i);
    ChoiceOrPrinted(i.kind, "monitor", INTENT_TYPES);
  }

  lemma PrintThenParseIntent(i: IntentData, ofText: string -> Option<int>)
    requires GoodIntent(i)
    ensures ParseIntent(PrintIntent(i), i.tenant, ofText) == Ok(i)
  {
    HeaderRoundTrip(i);
    IntentLookups(i);
    if i.kind == "monitor" {
      MonitorRoundTrip(i, Base(i), ofText);
    } else if i.kind == "chaos_schedule" {
      ChaosRoundTrip(i, Base(i));
    }
  }

  /** Print then parse is the identity on everything the parser produces, clamps and defaults included. */
  lemma IntentRoundTrip(doc: Yaml, tenant: string, ofText: string -> Option<int>)
    ensures match ParseIntent(doc, tenant, ofText)
            case Ok(i) => ParseIntent(PrintIntent(i), tenant, ofText) == Ok(i) && i.interval >= 60 && i.cooldown >= 0
            case Raised => true
  {
    ParseIntentIsGood(doc, tenant, ofText);
    var r := ParseIntent(doc, tenant, ofText);
    if r.Ok? { PrintThenParseIntent(r.value, ofText); }
  }

  // ---------------------------------------------------------------- which intents are accepted, and what they mean

  predicate NumberFine(v: Yaml, ofText: string -> Option<int>) {
    Blank(v) || v.YInt? || v.YBool? || (v.YStr? && ofText(v.s).Some?)
  }

  function NumberIn(v: Yaml, fallback: int, ofText: string -> Option<int>): int {
    if Blank(v) then fallback
    else if v.YInt? then v.n
    else if v.YBool? then 1
    else if v.YStr? && ofText(v.s).Some? then ofText(v.s).value
    else fallback
  }

  lemma NumberMeans(v: Yaml, fallback: int, ofText: string -> Option<int>)
    ensures IntOr(v, fallback, ofText) == if NumberFine(v, ofText) then Ok(NumberIn(v, fallback, ofText)) else Raised
  {
    BlankIsFalse(v);
  }

  predicate AcceptableHeader(m: map<Key, Yaml>, types: set<string>) {
    && TextFine(Lookup(m, Name)) && TextIn(Lookup(m, Name), "") != ""
    && ChoiceFine(Lookup(m, Type), types)
    && TextFine(Lookup(m, Description)) && TextFine(Lookup(m, Device)) && TextFine(Lookup(m, Alertname))
  }

  /** An intent is a monitor and enabled unless it says otherwise. */
  function MeantHeader(m: map<Key, Yaml>, tenant: string): IntentData {
    IntentData(TextIn(Lookup(m, Name), ""), TextIn(Lookup(m, Type), "monitor"), TextIn(Lookup(m, Description), ""),
               TextIn(Lookup(m, Device), ""), TextIn(Lookup(m, Alertname), ""), Enabled in m ==> !Blank(m[Enabled]),
               tenant, "", "", 300, 0, "normal", "", "")
  }

  lemma HeaderMeans(m: map<Key, Yaml>, tenant: string)
    ensures ParseHeader(m, tenant) == if AcceptableHeader(m, INTENT_TYPES) then Ok(MeantHeader(m, tenant)) else Raised
  {
    assert "monitor" in INTENT_TYPES;
    TextMeans(Lookup(m, Name), "");
    ChoiceMeans(Lookup(m, Type), "monitor", INTENT_TYPES);
    TextMeans(Lookup(m, Description), "");
    TextMeans(Lookup(m, Device), "");
    TextMeans(Lookup(m, Alertname), "");
    if Enabled in m { BlankIsFalse(m[Enabled]); }
  }

  predicate AcceptableMonitor(v: Yaml, priorities: set<string>, ofText: string -> Option<int>) {
    var m := Fields(v);
    && (Blank(v) || v.YMap?)
    && TextFine(Lookup(m, Query)) && TextIn(Lookup(m, Query), "") != "" && TextFine(Lookup(m, Threshold))
    && NumberFine(Lookup(m, IntervalSeconds), ofText) && NumberFine(Lookup(m, CooldownMinutes), ofText)
    && ChoiceFine(Lookup(m, Priority), priorities)
  }

  function MeantMonitor(v: Yaml, base: IntentData, ofText: string -> Option<int>): IntentData {
    var m := Fields(v);
    var interval, cooldown := NumberIn(Lookup(m, IntervalSeconds), 300, ofText), NumberIn(Lookup(m, CooldownMinutes), 0, ofText);
    base.(query := TextIn(Lookup(m, Query), ""), threshold := TextIn(Lookup(m, Threshold), ""),
          interval := if interval < 60 then 60 else interval, cooldown := if cooldown < 0 then 0 else cooldown,
          priority := TextIn(Lookup(m, Priority), "normal"))
  }

  lemma MonitorMeans(v: Yaml, base: IntentData, ofText: string -> Option<int>)
    ensures ParseMonitor(v, base, ofText) ==
            if AcceptableMonitor(v, PRIORITIES, ofText) then Ok(MeantMonitor(v, base, ofText)) else Raised
  {
    var m := Fields(v);
    assert "normal" in PRIORITIES;
    BlankIsFalse(v);
    TextMeans(Lookup(m, Query), "");
    TextMeans(Lookup(m, Threshold), "");
    NumberMeans(Lookup(m, IntervalSeconds), 300, ofText);
    NumberMeans(Lookup(m, CooldownMinutes), 0, ofText);
    ChoiceMeans(Lookup(m, Priority), "normal", PRIORITIES);
  }

  predicate AcceptableChaos(v: Yaml) {
    (Blank(v) || v.YMap?) && TextFine(Lookup(Fields(v), Schedule)) && TextFine(Lookup(Fields(v), Action))
  }

  function MeantChaos(v: Yaml, base: IntentData): IntentData {
    base.(schedule := TextIn(Lookup(Fields(v), Schedule), ""), action := TextIn(Lookup(Fields(v), Action), ""))
  }

  lemma ChaosMeans(v: Yaml, base: IntentData)
    ensures ParseChaos(v, base) == if AcceptableChaos(v) then Ok(MeantChaos(v, base)) else Raised
  {
    BlankIsFalse(v);
    TextMeans(Lookup(Fields(v), Schedule), "");
    TextMeans(Lookup(Fields(v), Action), "");
  }

  /** Which intents are accepted, by kind, and what they mean, defaults and clamps included. */
  lemma IntentMeans(doc: Yaml, tenant: string, ofText: string -> Option<int>)
    ensures var m := Fields(doc);
            var base := MeantHeader(m, tenant);
            ParseIntent(doc, tenant, ofText) ==
            if !doc.YMap? || !AcceptableHeader(m, INTENT_TYPES) then Raised
            else if base.kind == "monitor" then
              if AcceptableMonitor(Lookup(m, Monitor), PRIORITIES, ofText) then Ok(MeantMonitor(Lookup(m, Monitor), base, ofText)) else Raised
            else if base.kind == "chaos_schedule" then
              if AcceptableChaos(Lookup(m, Chaos)) then Ok(MeantChaos(Lookup(m, Chaos), base)) else Raised
            else Ok(base)
  {
    var m := Fields(doc);
    HeaderMeans(m, tenant);
    MonitorMeans(Lookup(m, Monitor), MeantHeader(m, tenant), ofText);
    ChaosMeans(Lookup(m, Chaos), MeantHeader(m, tenant));
  }
}
