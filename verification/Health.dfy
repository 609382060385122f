/** Device and fabric health verdicts over the same evidence as the rung checks. */
module Health {
  import opened Common
  import opened Evidence
  import Rungs

  datatype Severity = Ok | Info | Warning | Unreachable | Critical

  function Rank(s: Severity): nat {
    match s
    case Ok => 0
    case Info => 1
    case Warning => 2
    case Unreachable => 3
    case Critical => 4
  }

  function MaxSeverity(a: Severity, b: Severity): Severity {
    if Rank(a) >= Rank(b) then a else b
  }

  datatype Expected = Expected(isisAdjacencies: Option<nat>, bgpPeers: Option<nat>)
  datatype Device = Device(name: string, role: string, expected: Option<Expected>)

  datatype RuleContext = RuleContext(
    device: Device, isisOk: bool, isis: seq<Record>, bgpOk: bool, bgp: seq<Record>, bgpMeta: Record,
    interfacesOk: bool, interfaces: seq<Record>, srOk: bool, sr: seq<Record>)

  function IntentRecords(e: Evidence, intent: string): (seq<Record>, Record, bool) {
    if intent in e && e[intent].parse.ParseOk? then (e[intent].records, e[intent].meta, true) else ([], map[], false)
  }

  function BuildContext(e: Evidence, device: Device): RuleContext {
    var (isis, _, isisOk) := IntentRecords(e, "isis");
    var (bgp, bgpMeta, bgpOk) := IntentRecords(e, "bgp");
    var (interfaces, _, interfacesOk) := IntentRecords(e, "interfaces");
    var (sr, _, srOk) := IntentRecords(e, "sr");
    RuleContext(device, isisOk, isis, bgpOk, bgp, bgpMeta, interfacesOk, interfaces, srOk, sr)
  }

  // ------------------------------------------------------------------
  // The rules
  // ------------------------------------------------------------------

  datatype RuleName =
    | IsisIsolated | IsisAdjacencyNotUp | BgpSessionDown | BgpProcessAbsent | BgpNoPrefixes
    | InterfaceAdminUpLineDown | SrPolicyDown | IsisAdjacencyCountDrift | BgpPeerCountDrift
    | SuspiciousBaseline | DeviceUnreachable | IntentCollectionFailed | IntentUnparsed

  /** What a rule reports: the intent it read, a severity overriding the rule's own, and
      the record it is about. */
  datatype Fragment = Fragment(intent: Option<string>, severity: Option<Severity>, subject: Value)

  datatype Finding = Finding(rule: RuleName, severity: Severity, intent: Option<string>, subject: Value)

  predicate SessionDown(r: Record) {
    GetOr(r, "session_state", Str("")) != Str("Established")
  }

  predicate NoPrefixes(r: Record) {
    Get(r, "prefixes_received") == Num(0)
  }

  predicate LineDown(r: Record) {
    Get(r, "admin_state") == Str("up") && Get(r, "line_protocol") != Str("up")
  }

  predicate PolicyDown(r: Record) {
    Get(r, "operational_state") != Str("up")
  }

  /** One fragment per offending record, in record order. */
  function Flagged(records: seq<Record>, bad: Record -> bool, intent: string, field: string): (r: seq<Fragment>)
    ensures forall x :: x in records && bad(x) ==> Fragment(Some(intent), None, Get(x, field)) in r
    ensures forall f :: f in r ==>
      exists x :: x in records && bad(x) && f == Fragment(Some(intent), None, Get(x, field))
  {
    if records == [] then []
    else
      var last := records[|records| - 1];
      Flagged(records[..|records| - 1], bad, intent, field)
      + (if bad(last) then [Fragment(Some(intent), None, Get(last, field))] else [])
  }

  function Floor(role: string): nat {
    if role == "core" || role == "edge" || role == "route-reflector" then 2 else 1
  }

  function CountDrift(ctx: RuleContext): seq<Fragment> {
    if !ctx.isisOk || ctx.device.expected.None? || ctx.device.expected.value.isisAdjacencies.None? then []
    else
      var expected := ctx.device.expected.value.isisAdjacencies.value;
      if |ctx.isis| == expected then []
      else if |ctx.isis| > expected then [Fragment(Some("isis"), Some(Info), Null)]
      else [Fragment(Some("isis"), None, Null)]
  }

  function PeerDrift(ctx: RuleContext): seq<Fragment> {
    if !ctx.bgpOk || ctx.device.expected.None? || ctx.device.expected.value.bgpPeers.None? then []
    else if |ctx.bgp| == ctx.device.expected.value.bgpPeers.value then []
    else [Fragment(Some("bgp"), None, Null)]
  }

  function Suspicion(ctx: RuleContext): seq<Fragment> {
    if ctx.device.expected.None? || ctx.device.expected.value.isisAdjacencies.None? then []
    else if ctx.device.expected.value.isisAdjacencies.value >= Floor(ctx.device.role) then []
    else [Fragment(None, None, Null)]
  }

  function Fragments(rule: RuleName, ctx: RuleContext): seq<Fragment> {
    match rule
    case IsisIsolated => if !ctx.isisOk || ctx.isis != [] then [] else [Fragment(Some("isis"), None, Null)]
    case IsisAdjacencyNotUp => if !ctx.isisOk then [] else Flagged(ctx.isis, Rungs.IsisNotUp, "isis", "system_id")
    case BgpSessionDown => if !ctx.bgpOk then [] else Flagged(ctx.bgp, SessionDown, "bgp", "neighbor")
    case BgpProcessAbsent =>
      if !ctx.bgpOk || ctx.device.role == "core" then []
      else if Get(ctx.bgpMeta, "active") == Flag(false) then [Fragment(Some("bgp"), None, Null)]
      else []
    case BgpNoPrefixes => if !ctx.bgpOk then [] else Flagged(ctx.bgp, NoPrefixes, "bgp", "neighbor")
    case InterfaceAdminUpLineDown =>
      if !ctx.interfacesOk then [] else Flagged(ctx.interfaces, LineDown, "interfaces", "interface")
    case SrPolicyDown => if !ctx.srOk then [] else Flagged(ctx.sr, PolicyDown, "sr", "policy")
    case IsisAdjacencyCountDrift => CountDrift(ctx)
    case BgpPeerCountDrift => PeerDrift(ctx)
    case SuspiciousBaseline => Suspicion(ctx)
    case _ => []
  }

  datatype Rule = Rule(name: RuleName, severity: Severity)

  const ALL_RULES: seq<Rule> := [
    Rule(IsisIsolated, Critical), Rule(IsisAdjacencyNotUp, Critical), Rule(BgpSessionDown, Critical),
    Rule(BgpProcessAbsent, Warning), Rule(BgpNoPrefixes, Info), Rule(InterfaceAdminUpLineDown, Warning),
    Rule(SrPolicyDown, Warning), Rule(IsisAdjacencyCountDrift, Warning), Rule(BgpPeerCountDrift, Warning),
    Rule(SuspiciousBaseline, Warning)]

  function AsFinding(rule: Rule, f: Fragment): Finding {
    Finding(rule.name, if f.severity.Some? then f.severity.value else rule.severity, f.intent, f.subject)
  }

  function AsFindings(rule: Rule, fragments: seq<Fragment>): (r: seq<Finding>)
    ensures |r| == |fragments|
    ensures forall i :: 0 <= i < |r| ==> r[i] == AsFinding(rule, fragments[i])
  {
    if fragments == [] then []
    else AsFindings(rule, fragments[..|fragments| - 1]) + [AsFinding(rule, fragments[|fragments| - 1])]
  }

  function Reporter(ctx: RuleContext): RuleName -> seq<Fragment> {
    name => Fragments(name, ctx)
  }

  /** The findings of these rules, in rule order. */
  function RuleFindings(rules: seq<Rule>, report: RuleName -> seq<Fragment>): seq<Finding> {
    if rules == [] then []
    else
      var last := rules[|rules| - 1];
      RuleFindings(rules[..|rules| - 1], report) + AsFindings(last, report(last.name))
  }

  // ------------------------------------------------------------------
  // What could not be assessed
  // ------------------------------------------------------------------

  datatype Uneval = UnsupportedIntent | CollectionFailed | ParseFailure

  /** The collection status decides first, whatever parse status the section carries. */
  function UnevalReason(e: Evidence, intent: string): Option<Uneval> {
    if intent !in e then Some(CollectionFailed)
    else if e[intent].status.Unsupported? then Some(UnsupportedIntent)
    else if e[intent].status.Errored? then Some(CollectionFailed)
    else
      match e[intent].parse
      case ParseOk => None
      case ParseUnavailable => Some(UnsupportedIntent)
      case _ => Some(ParseFailure)
  }

  /** The four intents the rules read, sorted by name. */
  const HEALTH_INTENTS := ["bgp", "interfaces", "isis", "sr"]

  function With(e: Evidence, reason: Uneval, intents: seq<string>): (r: seq<string>)
    ensures forall i :: i in r <==> i in intents && UnevalReason(e, i) == Some(reason)
  {
    if intents == [] then []
    else
      var last := intents[|intents| - 1];
      With(e, reason, intents[..|intents| - 1]) + (if UnevalReason(e, last) == Some(reason) then [last] else [])
  }

  function Unassessed(e: Evidence, intents: seq<string>): (r: seq<string>)
    ensures forall i :: i in r <==>
      i in intents && (UnevalReason(e, i) == Some(CollectionFailed) || UnevalReason(e, i) == Some(ParseFailure))
  {
    if intents == [] then []
    else
      var last := intents[|intents| - 1];
      Unassessed(e, intents[..|intents| - 1])
      + (if UnevalReason(e, last) == Some(CollectionFailed) || UnevalReason(e, last) == Some(ParseFailure)
         then [last] else [])
  }

  predicate NothingRead(e: Evidence) {
    forall i :: i in HEALTH_INTENTS ==> UnevalReason(e, i).Some?
  }

  function AboutIntents(rule: RuleName, intents: seq<string>): (r: seq<Finding>)
    ensures |r| == |intents|
    ensures forall i :: 0 <= i < |r| ==> r[i] == Finding(rule, Warning, Some(intents[i]), Null)
  {
    if intents == [] then []
    else AboutIntents(rule, intents[..|intents| - 1]) + [Finding(rule, Warning, Some(intents[|intents| - 1]), Null)]
  }

  /** Nothing at all could be read: the device is unreachable. Otherwise one finding per
      intent that could not be collected. */
  function UncollectedFindings(failed: seq<string>, nothingRead: bool): seq<Finding> {
    if failed != [] && nothingRead then [Finding(DeviceUnreachable, Unreachable, None, Null)]
    else AboutIntents(IntentCollectionFailed, failed)
  }

  function CollectionFindings(e: Evidence): seq<Finding> {
    UncollectedFindings(With(e, CollectionFailed, HEALTH_INTENTS), NothingRead(e))
  }

  function DeviceFindings(e: Evidence, device: Device): seq<Finding> {
    RuleFindings(ALL_RULES, Reporter(BuildContext(e, device))) + CollectionFindings(e)
    + AboutIntents(IntentUnparsed, With(e, ParseFailure, HEALTH_INTENTS))
  }

  // ------------------------------------------------------------------
  // The device verdict
  // ------------------------------------------------------------------

  function Worst(findings: seq<Finding>): Severity {
    if findings == [] then Ok else MaxSeverity(Worst(findings[..|findings| - 1]), findings[|findings| - 1].severity)
  }

  function Count(findings: seq<Finding>, s: Severity): nat {
    if findings == [] then 0
    else Count(findings[..|findings| - 1], s) + (if findings[|findings| - 1].severity == s then 1 else 0)
  }

  datatype Counts = Counts(critical: nat, unreachable: nat, warning: nat, info: nat)

  function Counted(findings: seq<Finding>): Counts {
    Counts(Count(findings, Critical), Count(findings, Unreachable), Count(findings, Warning), Count(findings, Info))
  }

  datatype DeviceVerdict = DeviceVerdict(
    device: string, role: string, severity: Severity, findings: seq<Finding>, counts: Counts,
    unevaluated: seq<string>, unsupported: seq<string>)

  function DeviceVerdictOf(e: Evidence, device: Device): DeviceVerdict {
    var findings := DeviceFindings(e, device);
    DeviceVerdict(device.name, device.role, Worst(findings), findings, Counted(findings),
                  Unassessed(e, HEALTH_INTENTS), With(e, UnsupportedIntent, HEALTH_INTENTS))
  }

  method CollectRuleFindings(rules: seq<Rule>, report: RuleName -> seq<Fragment>) returns (findings: seq<Finding>)
    ensures findings == RuleFindings(rules, report)
  {
    findings := [];
    for i := 0 to |rules|
      invariant findings == RuleFindings(rules[..i], report)
    {
      assert rules[..i + 1][..i] == rules[..i];
      var raws := report(rules[i].name);
      ghost var before := findings;
      for j := 0 to |raws|
        invariant findings == before + AsFindings(rules[i], raws[..j])
      {
        assert raws[..j + 1][..j] == raws[..j];
        findings := findings + [AsFinding(rules[i], raws[j])];
      }
      assert raws[..|raws|] == raws;
    }
    assert rules[..|rules|] == rules;
  }

  method Summarize(findings: seq<Finding>) returns (severity: Severity, counts: Counts)
    ensures severity == Worst(findings) && counts == Counted(findings)
  {
    severity, counts := Ok, Counts(0, 0, 0, 0);
    for i := 0 to |findings|
      invariant severity == Worst(findings[..i]) && counts == Counted(findings[..i])
    {
      assert findings[..i + 1][..i] == findings[..i];
      severity := MaxSeverity(severity, findings[i].severity);
      match findings[i].severity
      case Critical => counts := counts.(critical := counts.critical + 1);
      case Unreachable => counts := counts.(unreachable := counts.unreachable + 1);
      case Warning => counts := counts.(warning := counts.warning + 1);
      case Info => counts := counts.(info := counts.info + 1);
      case Ok =>
    }
    assert findings[..|findings|] == findings;
  }

  method EvaluateDevice(e: Evidence, device: Device) returns (verdict: DeviceVerdict)
    ensures verdict == DeviceVerdictOf(e, device)
  {
    var findings := CollectRuleFindings(ALL_RULES, Reporter(BuildContext(e, device)));
    findings := findings + CollectionFindings(e) + AboutIntents(IntentUnparsed, With(e, ParseFailure, HEALTH_INTENTS));
    var severity, counts := Summarize(findings);
    verdict := DeviceVerdict(device.name, device.role, severity, findings, counts,
                             Unassessed(e, HEALTH_INTENTS), With(e, UnsupportedIntent, HEALTH_INTENTS));
  }

  // ------------------------------------------------------------------
  // What a device verdict means
  // ------------------------------------------------------------------

  lemma {:induction false} WorstAtLeast(findings: seq<Finding>, f: Finding)
    requires f in findings
    ensures Rank(f.severity) <= Rank(Worst(findings))
  {
    var front, last := findings[..|findings| - 1], findings[|findings| - 1];
    assert findings == front + [last];
    if f in front {
      WorstAtLeast(front, f);
    }
  }

  lemma {:induction false} WorstIsFound(findings: seq<Finding>) returns (f: Finding)
    requires Worst(findings) != Ok
    ensures f in findings && f.severity == Worst(findings)
  {
    var front, last := findings[..|findings| - 1], findings[|findings| - 1];
    if last.severity == Worst(findings) {
      f := last;
    } else {
      f := WorstIsFound(front);
    }
  }

  predicate Holds(findings: seq<Finding>, s: Severity) {
    exists f :: f in findings && f.severity == s
  }

  /** Critical outweighs unreachable, which outweighs a warning, which outweighs a remark. */
  lemma WorstInWords(findings: seq<Finding>)
    ensures Worst(findings) == Critical <==> Holds(findings, Critical)
    ensures Worst(findings) == Unreachable <==> !Holds(findings, Critical) && Holds(findings, Unreachable)
    ensures Worst(findings) == Warning <==>
      !Holds(findings, Critical) && !Holds(findings, Unreachable) && Holds(findings, Warning)
    ensures Worst(findings) == Info <==>
      !Holds(findings, Critical) && !Holds(findings, Unreachable) && !Holds(findings, Warning) && Holds(findings, Info)
  {
    forall f | f in findings ensures Rank(f.severity) <= Rank(Worst(findings)) {
      WorstAtLeast(findings, f);
    }
    if Worst(findings) != Ok {
      var _ := WorstIsFound(findings);
    }
  }

  /** Where the findings of one severity stand. */
  ghost function At(findings: seq<Finding>, s: Severity): set<nat> {
    set i: nat | i < |findings| && findings[i].severity == s
  }

  lemma {:induction false} CountIsHowMany(findings: seq<Finding>, s: Severity)
    ensures Count(findings, s) == |At(findings, s)|
  {
    if findings != [] {
      var n := |findings| - 1;
      CountIsHowMany(findings[..n], s);
      assert At(findings, s) == At(findings[..n], s) + (if findings[n].severity == s then {n} else {});
    }
  }

  lemma CountsAreHowMany(e: Evidence, device: Device)
    ensures var v := DeviceVerdictOf(e, device);
      && v.counts.critical == |At(v.findings, Critical)| && v.counts.unreachable == |At(v.findings, Unreachable)|
      && v.counts.warning == |At(v.findings, Warning)| && v.counts.info == |At(v.findings, Info)|
  {
    var findings := DeviceFindings(e, device);
    CountIsHowMany(findings, Critical);
    CountIsHowMany(findings, Unreachable);
    CountIsHowMany(findings, Warning);
    CountIsHowMany(findings, Info);
  }

  lemma {:induction false} CountsSumToFindings(findings: seq<Finding>)
    requires forall f :: f in findings ==> f.severity != Ok
    ensures var c := Counted(findings); c.critical + c.unreachable + c.warning + c.info == |findings|
  {
    if findings != [] {
      CountsSumToFindings(findings[..|findings| - 1]);
      assert findings[|findings| - 1] in findings;
    }
  }

  lemma AsFindingsAre(rule: Rule, fragments: seq<Fragment>, f: Finding)
    ensures f in AsFindings(rule, fragments) <==> exists r :: r in fragments && f == AsFinding(rule, r)
  {
    if r :| r in fragments && f == AsFinding(rule, r) {
      var k :| 0 <= k < |fragments| && fragments[k] == r;
      assert AsFindings(rule, fragments)[k] == f;
    }
  }

  predicate Reports(rule: Rule, report: RuleName -> seq<Fragment>, f: Finding) {
    exists r :: r in report(rule.name) && f == AsFinding(rule, r)
  }

  /** Which findings the rules produce. */
  lemma {:induction false} RuleFindingsAre(rules: seq<Rule>, report: RuleName -> seq<Fragment>, f: Finding)
    ensures f in RuleFindings(rules, report) <==> exists rule :: rule in rules && Reports(rule, report, f)
  {
    if rules != [] {
      var front, last := rules[..|rules| - 1], rules[|rules| - 1];
      RuleFindingsAre(front, report, f);
      AsFindingsAre(last, report(last.name), f);
      assert rules == front + [last];
      if rule :| rule in rules && Reports(rule, report, f) {
        assert rule in front || rule == last;
      }
      if rule :| rule in front && Reports(rule, report, f) {
        assert rule in rules && Reports(rule, report, f);
      }
      if f in AsFindings(last, report(last.name)) {
        assert last in rules && Reports(last, report, f);
      }
    }
  }

  lemma OneRule(rule: Rule, report: RuleName -> seq<Fragment>)
    ensures RuleFindings([rule], report) == AsFindings(rule, report(rule.name))
  {
    assert [rule][..0] == [];
  }

  /** Rule by rule, in the order of the table. */
  lemma {:induction false} RuleFindingsJoin(rules: seq<Rule>, more: seq<Rule>, report: RuleName -> seq<Fragment>)
    ensures RuleFindings(rules + more, report) == RuleFindings(rules, report) + RuleFindings(more, report)
  {
    if more == [] {
      assert rules + more == rules;
    } else {
      var n := |more| - 1;
      var front := RuleFindings(more[..n], report);
      assert (rules + more)[..|rules + more| - 1] == rules + more[..n];
      RuleFindingsJoin(rules, more[..n], report);
      var last := AsFindings(more[n], report(more[n].name));
      assert RuleFindings(more, report) == front + last;
      assert (rules + more)[|rules + more| - 1] == more[n];
      assert RuleFindings(rules + more, report) == (RuleFindings(rules, report) + front) + last;
    }
  }

  /** What a finding's severity says about the rule behind it. */
  predicate Plausible(f: Finding) {
    && f.severity != Ok
    && (f.severity == Critical ==> f.rule == IsisIsolated || f.rule == IsisAdjacencyNotUp || f.rule == BgpSessionDown)
  }

  lemma RulesArePlausible(rule: Rule, ctx: RuleContext, f: Finding)
    requires rule in ALL_RULES && Reports(rule, Reporter(ctx), f)
    ensures Plausible(f)
  {
    var r :| r in Reporter(ctx)(rule.name) && f == AsFinding(rule, r);
  }

  /** No finding is ever "ok", and the critical ones come from exactly three rules. */
  lemma FindingSeverities(e: Evidence, device: Device, f: Finding)
    requires f in DeviceFindings(e, device)
    ensures Plausible(f)
  {
    var ctx := BuildContext(e, device);
    RuleFindingsAre(ALL_RULES, Reporter(ctx), f);
    if rule :| rule in ALL_RULES && Reports(rule, Reporter(ctx), f) {
      RulesArePlausible(rule, ctx, f);
    }
  }

  lemma RuleNamesAreDistinct(rule: Rule, other: Rule)
    requires rule in ALL_RULES && other in ALL_RULES && rule.name == other.name
    ensures rule == other
  {
  }

  predicate MetaRule(rule: RuleName) {
    rule.DeviceUnreachable? || rule.IntentCollectionFailed? || rule.IntentUnparsed?
  }

  lemma RulesOrMeta(e: Evidence, device: Device, f: Finding)
    requires !MetaRule(f.rule)
    ensures f in DeviceFindings(e, device) <==> f in RuleFindings(ALL_RULES, Reporter(BuildContext(e, device)))
  {
  }

  /** A rule's findings in the verdict are exactly the fragments it reported. */
  lemma FindingsOfRule(e: Evidence, device: Device, rule: Rule, f: Finding)
    requires rule in ALL_RULES && f.rule == rule.name
    ensures f in DeviceFindings(e, device) <==> Reports(rule, Reporter(BuildContext(e, device)), f)
  {
    var report := Reporter(BuildContext(e, device));
    RulesOrMeta(e, device, f);
    RuleFindingsAre(ALL_RULES, report, f);
    if other :| other in ALL_RULES && Reports(other, report, f) {
      RuleNamesAreDistinct(rule, other);
    }
  }

  predicate Fires(e: Evidence, device: Device, rule: RuleName) {
    exists f :: f in DeviceFindings(e, device) && f.rule == rule
  }

  predicate FiresFor(e: Evidence, device: Device, rule: RuleName, subject: Value) {
    exists f :: f in DeviceFindings(e, device) && f.rule == rule && f.subject == subject
  }

  lemma FiresWhenReported(e: Evidence, device: Device, rule: Rule, r: Fragment)
    requires rule in ALL_RULES && r in Fragments(rule.name, BuildContext(e, device))
    ensures AsFinding(rule, r) in DeviceFindings(e, device)
  {
    FindingsOfRule(e, device, rule, AsFinding(rule, r));
    assert r in Reporter(BuildContext(e, device))(rule.name);
  }

  lemma ReportedWhenFires(e: Evidence, device: Device, rule: Rule, f: Finding) returns (r: Fragment)
    requires rule in ALL_RULES && f in DeviceFindings(e, device) && f.rule == rule.name
    ensures r in Fragments(rule.name, BuildContext(e, device)) && f == AsFinding(rule, r)
  {
    FindingsOfRule(e, device, rule, f);
    r :| r in Reporter(BuildContext(e, device))(rule.name) && f == AsFinding(rule, r);
  }

  // ------------------------------------------------------------------
  // Every finding, in the fields themselves
  // ------------------------------------------------------------------

  predicate IsHealthIntent(i: string) {
    i == "isis" || i == "bgp" || i == "interfaces" || i == "sr"
  }

  /** Collected and parsed. */
  ghost predicate Assessed(e: Evidence, i: string) {
    i in e && e[i].status == Collected && e[i].parse == ParseOk
  }

  /** The section is missing, or its commands failed, whatever its parse status. */
  ghost predicate Uncollected(e: Evidence, i: string) {
    i !in e || e[i].status == Errored
  }

  /** Collected, but not parsed by the parser that the platform has. */
  ghost predicate Unparsed(e: Evidence, i: string) {
    i in e && e[i].status == Collected && (e[i].parse == ParseFailed || e[i].parse == NoParseStatus)
  }

  /** The platform has no such command, or no parser for it. */
  ghost predicate NotOffered(e: Evidence, i: string) {
    i in e && (e[i].status == Unsupported || (e[i].status == Collected && e[i].parse == ParseUnavailable))
  }

  lemma WhyUnassessed(e: Evidence, i: string)
    ensures UnevalReason(e, i) == None <==> Assessed(e, i)
    ensures UnevalReason(e, i) == Some(CollectionFailed) <==> Uncollected(e, i)
    ensures UnevalReason(e, i) == Some(ParseFailure) <==> Unparsed(e, i)
    ensures UnevalReason(e, i) == Some(UnsupportedIntent) <==> NotOffered(e, i)
  {
  }

  /** The records of a section that was read. */
  ghost function Rows(e: Evidence, section: string): seq<Record> {
    if Read(e, section) then e[section].records else []
  }

  /** A finding about this record. */
  ghost predicate About(f: Finding, severity: Severity, section: string, r: Record, subject: string) {
    f.severity == severity && f.intent == Some(section) && f.subject == Get(r, subject)
  }

  /** The least number of adjacencies that the role is planned with. */
  ghost predicate BelowPlan(role: string, n: nat) {
    n < 1 || (n < 2 && (role == "core" || role == "edge" || role == "route-reflector"))
  }

  /** What the rules over records report: each offending record of a section, and how gravely. */
  ghost predicate RecordDeserves(e: Evidence, f: Finding) {
    match f.rule
    case IsisAdjacencyNotUp =>
      exists r :: r in Rows(e, "isis") && !Says(r, "state", "Up") && About(f, Critical, "isis", r, "system_id")
    case BgpSessionDown =>
      exists r :: r in Rows(e, "bgp") && !Says(r, "session_state", "Established")
        && About(f, Critical, "bgp", r, "neighbor")
    case BgpNoPrefixes =>
      exists r :: r in Rows(e, "bgp") && "prefixes_received" in r && r["prefixes_received"] == Num(0)
        && About(f, Info, "bgp", r, "neighbor")
    case InterfaceAdminUpLineDown =>
      exists r :: r in Rows(e, "interfaces") && Says(r, "admin_state", "up") && !Says(r, "line_protocol", "up")
        && About(f, Warning, "interfaces", r, "interface")
    case SrPolicyDown =>
      exists r :: r in Rows(e, "sr") && !Says(r, "operational_state", "up") && About(f, Warning, "sr", r, "policy")
    case _ => false
  }

  /** What the rules over the device as a whole report. */
  ghost predicate DeviceDeserves(e: Evidence, device: Device, f: Finding) {
    match f.rule
    case IsisIsolated =>
      Read(e, "isis") && e["isis"].records == [] && f == Finding(f.rule, Critical, Some("isis"), Null)
    case BgpProcessAbsent =>
      && Read(e, "bgp") && device.role != "core" && "active" in e["bgp"].meta && e["bgp"].meta["active"] == Flag(false)
      && f == Finding(f.rule, Warning, Some("bgp"), Null)
    case IsisAdjacencyCountDrift =>
      && Read(e, "isis") && device.expected.Some? && device.expected.value.isisAdjacencies.Some?
      && var n, planned := |e["isis"].records|, device.expected.value.isisAdjacencies.value;
         n != planned && f == Finding(f.rule, if n > planned then Info else Warning, Some("isis"), Null)
    case BgpPeerCountDrift =>
      && Read(e, "bgp") && device.expected.Some? && device.expected.value.bgpPeers.Some?
      && |e["bgp"].records| != device.expected.value.bgpPeers.value && f == Finding(f.rule, Warning, Some("bgp"), Null)
    case SuspiciousBaseline =>
      && device.expected.Some? && device.expected.value.isisAdjacencies.Some?
      && BelowPlan(device.role, device.expected.value.isisAdjacencies.value)
      && f == Finding(f.rule, Warning, None, Null)
    case _ => false
  }

  /** What is reported about intents that could not be assessed. */
  ghost predicate CollectionDeserves(e: Evidence, f: Finding) {
    match f.rule
    case DeviceUnreachable =>
      && (exists i :: IsHealthIntent(i) && Uncollected(e, i)) && (forall i :: IsHealthIntent(i) ==> !Assessed(e, i))
      && f == Finding(f.rule, Unreachable, None, Null)
    case IntentCollectionFailed =>
      && (exists i :: IsHealthIntent(i) && Uncollected(e, i) && f == Finding(f.rule, Warning, Some(i), Null))
      && exists i :: IsHealthIntent(i) && Assessed(e, i)
    case IntentUnparsed =>
      exists i :: IsHealthIntent(i) && Unparsed(e, i) && f == Finding(f.rule, Warning, Some(i), Null)
    case _ => false
  }

  ghost predicate Deserved(e: Evidence, device: Device, f: Finding) {
    RecordDeserves(e, f) || DeviceDeserves(e, device, f) || CollectionDeserves(e, f)
  }

  lemma FlaggedFindings(e: Evidence, device: Device, rule: Rule, section: string, records: seq<Record>,
                        bad: Record -> bool, subject: string, f: Finding)
    requires rule in ALL_RULES && f.rule == rule.name
    requires Fragments(rule.name, BuildContext(e, device)) == Flagged(records, bad, section, subject)
    ensures f in DeviceFindings(e, device) <==>
      exists r :: r in records && bad(r) && About(f, rule.severity, section, r, subject)
  {
    FindingsOfRule(e, device, rule, f);
    if r :| r in records && bad(r) && About(f, rule.severity, section, r, subject) {
      FiresWhenReported(e, device, rule, Fragment(Some(section), None, Get(r, subject)));
    }
    if f in DeviceFindings(e, device) {
      var fr := ReportedWhenFires(e, device, rule, f);
      var r :| r in records && bad(r) && fr == Fragment(Some(section), None, Get(r, subject));
    }
  }

  lemma IsisAdjacencyNotUpFindings(e: Evidence, device: Device, f: Finding)
    requires f.rule.IsisAdjacencyNotUp?
    ensures f in DeviceFindings(e, device) <==> RecordDeserves(e, f)
  {
    FlaggedFindings(e, device, Rule(IsisAdjacencyNotUp, Critical), "isis", Rows(e, "isis"), Rungs.IsisNotUp,
                    "system_id", f);
  }

  lemma BgpSessionDownFindings(e: Evidence, device: Device, f: Finding)
    requires f.rule.BgpSessionDown?
    ensures f in DeviceFindings(e, device) <==> RecordDeserves(e, f)
  {
    FlaggedFindings(e, device, Rule(BgpSessionDown, Critical), "bgp", Rows(e, "bgp"), SessionDown, "neighbor", f);
  }

  lemma BgpNoPrefixesFindings(e: Evidence, device: Device, f: Finding)
    requires f.rule.BgpNoPrefixes?
    ensures f in DeviceFindings(e, device) <==> RecordDeserves(e, f)
  {
    FlaggedFindings(e, device, Rule(BgpNoPrefixes, Info), "bgp", Rows(e, "bgp"), NoPrefixes, "neighbor", f);
  }

  lemma InterfaceAdminUpLineDownFindings(e: Evidence, device: Device, f: Finding)
    requires f.rule.InterfaceAdminUpLineDown?
    ensures f in DeviceFindings(e, device) <==> RecordDeserves(e, f)
  {
    FlaggedFindings(e, device, Rule(InterfaceAdminUpLineDown, Warning), "interfaces", Rows(e, "interfaces"), LineDown,
                    "interface", f);
  }

  lemma SrPolicyDownFindings(e: Evidence, device: Device, f: Finding)
    requires f.rule.SrPolicyDown?
    ensures f in DeviceFindings(e, device) <==> RecordDeserves(e, f)
  {
    FlaggedFindings(e, device, Rule(SrPolicyDown, Warning), "sr", Rows(e, "sr"), PolicyDown, "policy", f);
  }

  lemma ReportsOne(rule: Rule, report: RuleName -> seq<Fragment>, fragments: seq<Fragment>, f: Finding)
    requires report(rule.name) == fragments && |fragments| <= 1
    ensures Reports(rule, report, f) <==> fragments != [] && f == AsFinding(rule, fragments[0])
  {
  }

  lemma OneFragmentFinding(e: Evidence, device: Device, rule: Rule, fragments: seq<Fragment>, f: Finding)
    requires rule in ALL_RULES && f.rule == rule.name && |fragments| <= 1
    requires Fragments(rule.name, BuildContext(e, device)) == fragments
    ensures f in DeviceFindings(e, device) <==> fragments != [] && f == AsFinding(rule, fragments[0])
  {
    FindingsOfRule(e, device, rule, f);
    ReportsOne(rule, Reporter(BuildContext(e, device)), fragments, f);
  }

  lemma IsisIsolatedFindings(e: Evidence, device: Device, f: Finding)
    requires f.rule.IsisIsolated?
    ensures f in DeviceFindings(e, device) <==> DeviceDeserves(e, device, f)
  {
    OneFragmentFinding(e, device, Rule(IsisIsolated, Critical), Fragments(IsisIsolated, BuildContext(e, device)), f);
  }

  lemma BgpProcessAbsentFindings(e: Evidence, device: Device, f: Finding)
    requires f.rule.BgpProcessAbsent?
    ensures f in DeviceFindings(e, device) <==> DeviceDeserves(e, device, f)
  {
    OneFragmentFinding(e, device, Rule(BgpProcessAbsent, Warning),
                       Fragments(BgpProcessAbsent, BuildContext(e, device)), f);
  }

  lemma CountDriftDeserves(e: Evidence, device: Device, f: Finding)
    requires f.rule.IsisAdjacencyCountDrift?
    ensures var fragments := CountDrift(BuildContext(e, device));
      && |fragments| <= 1
      && (DeviceDeserves(e, device, f) <==>
            fragments != [] && f == AsFinding(Rule(IsisAdjacencyCountDrift, Warning), fragments[0]))
  {
  }

  lemma IsisAdjacencyCountDriftFindings(e: Evidence, device: Device, f: Finding)
    requires f.rule.IsisAdjacencyCountDrift?
    ensures f in DeviceFindings(e, device) <==> DeviceDeserves(e, device, f)
  {
    CountDriftDeserves(e, device, f);
    OneFragmentFinding(e, device, Rule(IsisAdjacencyCountDrift, Warning), CountDrift(BuildContext(e, device)), f);
  }

  lemma BgpPeerCountDriftFindings(e: Evidence, device: Device, f: Finding)
    requires f.rule.BgpPeerCountDrift?
    ensures f in DeviceFindings(e, device) <==> DeviceDeserves(e, device, f)
  {
    OneFragmentFinding(e, device, Rule(BgpPeerCountDrift, Warning), PeerDrift(BuildContext(e, device)), f);
  }

  lemma SuspiciousBaselineFindings(e: Evidence, device: Device, f: Finding)
    requires f.rule.SuspiciousBaseline?
    ensures f in DeviceFindings(e, device) <==> DeviceDeserves(e, device, f)
  {
    OneFragmentFinding(e, device, Rule(SuspiciousBaseline, Warning), Suspicion(BuildContext(e, device)), f);
  }

  lemma IntentFindings(rule: RuleName, intents: seq<string>, f: Finding)
    ensures f in AboutIntents(rule, intents) <==>
      exists i :: i in intents && f == Finding(rule, Warning, Some(i), Null)
  {
    if i :| i in intents && f == Finding(rule, Warning, Some(i), Null) {
      var k :| 0 <= k < |intents| && intents[k] == i;
      assert AboutIntents(rule, intents)[k] == f;
    }
  }

  lemma WithTheseReasons(e: Evidence, i: string)
    ensures i in With(e, CollectionFailed, HEALTH_INTENTS) <==> IsHealthIntent(i) && Uncollected(e, i)
    ensures i in With(e, ParseFailure, HEALTH_INTENTS) <==> IsHealthIntent(i) && Unparsed(e, i)
  {
    WhyUnassessed(e, i);
    assert IsHealthIntent(i) <==> i in HEALTH_INTENTS;
  }

  lemma NothingReadExactly(e: Evidence)
    ensures NothingRead(e) <==> forall i :: IsHealthIntent(i) ==> !Assessed(e, i)
  {
    forall i ensures IsHealthIntent(i) && Assessed(e, i) <==> i in HEALTH_INTENTS && UnevalReason(e, i) == None {
      WhyUnassessed(e, i);
      assert IsHealthIntent(i) <==> i in HEALTH_INTENTS;
    }
  }

  lemma UncollectedExactly(e: Evidence, f: Finding)
    ensures f in CollectionFindings(e) <==>
      if NothingRead(e) then
        (exists i :: IsHealthIntent(i) && Uncollected(e, i)) && f == Finding(DeviceUnreachable, Unreachable, None, Null)
      else
        exists i ::
          IsHealthIntent(i) && Uncollected(e, i) && f == Finding(IntentCollectionFailed, Warning, Some(i), Null)
  {
    var failed := With(e, CollectionFailed, HEALTH_INTENTS);
    forall i ensures i in failed <==> IsHealthIntent(i) && Uncollected(e, i) {
      WithTheseReasons(e, i);
    }
    IntentFindings(IntentCollectionFailed, failed, f);
    if failed != [] {
      assert failed[0] in failed;
    }
  }

  lemma UnparsedExactly(e: Evidence, f: Finding)
    ensures f in AboutIntents(IntentUnparsed, With(e, ParseFailure, HEALTH_INTENTS)) <==>
      exists i :: IsHealthIntent(i) && Unparsed(e, i) && f == Finding(IntentUnparsed, Warning, Some(i), Null)
  {
    var unparsed := With(e, ParseFailure, HEALTH_INTENTS);
    forall i ensures i in unparsed <==> IsHealthIntent(i) && Unparsed(e, i) {
      WithTheseReasons(e, i);
    }
    IntentFindings(IntentUnparsed, unparsed, f);
  }

  lemma MetaIsNoRule(rules: seq<Rule>, report: RuleName -> seq<Fragment>, f: Finding)
    requires MetaRule(f.rule) && forall rule :: rule in rules ==> !MetaRule(rule.name)
    ensures f !in RuleFindings(rules, report)
  {
    RuleFindingsAre(rules, report, f);
  }

  lemma NoRuleIsMeta(rule: Rule)
    requires rule in ALL_RULES
    ensures !MetaRule(rule.name)
  {
  }

  lemma InOneOfThree(a: seq<Finding>, b: seq<Finding>, c: seq<Finding>, f: Finding)
    requires f !in a
    ensures f in a + b + c <==> f in b || f in c
  {
  }

  /** No rule of the table makes a finding about collection. */
  lemma MetaFindingsAre(e: Evidence, device: Device, f: Finding)
    requires MetaRule(f.rule)
    ensures f in DeviceFindings(e, device) <==>
      f in CollectionFindings(e) || f in AboutIntents(IntentUnparsed, With(e, ParseFailure, HEALTH_INTENTS))
  {
    var report := Reporter(BuildContext(e, device));
    forall rule | rule in ALL_RULES ensures !MetaRule(rule.name) {
      NoRuleIsMeta(rule);
    }
    MetaIsNoRule(ALL_RULES, report, f);
    InOneOfThree(RuleFindings(ALL_RULES, report), CollectionFindings(e),
                 AboutIntents(IntentUnparsed, With(e, ParseFailure, HEALTH_INTENTS)), f);
  }

  lemma MetaFindings(e: Evidence, device: Device, f: Finding)
    requires MetaRule(f.rule)
    ensures f in DeviceFindings(e, device) <==> CollectionDeserves(e, f)
  {
    MetaFindingsAre(e, device, f);
    NothingReadExactly(e);
    UncollectedExactly(e, f);
    UnparsedExactly(e, f);
  }

  /** A verdict's findings are exactly the deserved ones. */
  lemma FindingsExactly(e: Evidence, device: Device, f: Finding)
    ensures f in DeviceFindings(e, device) <==> Deserved(e, device, f)
  {
    match f.rule
    case IsisAdjacencyNotUp => IsisAdjacencyNotUpFindings(e, device, f);
    case BgpSessionDown => BgpSessionDownFindings(e, device, f);
    case BgpNoPrefixes => BgpNoPrefixesFindings(e, device, f);
    case InterfaceAdminUpLineDown => InterfaceAdminUpLineDownFindings(e, device, f);
    case SrPolicyDown => SrPolicyDownFindings(e, device, f);
    case IsisIsolated => IsisIsolatedFindings(e, device, f);
    case BgpProcessAbsent => BgpProcessAbsentFindings(e, device, f);
    case IsisAdjacencyCountDrift => IsisAdjacencyCountDriftFindings(e, device, f);
    case BgpPeerCountDrift => BgpPeerCountDriftFindings(e, device, f);
    case SuspiciousBaseline => SuspiciousBaselineFindings(e, device, f);
    case _ => MetaFindings(e, device, f);
  }

  function RecordMarks(records: seq<Record>, bad: Record -> bool, intent: string, field: string)
      : seq<Option<Fragment>>
  {
    seq(|records|, k requires 0 <= k < |records| =>
      if bad(records[k]) then Some(Fragment(Some(intent), None, Get(records[k], field))) else None)
  }

  /** One fragment per offending record, in record order. */
  lemma {:induction false} FlaggedInOrder(records: seq<Record>, bad: Record -> bool, intent: string, field: string)
      returns (at: seq<nat>)
    ensures Picks(RecordMarks(records, bad, intent, field), Flagged(records, bad, intent, field), at)
  {
    at := [];
    if records != [] {
      var n := |records| - 1;
      var before := FlaggedInOrder(records[..n], bad, intent, field);
      var mark := if bad(records[n]) then Some(Fragment(Some(intent), None, Get(records[n], field))) else None;
      var marks := RecordMarks(records[..n], bad, intent, field);
      PicksSnoc(marks, Flagged(records[..n], bad, intent, field), before, mark);
      assert marks + [mark] == RecordMarks(records, bad, intent, field);
      assert Flagged(records[..n], bad, intent, field) + [] == Flagged(records[..n], bad, intent, field);
      at := if mark.Some? then before + [n] else before;
    }
  }

  ghost predicate StandAt(listed: seq<string>, intents: seq<string>, at: seq<nat>) {
    && Increasing(at) && |at| == |listed|
    && forall j :: 0 <= j < |at| ==> at[j] < |intents| && listed[j] == intents[at[j]]
  }

  /** Some of these, in their order and each once. */
  ghost predicate Among(listed: seq<string>, intents: seq<string>) {
    exists at: seq<nat> :: StandAt(listed, intents, at)
  }

  lemma AmongFewer(listed: seq<string>, intents: seq<string>)
    requires intents != [] && Among(listed, intents[..|intents| - 1])
    ensures Among(listed, intents)
  {
    var at: seq<nat> :| StandAt(listed, intents[..|intents| - 1], at);
    assert StandAt(listed, intents, at);
  }

  lemma AmongSnoc(listed: seq<string>, intents: seq<string>)
    requires intents != [] && Among(listed, intents[..|intents| - 1])
    ensures Among(listed + [intents[|intents| - 1]], intents)
  {
    var n := |intents| - 1;
    var at: seq<nat> :| StandAt(listed, intents[..n], at);
    var wider: seq<nat> := at + [n];
    assert StandAt(listed + [intents[n]], intents, wider);
  }

  lemma {:induction false} WithIsAmong(e: Evidence, reason: Uneval, intents: seq<string>)
    ensures Among(With(e, reason, intents), intents)
  {
    if intents == [] {
      assert StandAt([], [], []);
    } else {
      var n := |intents| - 1;
      WithIsAmong(e, reason, intents[..n]);
      AmongFewer(With(e, reason, intents[..n]), intents);
      AmongSnoc(With(e, reason, intents[..n]), intents);
      assert With(e, reason, intents[..n]) + [] == With(e, reason, intents[..n]);
    }
  }

  lemma {:induction false} UnassessedIsAmong(e: Evidence, intents: seq<string>)
    ensures Among(Unassessed(e, intents), intents)
  {
    if intents == [] {
      assert StandAt([], [], []);
    } else {
      var n := |intents| - 1;
      UnassessedIsAmong(e, intents[..n]);
      AmongFewer(Unassessed(e, intents[..n]), intents);
      AmongSnoc(Unassessed(e, intents[..n]), intents);
      assert Unassessed(e, intents[..n]) + [] == Unassessed(e, intents[..n]);
    }
  }

  /** What could not be assessed and what the platform does not offer, each in the order of
      the names. */
  lemma VerdictLists(e: Evidence, device: Device, i: string)
    ensures var v := DeviceVerdictOf(e, device);
      && (i in v.unevaluated <==> IsHealthIntent(i) && (Uncollected(e, i) || Unparsed(e, i)))
      && (i in v.unsupported <==> IsHealthIntent(i) && NotOffered(e, i))
      && Among(v.unevaluated, ["bgp", "interfaces", "isis", "sr"])
      && Among(v.unsupported, ["bgp", "interfaces", "isis", "sr"])
  {
    WhyUnassessed(e, i);
    assert IsHealthIntent(i) <==> i in HEALTH_INTENTS;
    WithIsAmong(e, UnsupportedIntent, HEALTH_INTENTS);
    UnassessedIsAmong(e, HEALTH_INTENTS);
  }

  // ------------------------------------------------------------------
  // The two rule sets against each other
  // ------------------------------------------------------------------

  /** The adjacency table was read, and is empty or lists an adjacency that is not Up. */
  ghost predicate IsisDown(e: Evidence) {
    Read(e, "isis") && (e["isis"].records == [] || exists r :: r in e["isis"].records && !Says(r, "state", "Up"))
  }

  /** The session table was read, and lists a session that is not Established. */
  ghost predicate BgpDown(e: Evidence) {
    Read(e, "bgp") && exists r :: r in e["bgp"].records && !Says(r, "session_state", "Established")
  }

  lemma IsisRulesFire(e: Evidence, device: Device) returns (f: Finding)
    requires IsisDown(e)
    ensures f in DeviceFindings(e, device) && f.severity == Critical
    ensures f.rule == IsisIsolated || f.rule == IsisAdjacencyNotUp
  {
    if e["isis"].records == [] {
      var isolated := Fragment(Some("isis"), None, Null);
      FiresWhenReported(e, device, Rule(IsisIsolated, Critical), isolated);
      f := AsFinding(Rule(IsisIsolated, Critical), isolated);
    } else {
      var r :| r in e["isis"].records && !Says(r, "state", "Up");
      var stuck := Fragment(Some("isis"), None, Get(r, "system_id"));
      FiresWhenReported(e, device, Rule(IsisAdjacencyNotUp, Critical), stuck);
      f := AsFinding(Rule(IsisAdjacencyNotUp, Critical), stuck);
    }
  }

  lemma IsisRulesMean(e: Evidence, device: Device, f: Finding)
    requires f in DeviceFindings(e, device) && (f.rule == IsisIsolated || f.rule == IsisAdjacencyNotUp)
    ensures IsisDown(e)
  {
    var _ := ReportedWhenFires(e, device, Rule(f.rule, Critical), f);
  }

  /** `isis_adjacency` with no interface is broken exactly when a health rule reports
      isolation or an adjacency that is not Up. */
  lemma IsisRungAgreesWithHealth(e: Evidence, device: Device)
    ensures Rungs.IsisAdjacency(e, None).status.Broken? <==>
      Fires(e, device, IsisIsolated) || Fires(e, device, IsisAdjacencyNotUp)
  {
    if IsisDown(e) {
      var _ := IsisRulesFire(e, device);
    }
    if f :| f in DeviceFindings(e, device) && (f.rule == IsisIsolated || f.rule == IsisAdjacencyNotUp) {
      IsisRulesMean(e, device, f);
    }
  }

  lemma BgpRuleFires(e: Evidence, device: Device, r: Record)
    requires RequireParsed(e, "bgp").Some? && r in e["bgp"].records && SessionDown(r)
    ensures Finding(BgpSessionDown, Critical, Some("bgp"), Get(r, "neighbor")) in DeviceFindings(e, device)
  {
    FiresWhenReported(e, device, Rule(BgpSessionDown, Critical), Fragment(Some("bgp"), None, Get(r, "neighbor")));
  }

  lemma BgpRuleMeans(e: Evidence, device: Device, f: Finding) returns (r: Record)
    requires f in DeviceFindings(e, device) && f.rule == BgpSessionDown
    ensures RequireParsed(e, "bgp").Some? && r in e["bgp"].records && SessionDown(r) && f.subject == Get(r, "neighbor")
  {
    var fr := ReportedWhenFires(e, device, Rule(BgpSessionDown, Critical), f);
    r :| r in BuildContext(e, device).bgp && SessionDown(r) && fr == Fragment(Some("bgp"), None, Get(r, "neighbor"));
  }

  /** The summary lists the peer first as Established and later as down. */
  ghost predicate ContradictoryRows(e: Evidence, peer: string) {
    && Read(e, "bgp")
    && RowSays(e["bgp"].records, "neighbor", peer, "session_state", "Established")
    && SomeRowDown(e["bgp"].records, peer)
  }

  /** `bgp_session_state` and the health rule agree on a peer exactly when the summary does
      not contradict its own first row about it; the rung never accuses alone. */
  lemma BgpRungAgreesWithHealth(e: Evidence, device: Device, peer: string)
    ensures (Rungs.BgpSessionState(e, peer).status.Broken? <==> FiresFor(e, device, BgpSessionDown, Str(peer)))
      <==> !ContradictoryRows(e, peer)
    ensures Rungs.BgpSessionState(e, peer).status.Broken? ==> FiresFor(e, device, BgpSessionDown, Str(peer))
  {
    Rungs.BgpSessionStateExactly(e, peer);
    BgpRuleFiresExactly(e, device, peer);
    if Read(e, "bgp") {
      RowsAboutAPeer(e["bgp"].records, peer);
    }
  }

  lemma BgpRuleFiresExactly(e: Evidence, device: Device, peer: string)
    ensures FiresFor(e, device, BgpSessionDown, Str(peer)) <==>
      Read(e, "bgp") && SomeRowDown(e["bgp"].records, peer)
  {
    if Read(e, "bgp") && SomeRowDown(e["bgp"].records, peer) {
      var r :| r in e["bgp"].records && Says(r, "neighbor", peer) && !Says(r, "session_state", "Established");
      BgpRuleFires(e, device, r);
    }
    if f :| f in DeviceFindings(e, device) && f.rule == BgpSessionDown && f.subject == Str(peer) {
      var r := BgpRuleMeans(e, device, f);
    }
  }

  ghost predicate SomeRowDown(records: seq<Record>, peer: string) {
    exists r :: r in records && Says(r, "neighbor", peer) && !Says(r, "session_state", "Established")
  }

  /** A first row that is down is a row that is down, and a row that is down has a first one
      before it, or is the first. */
  lemma RowsAboutAPeer(records: seq<Record>, peer: string)
    ensures RowDenies(records, "neighbor", peer, "session_state", "Established") ==> SomeRowDown(records, peer)
    ensures SomeRowDown(records, peer) ==>
      RowSays(records, "neighbor", peer, "session_state", "Established")
      || RowDenies(records, "neighbor", peer, "session_state", "Established")
    ensures !(RowSays(records, "neighbor", peer, "session_state", "Established")
              && RowDenies(records, "neighbor", peer, "session_state", "Established"))
  {
    WhatTheRowSays(records, "neighbor", peer, "session_state", "Established");
  }

  predicate UniqueNeighbors(e: Evidence) {
    RequireParsed(e, "bgp").Some? ==> forall i, j ::
      0 <= i < j < |e["bgp"].records| ==> Get(e["bgp"].records[i], "neighbor") != Get(e["bgp"].records[j], "neighbor")
  }

  /** With one row per neighbor the rung and the rule agree on every peer. */
  lemma UniqueNeighborsAgree(e: Evidence, device: Device, peer: string)
    requires UniqueNeighbors(e)
    ensures Rungs.BgpSessionState(e, peer).status.Broken? <==> FiresFor(e, device, BgpSessionDown, Str(peer))
  {
    BgpRungAgreesWithHealth(e, device, peer);
  }

  function PeerRow(peer: string, state: string): Record {
    map["neighbor" := Str(peer), "session_state" := Str(state)]
  }

  /** A peer listed as Established and again as Idle: the rung calls it healthy, the rule
      reports it down. */
  function TwoRows(peer: string): Evidence {
    map["bgp" := Section(Collected, ParseOk, map[], [PeerRow(peer, "Established"), PeerRow(peer, "Idle")])]
  }

  lemma TwoRowsContradict(peer: string)
    ensures Rungs.BgpSessionState(TwoRows(peer), peer).status.Healthy?
    ensures ContradictoryRows(TwoRows(peer), peer)
  {
    var up, down := PeerRow(peer, "Established"), PeerRow(peer, "Idle");
    assert [up, down][0] == up && down in [up, down];
    assert FirstSaying([up, down], "neighbor", peer, 0);
  }

  lemma TwoRowsDisagree(device: Device, peer: string)
    ensures Rungs.BgpSessionState(TwoRows(peer), peer).status.Healthy?
    ensures FiresFor(TwoRows(peer), device, BgpSessionDown, Str(peer))
  {
    TwoRowsContradict(peer);
    BgpRungAgreesWithHealth(TwoRows(peer), device, peer);
  }

  // ------------------------------------------------------------------
  // Severity
  // ------------------------------------------------------------------

  lemma IsisDownIsCritical(e: Evidence, device: Device)
    requires IsisDown(e)
    ensures DeviceVerdictOf(e, device).severity == Critical
  {
    var f := IsisRulesFire(e, device);
    WorstAtLeast(DeviceFindings(e, device), f);
  }

  lemma BgpDownIsCritical(e: Evidence, device: Device)
    requires BgpDown(e)
    ensures DeviceVerdictOf(e, device).severity == Critical
  {
    var r :| r in e["bgp"].records && !Says(r, "session_state", "Established");
    BgpRuleFires(e, device, r);
    WorstAtLeast(DeviceFindings(e, device), Finding(BgpSessionDown, Critical, Some("bgp"), Get(r, "neighbor")));
  }

  lemma CriticalMeansRoutingDown(e: Evidence, device: Device)
    requires DeviceVerdictOf(e, device).severity == Critical
    ensures IsisDown(e) || BgpDown(e)
  {
    var f := WorstIsFound(DeviceFindings(e, device));
    FindingSeverities(e, device, f);
    if f.rule == BgpSessionDown {
      var _ := BgpRuleMeans(e, device, f);
    } else {
      IsisRulesMean(e, device, f);
    }
  }

  /** Severity is critical exactly when IS-IS is broken or some BGP session is down;
      nothing else escalates to it and neither is ever outvoted. */
  lemma CriticalExactlyWhenRoutingIsDown(e: Evidence, device: Device)
    ensures DeviceVerdictOf(e, device).severity == Critical <==>
      || (Read(e, "isis") && e["isis"].records == [])
      || (Read(e, "isis") && exists r :: r in e["isis"].records && !Says(r, "state", "Up"))
      || (Read(e, "bgp") && exists r :: r in e["bgp"].records && !Says(r, "session_state", "Established"))
  {
    if IsisDown(e) {
      IsisDownIsCritical(e, device);
    } else if BgpDown(e) {
      BgpDownIsCritical(e, device);
    }
    if DeviceVerdictOf(e, device).severity == Critical {
      CriticalMeansRoutingDown(e, device);
    }
  }

  /** A broken rung is always a critical device. */
  lemma BrokenRungMeansCritical(e: Evidence, device: Device, peer: string)
    requires Rungs.IsisAdjacency(e, None).status.Broken? || Rungs.BgpSessionState(e, peer).status.Broken?
    ensures DeviceVerdictOf(e, device).severity == Critical
  {
    CriticalExactlyWhenRoutingIsDown(e, device);
  }

  lemma FindingsCountUp(e: Evidence, device: Device)
    ensures var v := DeviceVerdictOf(e, device);
      v.counts.critical + v.counts.unreachable + v.counts.warning + v.counts.info == |v.findings|
  {
    forall f | f in DeviceFindings(e, device) ensures f.severity != Ok {
      FindingSeverities(e, device, f);
    }
    CountsSumToFindings(DeviceFindings(e, device));
  }

  lemma UnparsedIsReported(e: Evidence, device: Device, intent: string) returns (f: Finding)
    requires intent in With(e, ParseFailure, HEALTH_INTENTS)
    ensures f in DeviceFindings(e, device) && f.severity == Warning
  {
    var unparsed := With(e, ParseFailure, HEALTH_INTENTS);
    var k :| 0 <= k < |unparsed| && unparsed[k] == intent;
    f := AboutIntents(IntentUnparsed, unparsed)[k];
  }

  lemma SomeUncollected(failed: seq<string>, nothingRead: bool) returns (f: Finding)
    requires failed != []
    ensures f in UncollectedFindings(failed, nothingRead) && Rank(f.severity) >= Rank(Warning)
  {
    f := UncollectedFindings(failed, nothingRead)[0];
  }

  lemma UnassessedIsReported(e: Evidence, device: Device, intent: string)
    requires intent in Unassessed(e, HEALTH_INTENTS)
    ensures Rank(DeviceVerdictOf(e, device).severity) >= Rank(Warning)
  {
    if intent in With(e, ParseFailure, HEALTH_INTENTS) {
      var f := UnparsedIsReported(e, device, intent);
      WorstAtLeast(DeviceFindings(e, device), f);
    } else {
      assert intent in With(e, CollectionFailed, HEALTH_INTENTS);
      var f := SomeUncollected(With(e, CollectionFailed, HEALTH_INTENTS), NothingRead(e));
      assert f in DeviceFindings(e, device);
      WorstAtLeast(DeviceFindings(e, device), f);
    }
  }

  /** Silence is never health: below "warning" every health intent was read in full, or the
      platform has no such command. */
  lemma QuietMeansAssessed(e: Evidence, device: Device)
    requires DeviceVerdictOf(e, device).severity == Ok || DeviceVerdictOf(e, device).severity == Info
    ensures DeviceVerdictOf(e, device).unevaluated == []
    ensures forall i :: IsHealthIntent(i) ==> Assessed(e, i) || NotOffered(e, i)
  {
    var unassessed := Unassessed(e, HEALTH_INTENTS);
    if unassessed != [] {
      UnassessedIsReported(e, device, unassessed[0]);
      assert false;
    }
    forall i | IsHealthIntent(i) ensures Assessed(e, i) || NotOffered(e, i) {
      NotUnassessed(e, i);
    }
  }

  lemma NotUnassessed(e: Evidence, i: string)
    requires IsHealthIntent(i) && Unassessed(e, HEALTH_INTENTS) == []
    ensures Assessed(e, i) || NotOffered(e, i)
  {
    WhyUnassessed(e, i);
    assert i in HEALTH_INTENTS && i !in Unassessed(e, HEALTH_INTENTS);
  }

  lemma LineDownWarns(e: Evidence, device: Device, port: Record)
    requires port in Rungs.Records(e, "interfaces")
    requires Says(port, "admin_state", "up") && !Says(port, "line_protocol", "up")
    ensures Rank(DeviceVerdictOf(e, device).severity) >= Rank(Warning)
  {
    FiresWhenReported(e, device, Rule(InterfaceAdminUpLineDown, Warning),
                      Fragment(Some("interfaces"), None, Get(port, "interface")));
    WorstAtLeast(DeviceFindings(e, device),
                 Finding(InterfaceAdminUpLineDown, Warning, Some("interfaces"), Get(port, "interface")));
  }

  lemma QuietRecords(e: Evidence, device: Device)
    requires DeviceVerdictOf(e, device).severity == Ok || DeviceVerdictOf(e, device).severity == Info
    ensures forall r :: r in Rungs.Records(e, "isis") ==> Says(r, "state", "Up")
    ensures forall r :: r in Rungs.Records(e, "interfaces") ==>
      Says(r, "admin_state", "up") ==> Says(r, "line_protocol", "up")
  {
    forall r | r in Rungs.Records(e, "isis") ensures Says(r, "state", "Up") {
      if !Says(r, "state", "Up") {
        IsisDownIsCritical(e, device);
      }
    }
    forall r | r in Rungs.Records(e, "interfaces") && Says(r, "admin_state", "up")
      ensures Says(r, "line_protocol", "up")
    {
      if !Says(r, "line_protocol", "up") {
        LineDownWarns(e, device, r);
      }
    }
  }

  /** What a broken adjacency can still be on a quiet device: one the adjacency table never
      listed, betrayed by a cabled neighbor or by a port taken down on purpose. */
  lemma QuietDeviceBlindSpot(canon: string -> string, e: Evidence, device: Device, interface: string)
    requires DeviceVerdictOf(e, device).severity == Ok || DeviceVerdictOf(e, device).severity == Info
    requires Rungs.IsisNeighborUp(canon, e, interface).status.Broken?
    ensures Rungs.NeverListed(canon, e, interface)
    ensures Rungs.Cabled(canon, e, interface) || Rungs.TakenDown(canon, e, interface)
  {
    QuietRecords(e, device);
    Rungs.BrokenBecause(canon, e, interface);
  }
}
