/** The rung checks: one verdict about one object, from one device's evidence. */
module Rungs {
  import opened Common
  import opened Evidence

  datatype Verdict = Healthy | Broken | Unevaluated

  datatype Citation = Citation(section: string, subject: Option<string>)

  datatype CheckResult = CheckResult(status: Verdict, subject: Option<string>, cites: seq<Citation>)

  const UP := Str("up")

  predicate Conclusive(r: CheckResult) {
    !r.status.Unevaluated?
  }

  function Undecided(subject: Option<string>): CheckResult {
    CheckResult(Unevaluated, subject, [])
  }

  /** A verdict about `interface` citing these sections for it. */
  function About(status: Verdict, interface: string, sections: seq<string>): CheckResult {
    CheckResult(status, Some(interface), CiteAll(sections, Some(interface)))
  }

  function CiteAll(sections: seq<string>, subject: Option<string>): (r: seq<Citation>)
    ensures |r| == |sections|
    ensures forall c :: c in r ==> c.section in sections && c.subject == subject
  {
    if sections == [] then [] else [Citation(sections[0], subject)] + CiteAll(sections[1..], subject)
  }

  // ------------------------------------------------------------------
  // The checks
  // ------------------------------------------------------------------

  function BgpSessionState(e: Evidence, peer: string): CheckResult {
    match RequireParsed(e, "bgp")
    case None => Undecided(Some(peer))
    case Some(bgp) =>
      match FirstWith(bgp.records, "neighbor", Str(peer))
      case None => Undecided(Some(peer))
      case Some(r) =>
        if GetOr(r, "session_state", Str("")) == Str("Established") then About(Healthy, peer, ["bgp"])
        else About(Broken, peer, ["bgp"])
  }

  predicate IsisNotUp(r: Record) {
    Get(r, "state") != Str("Up")
  }

  function IsisAdjacency(e: Evidence, interface: Option<string>): CheckResult {
    match RequireParsed(e, "isis")
    case None => Undecided(interface)
    case Some(isis) =>
      match interface
      case None =>
        var cites := [Citation("isis", None)];
        if isis.records == [] || exists r :: r in isis.records && IsisNotUp(r) then CheckResult(Broken, None, cites)
        else CheckResult(Healthy, None, cites)
      case Some(name) =>
        match FirstWith(isis.records, "interface", Str(name))
        case None => Undecided(interface)
        case Some(r) => About(if IsisNotUp(r) then Broken else Healthy, name, ["isis"])
  }

  predicate InterfaceNotUp(r: Record) {
    Get(r, "admin_state") != UP || Get(r, "line_protocol") != UP
  }

  function IsisNeighborUp(canon: string -> string, e: Evidence, interface: string): CheckResult {
    var isis := RequireParsed(e, "isis");
    if isis.None? then Undecided(Some(interface))
    else
      var adjacency := FirstOn(canon, isis.value.records, "interface", interface);
      if adjacency.Some? then About(if IsisNotUp(adjacency.value) then Broken else Healthy, interface, ["isis"])
      else
        var lldp := RequireParsed(e, "lldp");
        if lldp.None? then Undecided(Some(interface))
        else if FirstOn(canon, lldp.value.records, "local_interface", interface).Some? then
          About(Broken, interface, ["isis", "lldp"])
        else
          var interfaces := RequireParsed(e, "interfaces");
          if interfaces.None? then Undecided(Some(interface))
          else
            var port := FirstOn(canon, interfaces.value.records, "interface", interface);
            if port.Some? && InterfaceNotUp(port.value) then About(Broken, interface, ["isis", "interfaces"])
            else Undecided(Some(interface))
  }

  /** The session record discovered over this interface. */
  predicate DiscoveredOn(canon: string -> string, r: Record, interface: string) {
    Get(r, "discovery_interfaces").Names?
    && exists name :: name in Get(r, "discovery_interfaces").names && SameInterface(canon, name, interface)
  }

  function FirstSession(canon: string -> string, records: seq<Record>, interface: string): (r: Option<Record>)
    ensures r.None? <==> forall x :: x in records ==> !DiscoveredOn(canon, x, interface)
    ensures r.Some? ==> r.value in records && DiscoveredOn(canon, r.value, interface)
  {
    if records == [] then None
    else if DiscoveredOn(canon, records[0], interface) then Some(records[0])
    else FirstSession(canon, records[1..], interface)
  }

  function LdpSessionUp(canon: string -> string, e: Evidence, interface: string): CheckResult {
    var ldp := RequireParsed(e, "ldp");
    if ldp.None? then Undecided(Some(interface))
    else
      var session := FirstSession(canon, ldp.value.records, interface);
      if session.Some? then
        About(if Get(session.value, "state") == Str("Oper") then Healthy else Broken, interface, ["ldp"])
      else
        var discovery := RequireParsed(e, "ldp_discovery");
        if discovery.None? then Undecided(Some(interface))
        else if FirstOn(canon, discovery.value.records, "interface", interface).Some? then
          About(Broken, interface, ["ldp", "ldp_discovery"])
        else
          var interfaces := RequireParsed(e, "interfaces");
          if interfaces.None? then Undecided(Some(interface))
          else
            var port := FirstOn(canon, interfaces.value.records, "interface", interface);
            if port.Some? && InterfaceNotUp(port.value) then About(Broken, interface, ["ldp", "interfaces"])
            else LdpNotSpoken(canon, e, interface)
  }

  /** The device declares LDP on the interface. */
  predicate Mentioned(canon: string -> string, records: seq<Record>, interface: string) {
    exists r :: r in records && On(canon, r, "interface", interface)
  }

  /** LDP should be there, by this declaration: everything below was read and silent. */
  function Missing(interface: string, declared: seq<string>): CheckResult {
    CheckResult(Broken, Some(interface),
      CiteAll(["ldp", "ldp_discovery", "interfaces"], Some(interface)) + CiteAll(declared, None))
  }

  /** The last two tiers: the port is up and LDP silent, so was LDP meant to be there? */
  function LdpNotSpoken(canon: string -> string, e: Evidence, interface: string): CheckResult {
    var config := RequireParsed(e, "config_ldp");
    if config.None? then Undecided(Some(interface))
    else if Mentioned(canon, config.value.records, interface) then
      Missing(interface, ["config_ldp"])
    else
      var intent := RequireParsed(e, "ldp_intent");
      if intent.None? then Undecided(Some(interface))
      else if Mentioned(canon, intent.value.records, interface) then
        Missing(interface, ["config_ldp", "ldp_intent"])
      else Undecided(Some(interface))
  }

  // ------------------------------------------------------------------
  // Corroboration as a chain of tiers
  // ------------------------------------------------------------------

  /** A source of evidence in a chain: whether it could be read and, if so, whether it
      settles the question. */
  datatype Tier = Tier(section: string, read: bool, says: Option<CheckResult>)

  /** One tier's part in the chain: silence passes the question on, and a tier that cannot
      be read ends it. */
  function Step(t: Tier, undecided: CheckResult, next: CheckResult): CheckResult {
    if !t.read then undecided else if t.says.Some? then t.says.value else next
  }

  /** What the tiers from the `k`-th on come to. */
  function Corroborate(tiers: seq<Tier>, k: nat, undecided: CheckResult): CheckResult
    requires k <= |tiers|
    decreases |tiers| - k
  {
    if k == |tiers| then undecided else Step(tiers[k], undecided, Corroborate(tiers, k + 1, undecided))
  }

  function AsTier(e: Evidence, section: string, says: Option<CheckResult>): Tier {
    Tier(section, RequireParsed(e, section).Some?, says)
  }

  function Records(e: Evidence, section: string): seq<Record> {
    if RequireParsed(e, section).Some? then e[section].records else []
  }

  /** A verdict when the records mention the interface at all. */
  function IfMentioned(canon: string -> string, records: seq<Record>, field: string, interface: string,
                       verdict: CheckResult): Option<CheckResult> {
    if exists r :: r in records && On(canon, r, field, interface) then Some(verdict) else None
  }

  function IfDeclared(canon: string -> string, records: seq<Record>, interface: string,
                      verdict: CheckResult): Option<CheckResult> {
    if Mentioned(canon, records, interface) then Some(verdict) else None
  }

  function PortSays(canon: string -> string, records: seq<Record>, interface: string,
                    first: string): Option<CheckResult> {
    var port := FirstOn(canon, records, "interface", interface);
    if port.Some? && InterfaceNotUp(port.value) then Some(About(Broken, interface, [first, "interfaces"])) else None
  }

  function AdjacencySays(canon: string -> string, records: seq<Record>, interface: string): Option<CheckResult> {
    var adjacency := FirstOn(canon, records, "interface", interface);
    if adjacency.None? then None
    else Some(About(if IsisNotUp(adjacency.value) then Broken else Healthy, interface, ["isis"]))
  }

  function SessionSays(canon: string -> string, records: seq<Record>, interface: string): Option<CheckResult> {
    var session := FirstSession(canon, records, interface);
    if session.None? then None
    else Some(About(if Get(session.value, "state") == Str("Oper") then Healthy else Broken, interface, ["ldp"]))
  }

  function IsisTiers(canon: string -> string, e: Evidence, interface: string): seq<Tier> {
    [AsTier(e, "isis", AdjacencySays(canon, Records(e, "isis"), interface)),
     AsTier(e, "lldp",
         IfMentioned(canon, Records(e, "lldp"), "local_interface", interface,
                     About(Broken, interface, ["isis", "lldp"]))),
     AsTier(e, "interfaces", PortSays(canon, Records(e, "interfaces"), interface, "isis"))]
  }

  function LdpTiers(canon: string -> string, e: Evidence, interface: string): seq<Tier> {
    [AsTier(e, "ldp", SessionSays(canon, Records(e, "ldp"), interface)),
     AsTier(e, "ldp_discovery",
       IfMentioned(canon, Records(e, "ldp_discovery"), "interface", interface,
                   About(Broken, interface, ["ldp", "ldp_discovery"]))),
     AsTier(e, "interfaces", PortSays(canon, Records(e, "interfaces"), interface, "ldp")),
     AsTier(e, "config_ldp",
       IfDeclared(canon, Records(e, "config_ldp"), interface, Missing(interface, ["config_ldp"]))),
     AsTier(e, "ldp_intent",
       IfDeclared(canon, Records(e, "ldp_intent"), interface, Missing(interface, ["config_ldp", "ldp_intent"])))]
  }

  lemma ThreeSteps(t: seq<Tier>, u: CheckResult)
    requires |t| == 3
    ensures Corroborate(t, 0, u) == Step(t[0], u, Step(t[1], u, Step(t[2], u, u)))
  {
    assert Corroborate(t, 2, u) == Step(t[2], u, u);
    assert Corroborate(t, 1, u) == Step(t[1], u, Corroborate(t, 2, u));
  }

  lemma FiveSteps(t: seq<Tier>, u: CheckResult)
    requires |t| == 5
    ensures Corroborate(t, 0, u) == Step(t[0], u, Step(t[1], u, Step(t[2], u, Step(t[3], u, Step(t[4], u, u)))))
  {
    assert Corroborate(t, 4, u) == Step(t[4], u, u);
    assert Corroborate(t, 3, u) == Step(t[3], u, Corroborate(t, 4, u));
    assert Corroborate(t, 2, u) == Step(t[2], u, Corroborate(t, 3, u));
    assert Corroborate(t, 1, u) == Step(t[1], u, Corroborate(t, 2, u));
  }

  /** The written-out checks are these chains. */
  lemma IsisIsACorroboration(canon: string -> string, e: Evidence, interface: string)
    ensures IsisNeighborUp(canon, e, interface) ==
      Corroborate(IsisTiers(canon, e, interface), 0, Undecided(Some(interface)))
  {
    ThreeSteps(IsisTiers(canon, e, interface), Undecided(Some(interface)));
  }

  lemma NotSpokenIsSteps(canon: string -> string, e: Evidence, interface: string)
    ensures var tiers, u := LdpTiers(canon, e, interface), Undecided(Some(interface));
      LdpNotSpoken(canon, e, interface) == Step(tiers[3], u, Step(tiers[4], u, u))
  {
  }

  lemma LdpIsSteps(canon: string -> string, e: Evidence, interface: string)
    ensures var tiers, u := LdpTiers(canon, e, interface), Undecided(Some(interface));
      LdpSessionUp(canon, e, interface) ==
        Step(tiers[0], u, Step(tiers[1], u, Step(tiers[2], u, LdpNotSpoken(canon, e, interface))))
  {
  }

  lemma LdpIsACorroboration(canon: string -> string, e: Evidence, interface: string)
    ensures LdpSessionUp(canon, e, interface) ==
      Corroborate(LdpTiers(canon, e, interface), 0, Undecided(Some(interface)))
  {
    LdpIsSteps(canon, e, interface);
    NotSpokenIsSteps(canon, e, interface);
    FiveSteps(LdpTiers(canon, e, interface), Undecided(Some(interface)));
  }

  // ------------------------------------------------------------------
  // Losing evidence never flips a verdict
  // ------------------------------------------------------------------

  predicate Weakens(left: CheckResult, full: CheckResult) {
    left == full || left.status.Unevaluated?
  }

  /** `left` is the chain `full` with some of its tiers no longer readable. */
  predicate Loses(left: seq<Tier>, full: seq<Tier>) {
    |left| == |full| && forall k :: 0 <= k < |left| && left[k].read ==> left[k] == full[k]
  }

  lemma {:induction false} LosingTiersWeakens(left: seq<Tier>, full: seq<Tier>, k: nat, undecided: CheckResult)
    requires undecided.status.Unevaluated? && Loses(left, full) && k <= |left|
    ensures Weakens(Corroborate(left, k, undecided), Corroborate(full, k, undecided))
    decreases |left| - k
  {
    if k < |left| {
      LosingTiersWeakens(left, full, k + 1, undecided);
    }
  }

  /** A verdict reached at tier `n` survives exactly while the tiers up to `n` are read:
      losing a silent one is enough to lose it. */
  lemma {:induction false} SurvivesWhileItsTiersAreRead(left: seq<Tier>, full: seq<Tier>, k: nat, n: nat,
                                                        undecided: CheckResult)
    requires undecided.status.Unevaluated? && Loses(left, full) && k <= n < |full|
    requires full[n].read && full[n].says.Some? && Conclusive(full[n].says.value)
    requires forall i :: k <= i < n ==> full[i].read && full[i].says.None?
    ensures Corroborate(full, k, undecided) == full[n].says.value
    ensures Corroborate(left, k, undecided) == full[n].says.value <==> forall i :: k <= i <= n ==> left[i].read
    decreases n - k
  {
    if k < n {
      SurvivesWhileItsTiersAreRead(left, full, k + 1, n, undecided);
    }
  }

  lemma IsisTiersDegrade(canon: string -> string, e: Evidence, full: Evidence, interface: string, k: nat)
    requires Degraded(e, full) && k < 3 && IsisTiers(canon, e, interface)[k].read
    ensures IsisTiers(canon, e, interface)[k] == IsisTiers(canon, full, interface)[k]
  {
    var section := IsisTiers(canon, e, interface)[k].section;
    assert RequireParsed(e, section) == RequireParsed(full, section);
    assert Records(e, section) == Records(full, section);
  }

  lemma LdpTiersDegrade(canon: string -> string, e: Evidence, full: Evidence, interface: string, k: nat)
    requires Degraded(e, full) && k < 5 && LdpTiers(canon, e, interface)[k].read
    ensures LdpTiers(canon, e, interface)[k] == LdpTiers(canon, full, interface)[k]
  {
    var section := LdpTiers(canon, e, interface)[k].section;
    assert RequireParsed(e, section) == RequireParsed(full, section);
    assert Records(e, section) == Records(full, section);
  }

  lemma IsisNeighborUpDegrades(canon: string -> string, e: Evidence, full: Evidence, interface: string)
    requires Degraded(e, full)
    ensures Weakens(IsisNeighborUp(canon, e, interface), IsisNeighborUp(canon, full, interface))
  {
    IsisIsACorroboration(canon, e, interface);
    IsisIsACorroboration(canon, full, interface);
    IsisTiersLose(canon, e, full, interface);
    LosingTiersWeakens(IsisTiers(canon, e, interface), IsisTiers(canon, full, interface), 0,
                       Undecided(Some(interface)));
  }

  lemma LdpSessionUpDegrades(canon: string -> string, e: Evidence, full: Evidence, interface: string)
    requires Degraded(e, full)
    ensures Weakens(LdpSessionUp(canon, e, interface), LdpSessionUp(canon, full, interface))
  {
    LdpIsACorroboration(canon, e, interface);
    LdpIsACorroboration(canon, full, interface);
    LdpTiersLose(canon, e, full, interface);
    LosingTiersWeakens(LdpTiers(canon, e, interface), LdpTiers(canon, full, interface), 0, Undecided(Some(interface)));
  }

  lemma BgpAndIsisDegrade(e: Evidence, full: Evidence, peer: string, interface: Option<string>)
    requires Degraded(e, full)
    ensures Weakens(BgpSessionState(e, peer), BgpSessionState(full, peer))
    ensures Weakens(IsisAdjacency(e, interface), IsisAdjacency(full, interface))
  {
    assert RequireParsed(e, "bgp").Some? ==> RequireParsed(e, "bgp") == RequireParsed(full, "bgp");
    assert RequireParsed(e, "isis").Some? ==> RequireParsed(e, "isis") == RequireParsed(full, "isis");
  }

  // ------------------------------------------------------------------
  // What a conclusive verdict cites
  // ------------------------------------------------------------------

  predicate CitesOnlyParsed(e: Evidence, r: CheckResult) {
    (Conclusive(r) ==> r.cites != [])
    && forall c :: c in r.cites ==> RequireParsed(e, c.section).Some?
  }

  lemma IsisNeighborUpCitesParsed(canon: string -> string, e: Evidence, interface: string)
    ensures CitesOnlyParsed(e, IsisNeighborUp(canon, e, interface))
  {
  }

  lemma BgpAndIsisCiteParsed(e: Evidence, peer: string, interface: Option<string>)
    ensures CitesOnlyParsed(e, BgpSessionState(e, peer))
    ensures CitesOnlyParsed(e, IsisAdjacency(e, interface))
  {
  }

  /** The citations are not all a verdict rests on: a silent, uncited LLDP table can be
      what lets the interface's own state settle the question. */
  lemma SilentSectionsAreNotCited(canon: string -> string, interface: string)
    requires interface != ""
    ensures var port := map["interface" := Str(interface), "admin_state" := Str("down"),
                            "line_protocol" := Str("down")];
      var silent := Section(Collected, ParseOk, map[], []);
      var e := map["isis" := silent, "lldp" := silent, "interfaces" := Section(Collected, ParseOk, map[], [port])];
      && IsisNeighborUp(canon, e, interface) == About(Broken, interface, ["isis", "interfaces"])
      && IsisNeighborUp(canon, e - {"lldp"}, interface).status.Unevaluated?
  {
  }

  /** Whichever spelling of an interface is asked about, the answer is the same. */
  lemma AnySpellingIsTheSameQuestion(canon: string -> string, e: Evidence, i: string, j: string)
    requires canon(i) == canon(j)
    ensures IsisNeighborUp(canon, e, i).status == IsisNeighborUp(canon, e, j).status
  {
    FirstOnAnySpelling(canon, Records(e, "isis"), "interface", i, j);
    FirstOnAnySpelling(canon, Records(e, "lldp"), "local_interface", i, j);
    FirstOnAnySpelling(canon, Records(e, "interfaces"), "interface", i, j);
  }

  lemma DiscoveredOnAnySpelling(canon: string -> string, r: Record, i: string, j: string)
    requires canon(i) == canon(j)
    ensures DiscoveredOn(canon, r, i) ==> DiscoveredOn(canon, r, j)
  {
    if DiscoveredOn(canon, r, i) {
      var name :| name in Get(r, "discovery_interfaces").names && SameInterface(canon, name, i);
      assert SameInterface(canon, name, j);
    }
  }

  lemma {:induction false} FirstSessionAnySpelling(canon: string -> string, records: seq<Record>, i: string, j: string)
    requires canon(i) == canon(j)
    ensures FirstSession(canon, records, i) == FirstSession(canon, records, j)
  {
    if records != [] {
      DiscoveredOnAnySpelling(canon, records[0], i, j);
      DiscoveredOnAnySpelling(canon, records[0], j, i);
      FirstSessionAnySpelling(canon, records[1..], i, j);
    }
  }

  lemma MentionedAnySpelling(canon: string -> string, records: seq<Record>, i: string, j: string)
    requires canon(i) == canon(j)
    ensures Mentioned(canon, records, i) ==> Mentioned(canon, records, j)
  {
    if Mentioned(canon, records, i) {
      var r :| r in records && On(canon, r, "interface", i);
      assert On(canon, r, "interface", j);
    }
  }

  lemma NotSpokenAnySpelling(canon: string -> string, e: Evidence, i: string, j: string)
    requires canon(i) == canon(j)
    ensures LdpNotSpoken(canon, e, i).status == LdpNotSpoken(canon, e, j).status
  {
    MentionedAnySpelling(canon, Records(e, "config_ldp"), i, j);
    MentionedAnySpelling(canon, Records(e, "config_ldp"), j, i);
    MentionedAnySpelling(canon, Records(e, "ldp_intent"), i, j);
    MentionedAnySpelling(canon, Records(e, "ldp_intent"), j, i);
  }

  lemma AnySpellingIsTheSameLdpQuestion(canon: string -> string, e: Evidence, i: string, j: string)
    requires canon(i) == canon(j)
    ensures LdpSessionUp(canon, e, i).status == LdpSessionUp(canon, e, j).status
  {
    FirstSessionAnySpelling(canon, Records(e, "ldp"), i, j);
    FirstOnAnySpelling(canon, Records(e, "ldp_discovery"), "interface", i, j);
    FirstOnAnySpelling(canon, Records(e, "interfaces"), "interface", i, j);
    NotSpokenAnySpelling(canon, e, i, j);
  }

  // ------------------------------------------------------------------
  // What a conclusive verdict rests on
  // ------------------------------------------------------------------

  const ISIS_SECTIONS := ["isis", "lldp", "interfaces"]
  const LDP_SECTIONS := ["ldp", "ldp_discovery", "interfaces", "config_ldp", "ldp_intent"]

  predicate AllParsed(e: Evidence, sections: seq<string>) {
    forall i :: 0 <= i < |sections| ==> RequireParsed(e, sections[i]).Some?
  }

  predicate CitedParsed(e: Evidence, r: CheckResult) {
    forall i :: 0 <= i < |r.cites| ==> RequireParsed(e, r.cites[i].section).Some?
  }

  /** The first tier from `k` on that does not pass the question on. */
  function Decider(tiers: seq<Tier>, k: nat): (n: nat)
    requires k <= |tiers|
    ensures k <= n <= |tiers|
    ensures forall i :: k <= i < n ==> tiers[i].read && tiers[i].says.None?
    ensures n < |tiers| ==> !tiers[n].read || tiers[n].says.Some?
    decreases |tiers| - k
  {
    if k == |tiers| || !tiers[k].read || tiers[k].says.Some? then k else Decider(tiers, k + 1)
  }

  lemma {:induction false} ConclusiveAtItsDecider(tiers: seq<Tier>, k: nat, undecided: CheckResult)
    requires k <= |tiers| && undecided.status.Unevaluated? && Conclusive(Corroborate(tiers, k, undecided))
    ensures var n := Decider(tiers, k);
      n < |tiers| && tiers[n].read && tiers[n].says == Some(Corroborate(tiers, k, undecided))
    decreases |tiers| - k
  {
    if k < |tiers| && tiers[k].read && tiers[k].says.None? {
      ConclusiveAtItsDecider(tiers, k + 1, undecided);
    }
  }

  /** The tiers read these sections, in this order. */
  predicate ReadsSections(tiers: seq<Tier>, e: Evidence, sections: seq<string>) {
    |tiers| == |sections| && forall k :: 0 <= k < |tiers| ==> tiers[k].read == RequireParsed(e, sections[k]).Some?
  }

  lemma ChainSurvivesExactly(left: seq<Tier>, full: seq<Tier>, e: Evidence, sections: seq<string>,
                             undecided: CheckResult)
    requires undecided.status.Unevaluated? && Loses(left, full) && ReadsSections(left, e, sections)
    requires Conclusive(Corroborate(full, 0, undecided))
    ensures var n := Decider(full, 0);
      n < |sections|
        && (Corroborate(left, 0, undecided) == Corroborate(full, 0, undecided) <==> AllParsed(e, sections[..n + 1]))
  {
    var n := Decider(full, 0);
    ConclusiveAtItsDecider(full, 0, undecided);
    SurvivesWhileItsTiersAreRead(left, full, 0, n, undecided);
    assert (forall i :: 0 <= i <= n ==> left[i].read) <==> AllParsed(e, sections[..n + 1]) by {
      forall i | 0 <= i <= n ensures left[i].read == RequireParsed(e, sections[..n + 1][i]).Some? {
        assert sections[..n + 1][i] == sections[i];
      }
    }
  }

  lemma IsisTiersRead(canon: string -> string, e: Evidence, interface: string)
    ensures ReadsSections(IsisTiers(canon, e, interface), e, ISIS_SECTIONS)
  {
  }

  lemma FiveRead(e: Evidence, a: Tier, b: Tier, c: Tier, d: Tier, f: Tier)
    requires a.read == RequireParsed(e, "ldp").Some? && b.read == RequireParsed(e, "ldp_discovery").Some?
    requires c.read == RequireParsed(e, "interfaces").Some? && d.read == RequireParsed(e, "config_ldp").Some?
    requires f.read == RequireParsed(e, "ldp_intent").Some?
    ensures ReadsSections([a, b, c, d, f], e, LDP_SECTIONS)
  {
  }

  lemma LdpTiersRead(canon: string -> string, e: Evidence, interface: string)
    ensures ReadsSections(LdpTiers(canon, e, interface), e, LDP_SECTIONS)
  {
    var t := LdpTiers(canon, e, interface);
    FiveRead(e, t[0], t[1], t[2], t[3], t[4]);
    assert t == [t[0], t[1], t[2], t[3], t[4]];
  }

  lemma IsisTiersLose(canon: string -> string, e: Evidence, full: Evidence, interface: string)
    requires Degraded(e, full)
    ensures Loses(IsisTiers(canon, e, interface), IsisTiers(canon, full, interface))
  {
    var left, whole := IsisTiers(canon, e, interface), IsisTiers(canon, full, interface);
    forall k | 0 <= k < |left| && left[k].read ensures left[k] == whole[k] {
      IsisTiersDegrade(canon, e, full, interface, k);
    }
  }

  lemma LdpTiersLose(canon: string -> string, e: Evidence, full: Evidence, interface: string)
    requires Degraded(e, full)
    ensures Loses(LdpTiers(canon, e, interface), LdpTiers(canon, full, interface))
  {
    var left, whole := LdpTiers(canon, e, interface), LdpTiers(canon, full, interface);
    forall k | 0 <= k < |left| && left[k].read ensures left[k] == whole[k] {
      LdpTiersDegrade(canon, e, full, interface, k);
    }
  }

  /** A conclusive verdict survives the loss of evidence exactly while its own section and
      those of all earlier tiers are still parsed. */
  lemma IsisVerdictSurvivesExactly(canon: string -> string, e: Evidence, full: Evidence, interface: string)
    requires Degraded(e, full) && Conclusive(IsisNeighborUp(canon, full, interface))
    ensures var n := Decider(IsisTiers(canon, full, interface), 0);
      n < 3 && (IsisNeighborUp(canon, e, interface) == IsisNeighborUp(canon, full, interface)
                <==> AllParsed(e, ISIS_SECTIONS[..n + 1]))
  {
    IsisIsACorroboration(canon, e, interface);
    IsisIsACorroboration(canon, full, interface);
    IsisTiersLose(canon, e, full, interface);
    IsisTiersRead(canon, e, interface);
    ChainSurvivesExactly(IsisTiers(canon, e, interface), IsisTiers(canon, full, interface), e, ISIS_SECTIONS,
                         Undecided(Some(interface)));
  }

  lemma LdpVerdictSurvivesExactly(canon: string -> string, e: Evidence, full: Evidence, interface: string)
    requires Degraded(e, full) && Conclusive(LdpSessionUp(canon, full, interface))
    ensures var n := Decider(LdpTiers(canon, full, interface), 0);
      n < 5 && (LdpSessionUp(canon, e, interface) == LdpSessionUp(canon, full, interface)
                <==> AllParsed(e, LDP_SECTIONS[..n + 1]))
  {
    LdpIsACorroboration(canon, e, interface);
    LdpIsACorroboration(canon, full, interface);
    LdpTiersLose(canon, e, full, interface);
    LdpTiersRead(canon, e, interface);
    ChainSurvivesExactly(LdpTiers(canon, e, interface), LdpTiers(canon, full, interface), e, LDP_SECTIONS,
                         Undecided(Some(interface)));
  }

  predicate CitesThese(r: CheckResult, sections: seq<string>) {
    |r.cites| == |sections| && forall i :: 0 <= i < |sections| ==> r.cites[i].section == sections[i]
  }

  lemma {:induction false} CiteAllAt(sections: seq<string>, subject: Option<string>, i: nat)
    requires i < |sections|
    ensures CiteAll(sections, subject)[i].section == sections[i]
  {
    if i > 0 {
      CiteAllAt(sections[1..], subject, i - 1);
    }
  }

  lemma AboutCitesThese(status: Verdict, interface: string, sections: seq<string>)
    ensures CitesThese(About(status, interface, sections), sections)
  {
    forall i | 0 <= i < |sections| ensures CiteAll(sections, Some(interface))[i].section == sections[i] {
      CiteAllAt(sections, Some(interface), i);
    }
  }

  lemma MissingCitesThese(interface: string, declared: seq<string>)
    ensures CitesThese(Missing(interface, declared), ["ldp", "ldp_discovery", "interfaces"] + declared)
  {
    var seen, r := ["ldp", "ldp_discovery", "interfaces"], Missing(interface, declared);
    forall i | 0 <= i < |seen + declared| ensures r.cites[i].section == (seen + declared)[i] {
      if i < |seen| {
        CiteAllAt(seen, Some(interface), i);
      } else {
        CiteAllAt(declared, None, i - |seen|);
      }
    }
  }

  lemma IsisCitations(canon: string -> string, e: Evidence, interface: string, n: nat)
    requires n < 3 && IsisTiers(canon, e, interface)[n].says.Some?
    ensures CitesThese(IsisTiers(canon, e, interface)[n].says.value,
                       if n == 2 then ["isis", "interfaces"] else ISIS_SECTIONS[..n + 1])
  {
    assert ISIS_SECTIONS[..1] == ["isis"] && ISIS_SECTIONS[..2] == ["isis", "lldp"];
    AboutCitesThese(Healthy, interface, ["isis"]);
    AboutCitesThese(Broken, interface, ["isis"]);
    AboutCitesThese(Broken, interface, ["isis", "lldp"]);
    AboutCitesThese(Broken, interface, ["isis", "interfaces"]);
  }

  /** What each tier of the LDP chain can say. */
  predicate LdpSays(interface: string, n: nat, r: CheckResult) {
    match n
    case 0 => r == About(Healthy, interface, ["ldp"]) || r == About(Broken, interface, ["ldp"])
    case 1 => r == About(Broken, interface, ["ldp", "ldp_discovery"])
    case 2 => r == About(Broken, interface, ["ldp", "interfaces"])
    case 3 => r == Missing(interface, ["config_ldp"])
    case _ => r == Missing(interface, ["config_ldp", "ldp_intent"])
  }

  lemma LdpTierSays(canon: string -> string, e: Evidence, interface: string, n: nat)
    requires n < 5 && LdpTiers(canon, e, interface)[n].says.Some?
    ensures LdpSays(interface, n, LdpTiers(canon, e, interface)[n].says.value)
  {
  }

  function LdpCited(n: nat): seq<string>
    requires n < 5
  {
    if n == 2 then ["ldp", "interfaces"] else LDP_SECTIONS[..n + 1]
  }

  lemma LdpSaidCites(interface: string, n: nat, r: CheckResult)
    requires n < 5 && LdpSays(interface, n, r)
    ensures CitesThese(r, LdpCited(n))
  {
    match n
    case 0 =>
      assert LDP_SECTIONS[..1] == ["ldp"];
      AboutCitesThese(r.status, interface, ["ldp"]);
    case 1 =>
      assert LDP_SECTIONS[..2] == ["ldp", "ldp_discovery"];
      AboutCitesThese(Broken, interface, ["ldp", "ldp_discovery"]);
    case 2 =>
      AboutCitesThese(Broken, interface, ["ldp", "interfaces"]);
    case 3 =>
      assert LDP_SECTIONS[..4] == ["ldp", "ldp_discovery", "interfaces"] + ["config_ldp"];
      MissingCitesThese(interface, ["config_ldp"]);
    case _ =>
      assert LDP_SECTIONS[..5] == ["ldp", "ldp_discovery", "interfaces"] + ["config_ldp", "ldp_intent"];
      MissingCitesThese(interface, ["config_ldp", "ldp_intent"]);
  }

  lemma LdpChainCites(tiers: seq<Tier>, interface: string, r: CheckResult)
    requires |tiers| == 5 && r == Corroborate(tiers, 0, Undecided(Some(interface))) && Conclusive(r)
    requires forall n :: 0 <= n < 5 && tiers[n].says.Some? ==> LdpSays(interface, n, tiers[n].says.value)
    ensures var n := Decider(tiers, 0);
      n < 5 && CitesThese(r, LdpCited(n)) && forall k :: 0 <= k <= n ==> tiers[k].read
  {
    ConclusiveAtItsDecider(tiers, 0, Undecided(Some(interface)));
    LdpSaidCites(interface, Decider(tiers, 0), r);
  }

  /** A conclusive LDP verdict cites the sections of its tiers. */
  lemma LdpVerdictCites(canon: string -> string, e: Evidence, interface: string)
    requires Conclusive(LdpSessionUp(canon, e, interface))
    ensures var tiers, n := LdpTiers(canon, e, interface), Decider(LdpTiers(canon, e, interface), 0);
      n < 5 && CitesThese(LdpSessionUp(canon, e, interface), LdpCited(n)) && forall k :: 0 <= k <= n ==> tiers[k].read
  {
    var tiers := LdpTiers(canon, e, interface);
    LdpIsACorroboration(canon, e, interface);
    forall n | 0 <= n < |tiers| && tiers[n].says.Some? ensures LdpSays(interface, n, tiers[n].says.value) {
      LdpTierSays(canon, e, interface, n);
    }
    LdpChainCites(tiers, interface, LdpSessionUp(canon, e, interface));
  }

  lemma ReadTiersAreParsed(e: Evidence, tiers: seq<Tier>, n: nat)
    requires n < 5 && ReadsSections(tiers, e, LDP_SECTIONS) && forall k :: 0 <= k <= n ==> tiers[k].read
    ensures AllParsed(e, LdpCited(n))
  {
    forall i | 0 <= i < |LdpCited(n)| ensures RequireParsed(e, LdpCited(n)[i]).Some? {
      var k := if n == 2 && i == 1 then 2 else i;
      assert LdpCited(n)[i] == LDP_SECTIONS[k] && tiers[k].read;
    }
  }

  lemma UndecidedCitesNothing(canon: string -> string, e: Evidence, interface: string)
    ensures LdpSessionUp(canon, e, interface).status.Unevaluated? ==> LdpSessionUp(canon, e, interface).cites == []
  {
  }

  lemma LdpSessionUpCitesParsed(canon: string -> string, e: Evidence, interface: string)
    ensures CitesOnlyParsed(e, LdpSessionUp(canon, e, interface))
  {
    UndecidedCitesNothing(canon, e, interface);
    if Conclusive(LdpSessionUp(canon, e, interface)) {
      var n := Decider(LdpTiers(canon, e, interface), 0);
      LdpVerdictCites(canon, e, interface);
      LdpTiersRead(canon, e, interface);
      ReadTiersAreParsed(e, LdpTiers(canon, e, interface), n);
      CitedIsAllParsed(e, LdpSessionUp(canon, e, interface), LdpCited(n));
    }
  }

  /** The verdict survives any loss exactly when what it cites survives. */
  ghost predicate IsisRestsOnItsCitations(canon: string -> string, full: Evidence, interface: string) {
    forall e :: Degraded(e, full) ==>
      (IsisNeighborUp(canon, e, interface) == IsisNeighborUp(canon, full, interface)
       <==> CitedParsed(e, IsisNeighborUp(canon, full, interface)))
  }

  ghost predicate LdpRestsOnItsCitations(canon: string -> string, full: Evidence, interface: string) {
    forall e :: Degraded(e, full) ==>
      (LdpSessionUp(canon, e, interface) == LdpSessionUp(canon, full, interface)
       <==> CitedParsed(e, LdpSessionUp(canon, full, interface)))
  }

  lemma CitedIsAllParsed(e: Evidence, r: CheckResult, sections: seq<string>)
    requires CitesThese(r, sections)
    ensures CitedParsed(e, r) <==> AllParsed(e, sections)
  {
  }

  lemma WithoutSection(full: Evidence, section: string)
    ensures Degraded(full - {section}, full) && RequireParsed(full - {section}, section).None?
    ensures forall s :: s != section ==> RequireParsed(full - {section}, s) == RequireParsed(full, s)
  {
  }

  /** A port's verdict is lost with a silent section it does not cite. */
  lemma IsisPortVerdictRestsOnMore(canon: string -> string, full: Evidence, interface: string)
    requires Conclusive(IsisNeighborUp(canon, full, interface)) && Decider(IsisTiers(canon, full, interface), 0) == 2
    ensures !IsisRestsOnItsCitations(canon, full, interface)
  {
    var e, verdict := full - {"lldp"}, IsisNeighborUp(canon, full, interface);
    IsisIsACorroboration(canon, full, interface);
    ConclusiveAtItsDecider(IsisTiers(canon, full, interface), 0, Undecided(Some(interface)));
    IsisCitations(canon, full, interface, 2);
    WithoutSection(full, "lldp");
    IsisVerdictSurvivesExactly(canon, e, full, interface);
    assert RequireParsed(e, ISIS_SECTIONS[..3][1]).None?;
    assert IsisTiers(canon, full, interface)[0].read && IsisTiers(canon, full, interface)[2].read;
    CitedIsAllParsed(e, verdict, ["isis", "interfaces"]);
    assert Degraded(e, full) && CitedParsed(e, verdict);
  }

  lemma LdpWithoutDiscovery(canon: string -> string, full: Evidence, interface: string)
    requires Conclusive(LdpSessionUp(canon, full, interface)) && Decider(LdpTiers(canon, full, interface), 0) == 2
    ensures CitedParsed(full - {"ldp_discovery"}, LdpSessionUp(canon, full, interface))
  {
    var e := full - {"ldp_discovery"};
    LdpVerdictCites(canon, full, interface);
    LdpTiersRead(canon, full, interface);
    WithoutSection(full, "ldp_discovery");
    assert RequireParsed(full, LDP_SECTIONS[0]).Some? && RequireParsed(full, LDP_SECTIONS[2]).Some?;
    CitedIsAllParsed(e, LdpSessionUp(canon, full, interface), ["ldp", "interfaces"]);
  }

  lemma LdpPortVerdictRestsOnMore(canon: string -> string, full: Evidence, interface: string)
    requires Conclusive(LdpSessionUp(canon, full, interface)) && Decider(LdpTiers(canon, full, interface), 0) == 2
    ensures !LdpRestsOnItsCitations(canon, full, interface)
  {
    var e := full - {"ldp_discovery"};
    LdpWithoutDiscovery(canon, full, interface);
    WithoutSection(full, "ldp_discovery");
    LdpVerdictSurvivesExactly(canon, e, full, interface);
    assert RequireParsed(e, LDP_SECTIONS[..3][1]).None?;
    assert Degraded(e, full);
  }

  /** The citations are all a verdict rests on, except exactly when the port's own state
      decided it: then the silence of the section before it counts and is not cited. */
  lemma IsisCitationsExactly(canon: string -> string, full: Evidence, interface: string)
    requires Conclusive(IsisNeighborUp(canon, full, interface))
    ensures IsisRestsOnItsCitations(canon, full, interface) <==> Decider(IsisTiers(canon, full, interface), 0) != 2
  {
    var n, verdict := Decider(IsisTiers(canon, full, interface), 0), IsisNeighborUp(canon, full, interface);
    if n == 2 {
      IsisPortVerdictRestsOnMore(canon, full, interface);
    } else {
      IsisIsACorroboration(canon, full, interface);
      ConclusiveAtItsDecider(IsisTiers(canon, full, interface), 0, Undecided(Some(interface)));
      IsisCitations(canon, full, interface, n);
      forall e | Degraded(e, full)
        ensures IsisNeighborUp(canon, e, interface) == verdict <==> CitedParsed(e, verdict)
      {
        IsisVerdictSurvivesExactly(canon, e, full, interface);
        CitedIsAllParsed(e, verdict, ISIS_SECTIONS[..n + 1]);
      }
    }
  }

  lemma LdpCitationsExactly(canon: string -> string, full: Evidence, interface: string)
    requires Conclusive(LdpSessionUp(canon, full, interface))
    ensures LdpRestsOnItsCitations(canon, full, interface) <==> Decider(LdpTiers(canon, full, interface), 0) != 2
  {
    var n, verdict := Decider(LdpTiers(canon, full, interface), 0), LdpSessionUp(canon, full, interface);
    if n == 2 {
      LdpPortVerdictRestsOnMore(canon, full, interface);
    } else {
      LdpVerdictCites(canon, full, interface);
      forall e | Degraded(e, full)
        ensures LdpSessionUp(canon, e, interface) == verdict <==> CitedParsed(e, verdict)
      {
        LdpVerdictSurvivesExactly(canon, e, full, interface);
        CitedIsAllParsed(e, verdict, LDP_SECTIONS[..n + 1]);
      }
    }
  }

  // ------------------------------------------------------------------
  // The verdicts in the fields themselves
  // ------------------------------------------------------------------

  /** Fabric-wide: an empty table or one adjacency that is not Up. */
  lemma IsisAdjacencyExactly(e: Evidence)
    ensures var r := IsisAdjacency(e, None);
      && (r.status.Unevaluated? <==> !Read(e, "isis"))
      && (r.status.Broken? <==>
            Read(e, "isis")
            && (e["isis"].records == [] || exists x :: x in e["isis"].records && !Says(x, "state", "Up")))
  {
  }

  /** On one interface, compared as it stands: what its first adjacency says. */
  lemma IsisAdjacencyOnExactly(e: Evidence, interface: string)
    ensures var r := IsisAdjacency(e, Some(interface));
      && r.subject == Some(interface)
      && (r.status.Healthy? <==>
            Read(e, "isis") && RowSays(e["isis"].records, "interface", interface, "state", "Up"))
      && (r.status.Broken? <==>
            Read(e, "isis") && RowDenies(e["isis"].records, "interface", interface, "state", "Up"))
  {
    WhatTheRowSays(Records(e, "isis"), "interface", interface, "state", "Up");
  }

  lemma BgpSessionStateExactly(e: Evidence, peer: string)
    ensures var r := BgpSessionState(e, peer);
      && r.subject == Some(peer)
      && (r.status.Healthy? <==>
            Read(e, "bgp") && RowSays(e["bgp"].records, "neighbor", peer, "session_state", "Established"))
      && (r.status.Broken? <==>
            Read(e, "bgp") && RowDenies(e["bgp"].records, "neighbor", peer, "session_state", "Established"))
  {
    WhatTheRowSays(Records(e, "bgp"), "neighbor", peer, "session_state", "Established");
  }

  /** The port was read, and its first record has it down in either way. */
  ghost predicate PortDown(canon: string -> string, e: Evidence, interface: string) {
    && Read(e, "interfaces")
    && (|| FirstDenies(canon, e["interfaces"].records, interface, "admin_state", "up")
        || FirstDenies(canon, e["interfaces"].records, interface, "line_protocol", "up"))
  }

  lemma PortDownExactly(canon: string -> string, e: Evidence, interface: string)
    ensures PortDown(canon, e, interface) <==>
      Read(e, "interfaces") && PortSays(canon, Records(e, "interfaces"), interface, "").Some?
  {
    WhatTheFirstSays(canon, Records(e, "interfaces"), interface, "admin_state", "up");
    WhatTheFirstSays(canon, Records(e, "interfaces"), interface, "line_protocol", "up");
  }

  lemma SpelledIsFound(canon: string -> string, records: seq<Record>, field: string, interface: string)
    ensures SpelledIn(canon, records, field, interface) <==> FirstOn(canon, records, field, interface).Some?
    ensures SpelledIn(canon, records, field, interface) <==>
      exists r :: r in records && On(canon, r, field, interface)
  {
    var k := FirstOnIsFirst(canon, records, field, interface);
  }

  /** Healthy only by an adjacency that says Up. Broken by one that does not, or, with none
      on the interface, by a cabled neighbor, or, with none seen either, by the port. */
  lemma IsisNeighborUpExactly(canon: string -> string, e: Evidence, interface: string)
    ensures var r := IsisNeighborUp(canon, e, interface);
      && r.subject == Some(interface)
      && (r.status.Healthy? <==> Read(e, "isis") && FirstSays(canon, e["isis"].records, interface, "state", "Up"))
      && (r.status.Broken? <==>
            Read(e, "isis")
            && (|| FirstDenies(canon, e["isis"].records, interface, "state", "Up")
                || (!SpelledIn(canon, e["isis"].records, "interface", interface)
                    && Read(e, "lldp")
                    && (|| SpelledIn(canon, e["lldp"].records, "local_interface", interface)
                        || PortDown(canon, e, interface)))))
  {
    WhatTheFirstSays(canon, Records(e, "isis"), interface, "state", "Up");
    SpelledIsFound(canon, Records(e, "lldp"), "local_interface", interface);
    PortDownExactly(canon, e, interface);
  }

  /** The session was discovered over the interface, in whatever spelling. */
  ghost predicate Carries(canon: string -> string, r: Record, interface: string) {
    && "discovery_interfaces" in r && r["discovery_interfaces"].Names?
    && exists name :: name in r["discovery_interfaces"].names && name != "" && canon(name) == canon(interface)
  }

  ghost predicate FirstSessionAt(canon: string -> string, records: seq<Record>, interface: string, k: nat) {
    k < |records| && Carries(canon, records[k], interface)
    && forall j :: 0 <= j < k ==> !Carries(canon, records[j], interface)
  }

  ghost predicate NoSession(canon: string -> string, records: seq<Record>, interface: string) {
    forall r :: r in records ==> !Carries(canon, r, interface)
  }

  /** The first session over the interface says Oper, or something else. */
  ghost predicate SessionUp(canon: string -> string, records: seq<Record>, interface: string) {
    exists k: nat :: FirstSessionAt(canon, records, interface, k) && Says(records[k], "state", "Oper")
  }

  ghost predicate SessionNotUp(canon: string -> string, records: seq<Record>, interface: string) {
    exists k: nat :: FirstSessionAt(canon, records, interface, k) && !Says(records[k], "state", "Oper")
  }

  lemma CarriesExactly(canon: string -> string, r: Record, interface: string)
    ensures Carries(canon, r, interface) <==> DiscoveredOn(canon, r, interface)
  {
    var names := Get(r, "discovery_interfaces");
    if names.Names? {
      assert forall name :: name in names.names ==>
        (SameInterface(canon, name, interface) <==> name != "" && canon(name) == canon(interface));
    }
  }

  lemma {:induction false} FirstSessionIsFirst(canon: string -> string, records: seq<Record>, interface: string)
      returns (k: nat)
    ensures match FirstSession(canon, records, interface)
            case None => NoSession(canon, records, interface)
            case Some(r) => FirstSessionAt(canon, records, interface, k) && records[k] == r
  {
    k := 0;
    if records != [] {
      CarriesExactly(canon, records[0], interface);
      if !Carries(canon, records[0], interface) {
        var later := FirstSessionIsFirst(canon, records[1..], interface);
        k := later + 1;
        assert forall j :: 0 < j < |records| ==> records[j] == records[1..][j - 1];
      }
    }
  }

  lemma WhatTheSessionSays(canon: string -> string, records: seq<Record>, interface: string)
    ensures var r := FirstSession(canon, records, interface);
      && (r.None? <==> NoSession(canon, records, interface))
      && (SessionUp(canon, records, interface) <==> r.Some? && Get(r.value, "state") == Str("Oper"))
      && (SessionNotUp(canon, records, interface) <==> r.Some? && Get(r.value, "state") != Str("Oper"))
  {
    var k := FirstSessionIsFirst(canon, records, interface);
    if FirstSession(canon, records, interface).Some? {
      assert forall i: nat :: FirstSessionAt(canon, records, interface, i) ==> i == k;
    }
  }

  /** LDP should be on the interface: the configuration says so or, where it was read and is
      silent, the declared intent does. */
  ghost predicate LdpMeant(canon: string -> string, e: Evidence, interface: string) {
    && Read(e, "config_ldp")
    && (|| SpelledIn(canon, e["config_ldp"].records, "interface", interface)
        || (Read(e, "ldp_intent") && SpelledIn(canon, e["ldp_intent"].records, "interface", interface)))
  }

  lemma LdpMeantExactly(canon: string -> string, e: Evidence, interface: string)
    ensures LdpNotSpoken(canon, e, interface).status == if LdpMeant(canon, e, interface) then Broken else Unevaluated
    ensures LdpNotSpoken(canon, e, interface).subject == Some(interface)
  {
    SpelledIsFound(canon, Records(e, "config_ldp"), "interface", interface);
    SpelledIsFound(canon, Records(e, "ldp_intent"), "interface", interface);
  }

  /** Healthy only by a session that says Oper. Broken by one that does not, or, tier by tier
      while all before stay silent, by a discovered neighbor, the port, or what was meant. */
  lemma LdpSessionUpExactly(canon: string -> string, e: Evidence, interface: string)
    ensures var r := LdpSessionUp(canon, e, interface);
      && r.subject == Some(interface)
      && (r.status.Healthy? <==> Read(e, "ldp") && SessionUp(canon, e["ldp"].records, interface))
      && (r.status.Broken? <==>
            Read(e, "ldp")
            && (|| SessionNotUp(canon, e["ldp"].records, interface)
                || (NoSession(canon, e["ldp"].records, interface)
                    && Read(e, "ldp_discovery")
                    && (|| SpelledIn(canon, e["ldp_discovery"].records, "interface", interface)
                        || PortDown(canon, e, interface)
                        || (Read(e, "interfaces") && LdpMeant(canon, e, interface))))))
  {
    WhatTheSessionSays(canon, Records(e, "ldp"), interface);
    SpelledIsFound(canon, Records(e, "ldp_discovery"), "interface", interface);
    PortDownExactly(canon, e, interface);
    LdpMeantExactly(canon, e, interface);
  }

  /** An adjacency in Init is broken for both checks. */
  lemma InitIsBroken(canon: string -> string, interface: string)
    requires interface != ""
    ensures var row := map["interface" := Str(interface), "state" := Str("Init")];
      var e := map["isis" := Section(Collected, ParseOk, map[], [row])];
      && IsisAdjacency(e, None).status.Broken? && IsisAdjacency(e, Some(interface)).status.Broken?
      && IsisNeighborUp(canon, e, interface).status.Broken?
  {
    var row := map["interface" := Str(interface), "state" := Str("Init")];
    assert row in [row] && [row][0] == row;
  }

  // ------------------------------------------------------------------
  // Why an adjacency is broken
  // ------------------------------------------------------------------

  ghost predicate NeverListed(canon: string -> string, e: Evidence, interface: string) {
    Read(e, "isis") && !SpelledIn(canon, e["isis"].records, "interface", interface)
  }

  ghost predicate Cabled(canon: string -> string, e: Evidence, interface: string) {
    Read(e, "lldp") && SpelledIn(canon, e["lldp"].records, "local_interface", interface)
  }

  /** The port's own record says so, and not only its line protocol. */
  ghost predicate TakenDown(canon: string -> string, e: Evidence, interface: string) {
    Read(e, "interfaces") && FirstDenies(canon, e["interfaces"].records, interface, "admin_state", "up")
  }

  /** When the adjacency table holds no adjacency that is down and no port is up without
      its line, only these two things are left. */
  lemma BrokenBecause(canon: string -> string, e: Evidence, interface: string)
    requires IsisNeighborUp(canon, e, interface).status.Broken?
    requires forall r :: r in Records(e, "isis") ==> Says(r, "state", "Up")
    requires forall r :: r in Records(e, "interfaces") && Says(r, "admin_state", "up") ==>
      Says(r, "line_protocol", "up")
    ensures NeverListed(canon, e, interface)
    ensures Cabled(canon, e, interface) || TakenDown(canon, e, interface)
  {
    IsisNeighborUpExactly(canon, e, interface);
  }
}
