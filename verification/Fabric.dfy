/** The fabric roll-up of device health verdicts. */
module Fabric {
  import opened Common
  import opened Evidence
  import opened Health

  datatype BySeverity = BySeverity(critical: nat, unreachable: nat, warning: nat, info: nat, ok: nat)

  datatype FabricVerdict = FabricVerdict(
    severity: Severity, devices: nat, bySeverity: BySeverity, unevaluatedDevices: set<string>,
    verdicts: seq<DeviceVerdict>)

  function Total(c: BySeverity): nat {
    c.critical + c.unreachable + c.warning + c.info + c.ok
  }

  /** Position of a device's entry in the verdicts, in insertion order. */
  function Slot(verdicts: seq<DeviceVerdict>, name: string): (r: nat)
    ensures r <= |verdicts|
    ensures r < |verdicts| ==> verdicts[r] in verdicts && verdicts[r].device == name
    ensures forall k :: 0 <= k < r ==> verdicts[k].device != name
  {
    if verdicts == [] || verdicts[0].device == name then 0 else 1 + Slot(verdicts[1..], name)
  }

  /** A dictionary store: the old entry is replaced where it stands. */
  function Put(verdicts: seq<DeviceVerdict>, v: DeviceVerdict): (r: seq<DeviceVerdict>)
    ensures |verdicts| <= |r| && forall i :: 0 <= i < |verdicts| ==> r[i].device == verdicts[i].device
  {
    var k := Slot(verdicts, v.device);
    if k < |verdicts| then verdicts[k := v] else verdicts + [v]
  }

  /** The verdicts after visiting these devices, in dictionary order. */
  function Visited(evidence: map<string, Evidence>, devices: seq<Device>): seq<DeviceVerdict> {
    if devices == [] then []
    else
      var device := devices[|devices| - 1];
      var before := Visited(evidence, devices[..|devices| - 1]);
      if device.name in evidence then Put(before, DeviceVerdictOf(evidence[device.name], device)) else before
  }

  function WorstOf(evidence: map<string, Evidence>, devices: seq<Device>): Severity {
    if devices == [] then Ok
    else
      var device := devices[|devices| - 1];
      var before := WorstOf(evidence, devices[..|devices| - 1]);
      if device.name !in evidence then before
      else MaxSeverity(before, DeviceVerdictOf(evidence[device.name], device).severity)
  }

  function OneOf(s: Severity): BySeverity {
    match s
    case Critical => BySeverity(1, 0, 0, 0, 0)
    case Unreachable => BySeverity(0, 1, 0, 0, 0)
    case Warning => BySeverity(0, 0, 1, 0, 0)
    case Info => BySeverity(0, 0, 0, 1, 0)
    case Ok => BySeverity(0, 0, 0, 0, 1)
  }

  function Plus(a: BySeverity, b: BySeverity): BySeverity {
    BySeverity(a.critical + b.critical, a.unreachable + b.unreachable, a.warning + b.warning, a.info + b.info,
               a.ok + b.ok)
  }

  function Tally(verdicts: seq<DeviceVerdict>): (r: BySeverity)
    ensures Total(r) == |verdicts|
  {
    if verdicts == [] then BySeverity(0, 0, 0, 0, 0)
    else Plus(Tally(verdicts[..|verdicts| - 1]), OneOf(verdicts[|verdicts| - 1].severity))
  }

  function Blind(verdicts: seq<DeviceVerdict>): set<string> {
    set v | v in verdicts && v.unevaluated != [] :: v.device
  }

  method EvaluateFabric(evidence: map<string, Evidence>, devices: seq<Device>) returns (fabric: FabricVerdict)
    ensures fabric.verdicts == Visited(evidence, devices)
    ensures fabric.severity == WorstOf(evidence, devices)
    ensures fabric.bySeverity == Tally(fabric.verdicts) && fabric.devices == |fabric.verdicts|
    ensures fabric.unevaluatedDevices == Blind(fabric.verdicts)
  {
    var verdicts, severity := [], Ok;
    for i := 0 to |devices|
      invariant verdicts == Visited(evidence, devices[..i]) && severity == WorstOf(evidence, devices[..i])
    {
      assert devices[..i + 1][..i] == devices[..i];
      if devices[i].name in evidence {
        var verdict := EvaluateDevice(evidence[devices[i].name], devices[i]);
        verdicts := Put(verdicts, verdict);
        severity := MaxSeverity(severity, verdict.severity);
      }
    }
    assert devices[..|devices|] == devices;
    var tally := BySeverity(0, 0, 0, 0, 0);
    for i := 0 to |verdicts|
      invariant tally == Tally(verdicts[..i])
    {
      assert verdicts[..i + 1][..i] == verdicts[..i];
      tally := Plus(tally, OneOf(verdicts[i].severity));
    }
    assert verdicts[..|verdicts|] == verdicts;
    fabric := FabricVerdict(severity, |verdicts|, tally, Blind(verdicts), verdicts);
  }

  // ------------------------------------------------------------------
  // What the roll-up means
  // ------------------------------------------------------------------

  /** No device counts twice, whatever the device list repeats. */
  predicate DistinctDevices(verdicts: seq<DeviceVerdict>) {
    forall i, j :: 0 <= i < j < |verdicts| ==> verdicts[i].device != verdicts[j].device
  }

  lemma {:induction false} OneEntryPerDevice(evidence: map<string, Evidence>, devices: seq<Device>)
    ensures DistinctDevices(Visited(evidence, devices))
    ensures forall v :: v in Visited(evidence, devices) ==> v.device in evidence
  {
    if devices != [] {
      OneEntryPerDevice(evidence, devices[..|devices| - 1]);
    }
  }

  predicate Names(devices: seq<Device>) {
    forall i, j :: 0 <= i < j < |devices| ==> devices[i].name != devices[j].name
  }

  lemma PutFresh(verdicts: seq<DeviceVerdict>, v: DeviceVerdict)
    requires forall w :: w in verdicts ==> w.device != v.device
    ensures Put(verdicts, v) == verdicts + [v]
  {
  }

  /** With unique names, as the inventory enforces, the verdicts are exactly those of the
      devices that have evidence. */
  lemma {:induction false} VerdictsAreTheDevices(evidence: map<string, Evidence>, devices: seq<Device>,
                                                 v: DeviceVerdict)
    requires Names(devices)
    ensures v in Visited(evidence, devices) <==>
      exists d :: d in devices && d.name in evidence && v == DeviceVerdictOf(evidence[d.name], d)
  {
    if devices != [] {
      var front, last := devices[..|devices| - 1], devices[|devices| - 1];
      assert devices == front + [last];
      VerdictsAreTheDevices(evidence, front, v);
      if last.name in evidence {
        var mine := DeviceVerdictOf(evidence[last.name], last);
        forall w | w in Visited(evidence, front) ensures w.device != last.name {
          VerdictsAreTheDevices(evidence, front, w);
        }
        PutFresh(Visited(evidence, front), mine);
      }
    }
  }

  lemma PutKeepsOthers(verdicts: seq<DeviceVerdict>, v: DeviceVerdict, w: DeviceVerdict)
    requires w in verdicts && w.device != v.device
    ensures w in Put(verdicts, v)
  {
    var i :| 0 <= i < |verdicts| && verdicts[i] == w;
    assert Put(verdicts, v)[i] == w;
  }

  /** Of several devices with one name, the last decides what is said under it. */
  lemma {:induction false} LastOfANameDecides(evidence: map<string, Evidence>, devices: seq<Device>, k: nat)
    requires k < |devices| && devices[k].name in evidence
    requires forall j :: k < j < |devices| ==> devices[j].name != devices[k].name
    ensures DeviceVerdictOf(evidence[devices[k].name], devices[k]) in Visited(evidence, devices)
  {
    var n := |devices| - 1;
    var last := devices[n];
    if k < n {
      LastOfANameDecides(evidence, devices[..n], k);
      if last.name in evidence {
        PutKeepsOthers(Visited(evidence, devices[..n]), DeviceVerdictOf(evidence[last.name], last),
                       DeviceVerdictOf(evidence[devices[k].name], devices[k]));
      }
    } else {
      PutPuts(Visited(evidence, devices[..n]), DeviceVerdictOf(evidence[last.name], last));
    }
  }

  lemma PutPuts(verdicts: seq<DeviceVerdict>, v: DeviceVerdict)
    ensures v in Put(verdicts, v)
  {
    var k := Slot(verdicts, v.device);
    assert Put(verdicts, v)[k] == v;
  }

  /** Every device's severity is at most the fabric's. */
  lemma {:induction false} FabricBoundsEveryDevice(evidence: map<string, Evidence>, devices: seq<Device>, d: Device)
    requires d in devices && d.name in evidence
    ensures Rank(DeviceVerdictOf(evidence[d.name], d).severity) <= Rank(WorstOf(evidence, devices))
  {
    var front, last := devices[..|devices| - 1], devices[|devices| - 1];
    assert devices == front + [last];
    if d in front {
      FabricBoundsEveryDevice(evidence, front, d);
    }
  }

  lemma {:induction false} FabricIsSomeDevice(evidence: map<string, Evidence>, devices: seq<Device>)
    ensures var worst := WorstOf(evidence, devices);
      worst == Ok
      || exists d :: d in devices && d.name in evidence && DeviceVerdictOf(evidence[d.name], d).severity == worst
  {
    if devices != [] {
      var front, last := devices[..|devices| - 1], devices[|devices| - 1];
      assert devices == front + [last];
      FabricIsSomeDevice(evidence, front);
    }
  }

  /** Some device with evidence has this severity. */
  ghost predicate SomeDeviceIs(evidence: map<string, Evidence>, devices: seq<Device>, s: Severity) {
    exists d :: d in devices && d.name in evidence && DeviceVerdictOf(evidence[d.name], d).severity == s
  }

  /** The worst device decides: critical before unreachable before a warning before a remark. */
  lemma FabricSeverityInWords(evidence: map<string, Evidence>, devices: seq<Device>)
    ensures var worst := WorstOf(evidence, devices);
      && (worst == Critical <==> SomeDeviceIs(evidence, devices, Critical))
      && (worst == Unreachable <==>
            !SomeDeviceIs(evidence, devices, Critical) && SomeDeviceIs(evidence, devices, Unreachable))
      && (worst == Warning <==>
            !SomeDeviceIs(evidence, devices, Critical) && !SomeDeviceIs(evidence, devices, Unreachable)
            && SomeDeviceIs(evidence, devices, Warning))
      && (worst == Ok <==>
            forall d :: d in devices && d.name in evidence ==> DeviceVerdictOf(evidence[d.name], d).severity == Ok)
  {
    FabricIsSomeDevice(evidence, devices);
    forall d | d in devices && d.name in evidence
      ensures Rank(DeviceVerdictOf(evidence[d.name], d).severity) <= Rank(WorstOf(evidence, devices))
    {
      FabricBoundsEveryDevice(evidence, devices, d);
    }
  }

  lemma DownDeviceMakesFabricCritical(evidence: map<string, Evidence>, devices: seq<Device>, d: Device)
    requires d in devices && d.name in evidence && (IsisDown(evidence[d.name]) || BgpDown(evidence[d.name]))
    ensures WorstOf(evidence, devices) == Critical
  {
    FabricBoundsEveryDevice(evidence, devices, d);
    if IsisDown(evidence[d.name]) {
      IsisDownIsCritical(evidence[d.name], d);
    } else {
      BgpDownIsCritical(evidence[d.name], d);
    }
  }

  lemma CriticalFabricHasADownDevice(evidence: map<string, Evidence>, devices: seq<Device>) returns (d: Device)
    requires WorstOf(evidence, devices) == Critical
    ensures d in devices && d.name in evidence && (IsisDown(evidence[d.name]) || BgpDown(evidence[d.name]))
  {
    FabricIsSomeDevice(evidence, devices);
    d :| d in devices && d.name in evidence
      && DeviceVerdictOf(evidence[d.name], d).severity == WorstOf(evidence, devices);
    CriticalExactlyWhenRoutingIsDown(evidence[d.name], d);
  }

  /** The fabric is critical exactly when routing is down on some device it has evidence of. */
  lemma FabricCriticalExactly(evidence: map<string, Evidence>, devices: seq<Device>)
    ensures WorstOf(evidence, devices) == Critical <==>
      exists d :: d in devices && d.name in evidence && (IsisDown(evidence[d.name]) || BgpDown(evidence[d.name]))
  {
    if WorstOf(evidence, devices) == Critical {
      var _ := CriticalFabricHasADownDevice(evidence, devices);
    }
    if d :| d in devices && d.name in evidence && (IsisDown(evidence[d.name]) || BgpDown(evidence[d.name])) {
      DownDeviceMakesFabricCritical(evidence, devices, d);
    }
  }

  ghost function Under(c: BySeverity, s: Severity): nat {
    match s
    case Critical => c.critical
    case Unreachable => c.unreachable
    case Warning => c.warning
    case Info => c.info
    case Ok => c.ok
  }

  lemma UnderPlusOne(a: BySeverity, t: Severity, s: Severity)
    ensures Under(Plus(a, OneOf(t)), s) == Under(a, s) + (if t == s then 1 else 0)
  {
  }

  lemma {:induction false} TallyUnder(verdicts: seq<DeviceVerdict>, s: Severity)
    ensures Under(Tally(verdicts), s) == |Of(verdicts, s)|
  {
    if verdicts == [] {
      assert Of(verdicts, s) == {};
    } else {
      var n := |verdicts| - 1;
      TallyUnder(verdicts[..n], s);
      OfSnoc(verdicts, s);
      UnderPlusOne(Tally(verdicts[..n]), verdicts[n].severity, s);
    }
  }

  /** The verdicts of each severity are counted under its own name. */
  lemma TallyIsHowMany(verdicts: seq<DeviceVerdict>)
    ensures var c := Tally(verdicts);
      && c.critical == |Of(verdicts, Critical)| && c.unreachable == |Of(verdicts, Unreachable)|
      && c.warning == |Of(verdicts, Warning)| && c.info == |Of(verdicts, Info)| && c.ok == |Of(verdicts, Ok)|
  {
    TallyUnder(verdicts, Critical);
    TallyUnder(verdicts, Unreachable);
    TallyUnder(verdicts, Warning);
    TallyUnder(verdicts, Info);
    TallyUnder(verdicts, Ok);
  }

  /** Where the verdicts of one severity stand. */
  ghost function Of(verdicts: seq<DeviceVerdict>, s: Severity): set<nat> {
    set i: nat | i < |verdicts| && verdicts[i].severity == s
  }

  lemma OfSnoc(verdicts: seq<DeviceVerdict>, s: Severity)
    requires verdicts != []
    ensures var n := |verdicts| - 1;
      |Of(verdicts, s)| == |Of(verdicts[..n], s)| + (if verdicts[n].severity == s then 1 else 0)
  {
    var n := |verdicts| - 1;
    assert Of(verdicts, s) == Of(verdicts[..n], s) + (if verdicts[n].severity == s then {n} else {});
  }

  /** A fabric below "warning" has assessed every device it has evidence of. */
  lemma QuietFabricIsAssessed(evidence: map<string, Evidence>, devices: seq<Device>, d: Device, intent: string)
    requires WorstOf(evidence, devices) == Ok || WorstOf(evidence, devices) == Info
    requires d in devices && d.name in evidence && IsHealthIntent(intent)
    ensures Assessed(evidence[d.name], intent) || NotOffered(evidence[d.name], intent)
  {
    FabricBoundsEveryDevice(evidence, devices, d);
    QuietMeansAssessed(evidence[d.name], d);
  }

  lemma QuietFabricHasNoBlindDevice(evidence: map<string, Evidence>, devices: seq<Device>)
    requires Names(devices) && (WorstOf(evidence, devices) == Ok || WorstOf(evidence, devices) == Info)
    ensures Blind(Visited(evidence, devices)) == {}
  {
    forall v | v in Visited(evidence, devices) ensures v.unevaluated == [] {
      VerdictsAreTheDevices(evidence, devices, v);
      var d :| d in devices && d.name in evidence && v == DeviceVerdictOf(evidence[d.name], d);
      FabricBoundsEveryDevice(evidence, devices, d);
      QuietMeansAssessed(evidence[d.name], d);
    }
  }
}
