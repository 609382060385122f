/** The admission directory's log files: the budgets of active probes and of event runs,
    each a window per device and one for the fabric, and the claims of event identities.
    Device names choose file names, so some names share a file with something else. */
module Budgets {
  import opened Common
  import opened Names
  import opened RateWindow
  import opened SlidingLog

  /** The two budgets differ in nothing but their file names and settings. */
  datatype Kind = Probes | Events

  /** The configured values, before the floor of one. */
  datatype Limits = Limits(device: int, fabric: int, window: real)

  datatype Setup = Setup(probes: Limits, events: Limits, claimWindow: real)

  datatype Verdict = Granted | DeviceExhausted | FabricExhausted

  /** A log file of the directory, by what its name is made from. */
  datatype LogFile = DeviceLog(kind: Kind, device: string)

  type Files = map<LogFile, seq<Line>>

  function LimitsOf(setup: Setup, kind: Kind): Limits {
    if kind.Probes? then setup.probes else setup.events
  }

  function Prefix(kind: Kind): string {
    if kind.Probes? then "probes" else "events"
  }

  function FileName(f: LogFile): string {
    Prefix(f.kind) + "." + f.device + ".log"
  }

  function FabricLog(kind: Kind): LogFile {
    DeviceLog(kind, "fabric")
  }

  const CLAIM_FILE := DeviceLog(Events, "idempotency")

  /** Two log files are one on disk only when they are for the same kind and name. */
  lemma LogNamesAreDistinct(f: LogFile, g: LogFile)
    ensures FileName(f) == FileName(g) <==> f == g
  {
    var p, q := FileName(f), FileName(g);
    assert p[7..|p| - 4] == f.device && q[7..|q| - 4] == g.device;
    assert p[0] == Prefix(f.kind)[0] && q[0] == Prefix(g.kind)[0];
  }

  /** The claims' file is the event log of a device called "idempotency". */
  lemma ClaimFileIsADeviceLog(f: LogFile)
    ensures FileName(CLAIM_FILE) == "events.idempotency.log"
    ensures FileName(f) == "events.idempotency.log" <==> f.kind.Events? && f.device == "idempotency"
    ensures forall kind :: FabricLog(kind) != CLAIM_FILE
  {
    LogNamesAreDistinct(f, CLAIM_FILE);
    assert FileName(CLAIM_FILE) == "events.idempotency.log" by {
      assert "events" + "." + "idempotency" + ".log" == "events.idempotency.log";
    }
    forall kind ensures FabricLog(kind) != CLAIM_FILE {
      assert |"fabric"| != |"idempotency"|;
    }
  }

  lemma NamesOnDisk(device: string)
    ensures FileName(DeviceLog(Probes, device)) == "probes." + device + ".log"
    ensures FileName(DeviceLog(Events, device)) == "events." + device + ".log"
    ensures FileName(FabricLog(Probes)) == "probes.fabric.log" && FileName(FabricLog(Events)) == "events.fabric.log"
  {
    assert "probes" + "." + "fabric" + ".log" == "probes.fabric.log";
    assert "events" + "." + "fabric" + ".log" == "events.fabric.log";
    assert Prefix(Probes) + "." + device + ".log" == "probes." + device + ".log";
    assert Prefix(Events) + "." + device + ".log" == "events." + device + ".log";
  }

  function Contents(files: Files, path: LogFile): seq<Line> {
    if path in files then files[path] else []
  }

  /** What a check reads in a file. */
  function Stamps(files: Files, path: LogFile): seq<real> {
    StampsOf(Contents(files, path))
  }

  // ------------------------------------------------------------------
  // The operations
  // ------------------------------------------------------------------

  // From here on a device stands under its sanitised name.

  /** One window check's write. */
  function Charged(files: Files, path: LogFile, limit: int, window: real, now: real): Files {
    files[path := RecordedLines(Contents(files, path), limit, window, now)]
  }

  function AfterDevice(files: Files, kind: Kind, limits: Limits, device: string, now: real): Files {
    Charged(files, DeviceLog(kind, device), AtLeastOne(limits.device), limits.window, now)
  }

  /** The device's own budget turns the check away. */
  predicate DeviceRefuses(files: Files, kind: Kind, limits: Limits, device: string, now: real) {
    !Admits(Stamps(files, DeviceLog(kind, device)), AtLeastOne(limits.device), limits.window, now)
  }

  function CheckVerdict(files: Files, kind: Kind, limits: Limits, device: string, now: real): Verdict {
    if DeviceRefuses(files, kind, limits, device, now) then DeviceExhausted
    else if !Admits(Stamps(AfterDevice(files, kind, limits, device, now), FabricLog(kind)),
                    AtLeastOne(limits.fabric), limits.window, now)
    then FabricExhausted
    else Granted
  }

  function AfterCheck(files: Files, kind: Kind, limits: Limits, device: string, now: real): Files {
    var charged := AfterDevice(files, kind, limits, device, now);
    if CheckVerdict(files, kind, limits, device, now).DeviceExhausted? then charged
    else Charged(charged, FabricLog(kind), AtLeastOne(limits.fabric), limits.window, now)
  }

  /** What has been used up of a budget: the stamps within the window, at least one and no
      fewer than the limit. */
  ghost predicate UsedUp(log: seq<real>, limit: int, window: real, now: real) {
    |From(log, now - window)| >= 1 && |From(log, now - window)| >= limit
  }

  /** The device's budget is judged on its own file. The fabric's is judged on the fabric's
      file, where a device called "fabric" has just left its own stamp. */
  lemma VerdictByTheNumbers(files: Files, kind: Kind, limits: Limits, device: string, now: real)
    ensures var verdict := CheckVerdict(files, kind, limits, device, now);
      var own, all := Stamps(files, DeviceLog(kind, device)), Stamps(files, DeviceLog(kind, "fabric"));
      && (verdict.DeviceExhausted? <==> UsedUp(own, limits.device, limits.window, now))
      && (device != "fabric" ==>
            (verdict.FabricExhausted? <==>
               !UsedUp(own, limits.device, limits.window, now) && UsedUp(all, limits.fabric, limits.window, now)))
  {
    AdmitsByTheNumbers(Stamps(files, DeviceLog(kind, device)), AtLeastOne(limits.device), limits.window, now);
    AdmitsByTheNumbers(Stamps(files, FabricLog(kind)), AtLeastOne(limits.fabric), limits.window, now);
    ChargeOnOneFile(files, DeviceLog(kind, device), AtLeastOne(limits.device), limits.window, now, FabricLog(kind));
  }

  lemma OneMoreStamp(log: seq<real>, cutoff: real, now: real)
    requires now >= cutoff
    ensures |From(Kept(log, cutoff) + [now], cutoff)| == |From(log, cutoff)| + 1
  {
    KeptIsHowMany(log, cutoff);
    KeptTwice(log, cutoff, cutoff);
    KeptSnoc(Kept(log, cutoff), now, cutoff);
    KeptIsHowMany(Kept(log, cutoff) + [now], cutoff);
  }

  /** A device called "fabric" is judged on one file twice, the second time with the stamp it
      has just left there. */
  lemma VerdictOnTheSharedFile(files: Files, kind: Kind, limits: Limits, now: real)
    requires limits.window >= 0.0
    ensures var verdict, n := CheckVerdict(files, kind, limits, "fabric", now),
                              |From(Stamps(files, FabricLog(kind)), now - limits.window)|;
      && (verdict.DeviceExhausted? <==> n >= 1 && n >= limits.device)
      && (verdict.FabricExhausted? <==> !verdict.DeviceExhausted? && n + 1 >= limits.fabric)
  {
    var path, limit, window := FabricLog(kind), AtLeastOne(limits.device), limits.window;
    var log := Stamps(files, path);
    AdmitsByTheNumbers(log, limit, window, now);
    AdmitsByTheNumbers(Recorded(log, limit, window, now), AtLeastOne(limits.fabric), window, now);
    OneMoreStamp(log, now - window, now);
    ChargeOnOneFile(files, path, limit, window, now, path);
  }

  function AfterClaim(files: Files, id: string, window: real, now: real): Files {
    files[CLAIM_FILE := ClaimedLines(Contents(files, CLAIM_FILE), id, window, now)]
  }

  class AdmissionDir {
    var files: Files

    constructor ()
      ensures files == map[]
    {
      files := map[];
    }

    method Charge(path: LogFile, limit: int, window: real, now: real) returns (ok: bool)
      modifies this
      ensures ok == Admits(Stamps(old(files), path), limit, window, now)
      ensures files == Charged(old(files), path, limit, window, now)
    {
      var after;
      ok, after := CheckAndRecordWindow(Contents(files, path), limit, window, now);
      files := files[path := after];
    }

    /** The device's window first; when that admits, the fabric's. The device's record
        is not rolled back when the fabric refuses. */
    method CheckSafeName(kind: Kind, limits: Limits, device: string, now: real) returns (verdict: Verdict)
      modifies this
      ensures verdict == CheckVerdict(old(files), kind, limits, device, now)
      ensures files == AfterCheck(old(files), kind, limits, device, now)
    {
      var ok := Charge(DeviceLog(kind, device), AtLeastOne(limits.device), limits.window, now);
      assert files == AfterDevice(old(files), kind, limits, device, now);
      if !ok {
        return DeviceExhausted;
      }
      ok := Charge(FabricLog(kind), AtLeastOne(limits.fabric), limits.window, now);
      return if ok then Granted else FabricExhausted;
    }

    method CheckBudget(kind: Kind, limits: Limits, device: string, now: real) returns (verdict: Verdict)
      modifies this
      ensures verdict == CheckVerdict(old(files), kind, limits, Sanitize(device), now)
      ensures files == AfterCheck(old(files), kind, limits, Sanitize(device), now)
    {
      verdict := CheckSafeName(kind, limits, Sanitize(device), now);
    }

    method Claim(id: string, window: real, now: real) returns (ok: bool)
      modifies this
      ensures ok == Claimable(ClaimsIn(old(files)), id, window, now)
      ensures files == AfterClaim(old(files), id, window, now)
    {
      var after;
      ok, after := ClaimEventId(Contents(files, CLAIM_FILE), id, window, now);
      files := files[CLAIM_FILE := after];
    }
  }

  // ------------------------------------------------------------------
  // What an operation does to the stamps of one file
  // ------------------------------------------------------------------

  function ChargedStamps(log: seq<real>, mine: bool, limit: int, window: real, now: real): seq<real> {
    if mine then Recorded(log, limit, window, now) else log
  }

  lemma ChargeOnOneFile(files: Files, path: LogFile, limit: int, window: real, now: real, other: LogFile)
    ensures Stamps(Charged(files, path, limit, window, now), other) ==
      ChargedStamps(Stamps(files, other), other == path, limit, window, now)
  {
    RecordedLinesHold(Contents(files, path), limit, window, now);
  }

  /** A check writes its device's file, and the fabric's unless the device refused; when
      the two are one file, it writes that twice. */
  lemma CheckOnOneFile(files: Files, kind: Kind, limits: Limits, device: string, now: real, path: LogFile)
    ensures var own, shared := path == DeviceLog(kind, device), path == FabricLog(kind);
      var charged := ChargedStamps(Stamps(files, path), own, AtLeastOne(limits.device), limits.window, now);
      var after := Stamps(AfterCheck(files, kind, limits, device, now), path);
      && Stamps(AfterDevice(files, kind, limits, device, now), path) == charged
      && (CheckVerdict(files, kind, limits, device, now).DeviceExhausted? ==> after == charged)
      && (!CheckVerdict(files, kind, limits, device, now).DeviceExhausted? ==>
            after == ChargedStamps(charged, shared, AtLeastOne(limits.fabric), limits.window, now))
  {
    var charged := AfterDevice(files, kind, limits, device, now);
    ChargeOnOneFile(files, DeviceLog(kind, device), AtLeastOne(limits.device), limits.window, now, path);
    ChargeOnOneFile(charged, FabricLog(kind), AtLeastOne(limits.fabric), limits.window, now, path);
  }

  /** The device's own log is not the claim file. */
  predicate NotClaims(kind: Kind, safe: string) {
    !(kind.Events? && safe == "idempotency")
  }

  /** What a claim reads in the claim file. */
  function ClaimsIn(files: Files): seq<Entry> {
    ClaimsOf(Contents(files, CLAIM_FILE))
  }

  lemma ChargeOnClaims(files: Files, path: LogFile, limit: int, window: real, now: real)
    ensures ClaimsIn(Charged(files, path, limit, window, now)) ==
      if path == CLAIM_FILE && Admits(Stamps(files, path), limit, window, now) then [] else ClaimsIn(files)
  {
    RecordedLinesHold(Contents(files, path), limit, window, now);
  }

  /** A check destroys claims exactly when it is an event-run check for a device whose
      name makes its log the claim file, and that log admits it. */
  lemma CheckKeepsClaimsExactly(files: Files, kind: Kind, limits: Limits, device: string, now: real)
    ensures ClaimsIn(AfterCheck(files, kind, limits, device, now)) == ClaimsIn(files)
      <==> !(kind.Events? && device == "idempotency"
             && Admits(Stamps(files, CLAIM_FILE), AtLeastOne(limits.device), limits.window, now)
             && ClaimsIn(files) != [])
  {
    var path := DeviceLog(kind, device);
    ChargeOnClaims(files, path, AtLeastOne(limits.device), limits.window, now);
    ChargeOnClaims(AfterDevice(files, kind, limits, device, now), FabricLog(kind), AtLeastOne(limits.fabric),
                   limits.window, now);
  }

  /** A claim destroys stamps exactly when it is granted while that device has some. */
  lemma ClaimKeepsStampsExactly(files: Files, id: string, window: real, now: real)
    ensures Stamps(AfterClaim(files, id, window, now), CLAIM_FILE) == Stamps(files, CLAIM_FILE)
      <==> !(Claimable(ClaimsIn(files), id, window, now) && Stamps(files, CLAIM_FILE) != [])
  {
    ClaimedLinesHold(Contents(files, CLAIM_FILE), id, window, now);
  }
}
