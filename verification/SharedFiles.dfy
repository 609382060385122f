/** Whose doing a file's contents are: most devices have a file of their own, two names share
    one with something else. */
module SharedFiles {
  import opened Budgets
  import opened BudgetRuns
  import opened Common
  import opened RateWindow
  import opened SlidingLog

  // ------------------------------------------------------------------
  // A device's own file
  // ------------------------------------------------------------------

  predicate Own(op: Op, kind: Kind, safe: string) {
    op.DeviceHalf? && op.check.kind == kind && op.check.device == safe
  }

  /** The clock readings of one device's own checks, in the order in which they locked its file. */
  function OwnReadings(ops: seq<Op>, kind: Kind, safe: string): seq<real> {
    if ops == [] then []
    else
      var op := ops[|ops| - 1];
      OwnReadings(ops[..|ops| - 1], kind, safe) + (if Own(op, kind, safe) then [op.check.now] else [])
  }

  predicate Private(kind: Kind, safe: string) {
    safe != "fabric" && NotClaims(kind, safe)
  }

  /** Only the device's own checks lock its file. */
  lemma OwnFileStep(setup: Setup, s: State, op: Op, kind: Kind, safe: string)
    requires Private(kind, safe)
    ensures var log, limits := Stamps(s.files, DeviceLog(kind, safe)), LimitsOf(setup, kind);
      Stamps(FilesAfter(setup, s, op), DeviceLog(kind, safe)) ==
        if Own(op, kind, safe) then Recorded(log, AtLeastOne(limits.device), limits.window, op.check.now) else log
  {
    var path := DeviceLog(kind, safe);
    match op
    case DeviceHalf(_, check) =>
      ChargeOnOneFile(s.files, DeviceLog(check.kind, check.device), LimitAt(setup, check.kind, AtDevice),
                      WindowOf(setup, check.kind), check.now, path);
    case FabricHalf(_) => OnOneFile(setup, s, op, path, Writes(setup, s, op));
    case ClaimOp(_, _) => OnOneFile(setup, s, op, path, Writes(setup, s, op));
  }

  /** A private device's file is the outcome of that device's own checks alone: nothing that
      other devices, the other kind or the claims do can move its verdict. */
  lemma {:induction false} OwnFileIsOwnChecks(setup: Setup, ops: seq<Op>, kind: Kind, safe: string)
    requires Private(kind, safe)
    ensures var limits := LimitsOf(setup, kind);
      Stamps(Run(setup, ops).files, DeviceLog(kind, safe)) ==
        RunFile(OwnReadings(ops, kind, safe), AtLeastOne(limits.device), limits.window).log
  {
    if ops != [] {
      var before, op := ops[..|ops| - 1], ops[|ops| - 1];
      var own, limits := OwnReadings(before, kind, safe), LimitsOf(setup, kind);
      OwnFileIsOwnChecks(setup, before, kind, safe);
      OwnFileStep(setup, Run(setup, before), op, kind, safe);
      if Own(op, kind, safe) {
        RunSnoc(own, op.check.now, AtLeastOne(limits.device), limits.window);
      } else {
        assert own + [] == own;
      }
    }
  }

  /** In every run the file is that of the device's own checks. */
  ghost predicate Isolated(setup: Setup, kind: Kind, safe: string) {
    forall ops :: Stamps(Run(setup, ops).files, DeviceLog(kind, safe)) ==
      RunFile(OwnReadings(ops, kind, safe), AtLeastOne(LimitsOf(setup, kind).device), LimitsOf(setup, kind).window).log
  }

  /** Two runs in which the device did the same and its file is not the same. */
  lemma OthersMovedTheFile(setup: Setup, kind: Kind, safe: string, ops: seq<Op>, more: seq<Op>)
    requires OwnReadings(ops, kind, safe) == OwnReadings(more, kind, safe)
    requires var path := DeviceLog(kind, safe);
      Stamps(Run(setup, ops).files, path) != Stamps(Run(setup, more).files, path)
    ensures !Isolated(setup, kind, safe)
  {
  }

  /** A whole check with nothing between its halves. */
  function WholeCheck(p: nat, check: Check): seq<Op> {
    [DeviceHalf(p, check)] + [FabricHalf(p)]
  }

  lemma ReadingOfAWholeCheck(p: nat, check: Check, kind: Kind, safe: string)
    ensures OwnReadings(WholeCheck(p, check), kind, safe) ==
      if check.kind == kind && check.device == safe then [check.now] else []
  {
    assert WholeCheck(p, check)[..1] == [DeviceHalf(p, check)] && [DeviceHalf(p, check)][..0] == [];
    assert OwnReadings([DeviceHalf(p, check)], kind, safe) + [] == OwnReadings([DeviceHalf(p, check)], kind, safe);
  }

  lemma WholeCheckAfter(setup: Setup, ops: seq<Op>, p: nat, check: Check)
    ensures var s, t := Run(setup, ops), Run(setup, ops + [DeviceHalf(p, check)] + [FabricHalf(p)]);
      var limits := LimitsOf(setup, check.kind);
      var verdict := CheckVerdict(s.files, check.kind, limits, check.device, check.now);
      && t.files == AfterCheck(s.files, check.kind, limits, check.device, check.now)
      && t.records == s.records + (if verdict.DeviceExhausted? then [] else [Record(AtDevice, check)])
                    + (if verdict.Granted? then [Record(AtFabric, check)] else [])
  {
    DirSnoc(setup, ops, DeviceHalf(p, check));
    DirSnoc(setup, ops + [DeviceHalf(p, check)], FabricHalf(p));
    UninterruptedCheck(setup, Run(setup, ops), p, check);
  }

  lemma FirstCheck(setup: Setup, check: Check)
    requires LimitsOf(setup, check.kind).window >= 0.0
    ensures var files := Run(setup, WholeCheck(0, check)).files;
      && Stamps(files, DeviceLog(check.kind, check.device)) != [] && ClaimsIn(files) == []
      && (check.device != "fabric" ==> Stamps(files, FabricLog(check.kind)) == [check.now])
  {
    assert [] + [DeviceHalf(0, check)] == [DeviceHalf(0, check)];
    WholeCheckAfter(setup, [], 0, check);
    FirstCheckFiles(check.kind, LimitsOf(setup, check.kind), check.device, check.now);
  }

  lemma FirstCheckFiles(kind: Kind, limits: Limits, device: string, now: real)
    requires limits.window >= 0.0
    ensures var files := AfterCheck(map[], kind, limits, device, now);
      && Stamps(files, DeviceLog(kind, device)) != [] && ClaimsIn(files) == []
      && (device != "fabric" ==> Stamps(files, FabricLog(kind)) == [now])
  {
    CheckOnOneFile(map[], kind, limits, device, now, DeviceLog(kind, device));
    CheckOnOneFile(map[], kind, limits, device, now, FabricLog(kind));
    CheckKeepsClaimsExactly(map[], kind, limits, device, now);
    assert [] + [now] == [now];
  }

  lemma FabricDeviceIsNotIsolated(setup: Setup, kind: Kind)
    requires LimitsOf(setup, kind).window >= 0.0
    ensures !Isolated(setup, kind, "fabric")
  {
    var ops := WholeCheck(0, Check(kind, "PE1", 0.0));
    FirstCheck(setup, Check(kind, "PE1", 0.0));
    ReadingOfAWholeCheck(0, Check(kind, "PE1", 0.0), kind, "fabric");
    assert Stamps(Run(setup, []).files, FabricLog(kind)) == [];
    OthersMovedTheFile(setup, kind, "fabric", [], ops);
  }

  lemma ClaimIsNobodysReading(ops: seq<Op>, id: string, now: real, kind: Kind, safe: string)
    ensures OwnReadings(ops + [ClaimOp(id, now)], kind, safe) == OwnReadings(ops, kind, safe)
  {
    assert (ops + [ClaimOp(id, now)])[..|ops|] == ops;
    assert OwnReadings(ops, kind, safe) + [] == OwnReadings(ops, kind, safe);
  }

  lemma ClaimErasesStamps(setup: Setup)
    requires setup.events.window >= 0.0
    ensures !Isolated(setup, Events, "idempotency")
  {
    FirstCheck(setup, Check(Events, "idempotency", 0.0));
    ClaimMovesTheFile(setup, WholeCheck(0, Check(Events, "idempotency", 0.0)), ClaimOp("a", 1.0));
  }

  lemma ClaimMovesTheFile(setup: Setup, ops: seq<Op>, claim: Op)
    requires claim.ClaimOp? && ClaimsIn(Run(setup, ops).files) == [] && Stamps(Run(setup, ops).files, CLAIM_FILE) != []
    ensures !Isolated(setup, Events, "idempotency")
  {
    DirSnoc(setup, ops, claim);
    ClaimIsNobodysReading(ops, claim.id, claim.now, Events, "idempotency");
    ClaimChangesStamps(Run(setup, ops).files, claim.id, setup.claimWindow, claim.now);
    OthersMovedTheFile(setup, Events, "idempotency", ops, ops + [claim]);
  }

  lemma ClaimChangesStamps(files: Files, id: string, window: real, now: real)
    requires ClaimsIn(files) == [] && Stamps(files, CLAIM_FILE) != []
    ensures Stamps(AfterClaim(files, id, window, now), CLAIM_FILE) != Stamps(files, CLAIM_FILE)
  {
    ClaimKeepsStampsExactly(files, id, window, now);
  }

  /** Exactly the devices whose file is shared with the fabric's window or with the claims
      are not judged by their own checks alone. */
  lemma IsolatedExactly(setup: Setup, kind: Kind, safe: string)
    requires LimitsOf(setup, kind).window >= 0.0
    ensures Isolated(setup, kind, safe) <==> Private(kind, safe)
  {
    if Private(kind, safe) {
      forall ops ensures Stamps(Run(setup, ops).files, DeviceLog(kind, safe)) ==
        RunFile(OwnReadings(ops, kind, safe), AtLeastOne(LimitsOf(setup, kind).device),
                LimitsOf(setup, kind).window).log
      {
        OwnFileIsOwnChecks(setup, ops, kind, safe);
      }
    } else if safe == "fabric" {
      FabricDeviceIsNotIsolated(setup, kind);
    } else {
      ClaimErasesStamps(setup);
    }
  }

  /** In an empty directory the first check is granted, except that a device called "fabric"
      charges one file twice and so meets a fabric limit of one. */
  lemma FirstCallIsGranted(kind: Kind, limits: Limits, device: string, now: real)
    requires limits.window >= 0.0
    ensures CheckVerdict(map[], kind, limits, device, now) ==
            if device == "fabric" && limits.fabric <= 1 then FabricExhausted else Granted
  {
    CheckOnOneFile(map[], kind, limits, device, now, FabricLog(kind));
    KeptSnoc([], now, now - limits.window);
    assert [] + [now] == [now];
  }

  /** Another device's one check is enough to exhaust a device called "fabric" that never
      checked anything, when its limit is one; its own checks alone would let it in. */
  lemma OthersExhaustTheFabricDevice(setup: Setup, kind: Kind)
    requires LimitsOf(setup, kind).device <= 1 && LimitsOf(setup, kind).window >= 1.0
    ensures var ops := WholeCheck(0, Check(kind, "PE1", 0.0));
      && CheckVerdict(Run(setup, ops).files, kind, LimitsOf(setup, kind), "fabric", 1.0) == DeviceExhausted
      && OwnReadings(ops, kind, "fabric") == []
    ensures Admits(RunFile([], 1, LimitsOf(setup, kind).window).log, 1, LimitsOf(setup, kind).window, 1.0)
  {
    FirstCheck(setup, Check(kind, "PE1", 0.0));
    ReadingOfAWholeCheck(0, Check(kind, "PE1", 0.0), kind, "fabric");
    KeptSnoc([], 0.0, 1.0 - LimitsOf(setup, kind).window);
    assert [] + [0.0] == [0.0];
  }

  // ------------------------------------------------------------------
  // The claims
  // ------------------------------------------------------------------

  /** No event-run check is for the device whose log is the claim file. */
  predicate NoIntruder(ops: seq<Op>) {
    forall i :: 0 <= i < |ops| && ops[i].DeviceHalf? ==> NotClaims(ops[i].check.kind, ops[i].check.device)
  }

  function Attempts(ops: seq<Op>): seq<Attempt> {
    if ops == [] then []
    else
      var op := ops[|ops| - 1];
      Attempts(ops[..|ops| - 1]) + (if op.ClaimOp? then [Attempt(op.id, op.now)] else [])
  }

  predicate ClaimsNow(setup: Setup, files: Files, op: Op) {
    op.ClaimOp? && Claimable(ClaimsIn(files), op.id, setup.claimWindow, op.now)
  }

  /** Every claim that was granted. */
  function ClaimHistory(setup: Setup, ops: seq<Op>): seq<Entry> {
    if ops == [] then []
    else
      var before, op := ops[..|ops| - 1], ops[|ops| - 1];
      ClaimHistory(setup, before)
      + (if ClaimsNow(setup, Run(setup, before).files, op) then [Entry(op.now, "", op.id)] else [])
  }

  lemma ChecksKeepClaims(setup: Setup, s: State, op: Op)
    requires !op.ClaimOp? && (op.DeviceHalf? ==> NotClaims(op.check.kind, op.check.device))
    ensures ClaimsIn(FilesAfter(setup, s, op)) == ClaimsIn(s.files)
  {
    if Tried(s, op).Some? {
      var r := Tried(s, op).value;
      ChargeOnClaims(s.files, FileOf(r), LimitAt(setup, r.check.kind, r.half), WindowOf(setup, r.check.kind),
                     r.check.now);
    }
  }

  lemma ClaimOnClaims(files: Files, id: string, window: real, now: real)
    ensures ClaimsIn(AfterClaim(files, id, window, now)) == Claimed(ClaimsIn(files), id, window, now)
  {
    ClaimedLinesHold(Contents(files, CLAIM_FILE), id, window, now);
  }

  lemma ClaimsSnoc(attempts: seq<Attempt>, a: Attempt, window: real)
    ensures var c := RunClaims(attempts, window);
      RunClaims(attempts + [a], window) == Claims(Claimed(c.log, a.id, window, a.now),
        if Claimable(c.log, a.id, window, a.now) then c.history + [Entry(a.now, "", a.id)] else c.history)
  {
    assert (attempts + [a])[..|attempts|] == attempts;
  }

  /** Without that device, the claim file is the outcome of the claims alone. */
  lemma {:induction false} ClaimsAreUndisturbed(setup: Setup, ops: seq<Op>)
    requires NoIntruder(ops)
    ensures ClaimsIn(Run(setup, ops).files) == RunClaims(Attempts(ops), setup.claimWindow).log
    ensures ClaimHistory(setup, ops) == RunClaims(Attempts(ops), setup.claimWindow).history
  {
    if ops != [] {
      var before, op := ops[..|ops| - 1], ops[|ops| - 1];
      assert forall i :: 0 <= i < |before| ==> before[i] == ops[i];
      ClaimsAreUndisturbed(setup, before);
      assert Attempts(before) + [] == Attempts(before);
      assert ClaimHistory(setup, before) + [] == ClaimHistory(setup, before);
      if op.ClaimOp? {
        ClaimOnClaims(Run(setup, before).files, op.id, setup.claimWindow, op.now);
        ClaimsSnoc(Attempts(before), Attempt(op.id, op.now), setup.claimWindow);
      } else {
        ChecksKeepClaims(setup, Run(setup, before), op);
      }
    }
  }

  /** Beside any checks but that device's, every closed interval of the window less the
      lateness sees an identity claimed at most once. */
  lemma IdentitiesClaimedOncePerWindow(setup: Setup, ops: seq<Op>, skew: real, id: string)
    requires NoIntruder(ops) && skew >= 0.0 && LateBy(ClaimReadings(Attempts(ops)), skew)
    ensures Bounded(Times(ClaimHistory(setup, ops), OfId(id)), setup.claimWindow - skew, 1)
  {
    ClaimsAreUndisturbed(setup, ops);
    EachIdentityClaimedOncePerWindow(Attempts(ops), setup.claimWindow, skew, id);
  }

  lemma FirstClaim(setup: Setup, id: string, now: real)
    ensures ClaimsIn(Run(setup, [ClaimOp(id, now)]).files) == [Entry(now, "", id)]
    ensures Stamps(Run(setup, [ClaimOp(id, now)]).files, CLAIM_FILE) == []
    ensures ClaimHistory(setup, [ClaimOp(id, now)]) == [Entry(now, "", id)]
  {
    assert [] + [ClaimOp(id, now)] == [ClaimOp(id, now)];
    DirSnoc(setup, [], ClaimOp(id, now));
    assert KeptEntries([], now - setup.claimWindow) == [];
    assert [] + [Entry(now, "", id)] == [Entry(now, "", id)];
    ClaimOnClaims(map[], id, setup.claimWindow, now);
    ClaimedLinesHold([], id, setup.claimWindow, now);
  }

  lemma HistorySnoc(setup: Setup, ops: seq<Op>, op: Op)
    ensures ClaimHistory(setup, ops + [op]) == ClaimHistory(setup, ops) +
      (if ClaimsNow(setup, Run(setup, ops).files, op) then [Entry(op.now, "", op.id)] else [])
  {
    assert (ops + [op])[..|ops|] == ops;
  }

  lemma DeviceHalfWipes(setup: Setup, s: State, now: real)
    requires Stamps(s.files, CLAIM_FILE) == []
    ensures ClaimsIn(FilesAfter(setup, s, DeviceHalf(0, Check(Events, "idempotency", now)))) == []
  {
    ChargeOnClaims(s.files, CLAIM_FILE, LimitAt(setup, Events, AtDevice), WindowOf(setup, Events), now);
  }

  lemma WipedThenClaimed(setup: Setup, ops: seq<Op>, checked: real, now: real)
    requires Stamps(Run(setup, ops).files, CLAIM_FILE) == []
    ensures ClaimHistory(setup, ops + [DeviceHalf(0, Check(Events, "idempotency", checked))] + [ClaimOp("a", now)]) ==
      ClaimHistory(setup, ops) + [Entry(now, "", "a")]
  {
    var half := DeviceHalf(0, Check(Events, "idempotency", checked));
    DirSnoc(setup, ops, half);
    DeviceHalfWipes(setup, Run(setup, ops), checked);
    HistorySnoc(setup, ops, half);
    HistorySnoc(setup, ops + [half], ClaimOp("a", now));
    assert ClaimHistory(setup, ops) + [] == ClaimHistory(setup, ops);
  }

  /** With it, the first half of one event-run check wipes the claims: whatever the windows are,
      an identity is claimed twice within two seconds. */
  lemma OneCheckWipesTheClaims(setup: Setup)
    ensures var half := DeviceHalf(0, Check(Events, "idempotency", 1.0));
      var ops := [ClaimOp("a", 0.0)] + [half] + [ClaimOp("a", 2.0)];
      ClaimHistory(setup, ops) == [Entry(0.0, "", "a"), Entry(2.0, "", "a")]
  {
    FirstClaim(setup, "a", 0.0);
    WipedThenClaimed(setup, [ClaimOp("a", 0.0)], 1.0, 2.0);
  }

  lemma EmptyFileAndOneStampGrant(files: Files, limits: Limits, now: real, earlier: real)
    requires Stamps(files, CLAIM_FILE) == [] && Stamps(files, FabricLog(Events)) == [earlier]
    requires limits.fabric >= 2
    ensures CheckVerdict(files, Events, limits, "idempotency", now).Granted?
  {
    CheckOnOneFile(files, Events, limits, "idempotency", now, FabricLog(Events));
    KeptShrinks([earlier], now - limits.window, now - limits.window);
  }

  lemma ClaimWipesTheDevice(files: Files, window: real, now: real)
    requires ClaimsIn(files) == []
    ensures var after := AfterClaim(files, "a", window, now);
      Stamps(after, CLAIM_FILE) == [] && Stamps(after, FabricLog(Events)) == Stamps(files, FabricLog(Events))
  {
    ClaimedLinesHold(Contents(files, CLAIM_FILE), "a", window, now);
    assert KeptEntries([], now - window) == [];
  }

  /** After a run that left one stamp of the fabric and no claims, a claim lets that device in
      whatever it had used. */
  lemma ClaimThenCheck(setup: Setup, ops: seq<Op>, stamp: real, claimed: real, check: Check)
    requires setup.events.fabric >= 2 && check.kind == Events && check.device == "idempotency"
    requires Stamps(Run(setup, ops).files, FabricLog(Events)) == [stamp] && ClaimsIn(Run(setup, ops).files) == []
    ensures Run(setup, ops + [ClaimOp("a", claimed)] + [DeviceHalf(1, check)] + [FabricHalf(1)]).records ==
      Run(setup, ops).records + [Record(AtDevice, check)] + [Record(AtFabric, check)]
  {
    var next := ops + [ClaimOp("a", claimed)];
    DirSnoc(setup, ops, ClaimOp("a", claimed));
    ClaimWipesTheDevice(Run(setup, ops).files, setup.claimWindow, claimed);
    EmptyFileAndOneStampGrant(Run(setup, next).files, setup.events, check.now, stamp);
    WholeCheckAfter(setup, next, 1, check);
  }

  lemma FirstRecords(setup: Setup, check: Check)
    requires LimitsOf(setup, check.kind).window >= 0.0 && check.device != "fabric"
    ensures Run(setup, WholeCheck(0, check)).records == [Record(AtDevice, check), Record(AtFabric, check)]
  {
    assert [] + [DeviceHalf(0, check)] == [DeviceHalf(0, check)];
    WholeCheckAfter(setup, [], 0, check);
    FirstCallIsGranted(check.kind, LimitsOf(setup, check.kind), check.device, check.now);
  }

  lemma GrantsBesidesAClaim(setup: Setup, ops: seq<Op>, first: Check, stamp: real, claimed: real, again: Check)
    requires setup.events.fabric >= 2 && again.kind == Events && again.device == "idempotency"
    requires first.kind == Events && first.device == "idempotency"
    requires Run(setup, ops).records == [Record(AtDevice, first), Record(AtFabric, first)]
    requires Stamps(Run(setup, ops).files, FabricLog(Events)) == [stamp] && ClaimsIn(Run(setup, ops).files) == []
    ensures Seen(Run(setup, ops + [ClaimOp("a", claimed)] + [DeviceHalf(1, again)] + [FabricHalf(1)]).records,
                 GrantedTo(Events, "idempotency")) == [first.now, again.now]
  {
    ClaimThenCheck(setup, ops, stamp, claimed, again);
    TwoGrantsSeen(first, again);
  }

  lemma TwoGrantsSeen(first: Check, again: Check)
    requires again.kind == first.kind == Events && again.device == first.device == "idempotency"
    ensures Seen([Record(AtDevice, first), Record(AtFabric, first)] + [Record(AtDevice, again)]
                   + [Record(AtFabric, again)], GrantedTo(Events, "idempotency")) == [first.now, again.now]
  {
    var x, y := Record(AtDevice, first), Record(AtFabric, first);
    var z, w := Record(AtDevice, again), Record(AtFabric, again);
    assert [x, y] + [z] + [w] == [x, y, z, w];
    FourRecords(x, y, z, w, GrantedTo(Events, "idempotency"));
  }

  /** And a claim resets that device's budget: even under a device limit of one, two event runs
      are granted to it within two seconds, whatever the window. */
  lemma OneClaimResetsThatDevice(setup: Setup)
    requires setup.events.window >= 0.0 && setup.events.fabric >= 2
    ensures var first, again := Check(Events, "idempotency", 0.0), Check(Events, "idempotency", 2.0);
      var ops := WholeCheck(0, first) + [ClaimOp("a", 1.0)] + [DeviceHalf(1, again)] + [FabricHalf(1)];
      Seen(Run(setup, ops).records, GrantedTo(Events, "idempotency")) == [0.0, 2.0]
  {
    var first, again := Check(Events, "idempotency", 0.0), Check(Events, "idempotency", 2.0);
    FirstCheck(setup, first);
    FirstRecords(setup, first);
    GrantsBesidesAClaim(setup, WholeCheck(0, first), first, 0.0, 1.0, again);
  }
}
