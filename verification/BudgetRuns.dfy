/** Runs of the budgets and the claims, taken apart into their locked sections. A check reads
    the clock, locks its device's file, and later locks the fabric's file; between the two,
    anything may happen to any file. */
module BudgetRuns {
  import opened Budgets
  import opened Common
  import opened RateWindow
  import opened SlidingLog

  /** One call: its budget, its sanitised device, and its one clock reading. */
  datatype Check = Check(kind: Kind, device: string, now: real)

  datatype Half = AtDevice | AtFabric

  /** A stamp that a half of a check wrote. A check with a record at the fabric was granted. */
  datatype Record = Record(half: Half, check: Check)

  datatype Op =
    | DeviceHalf(p: nat, check: Check)
    | FabricHalf(p: nat)
    | ClaimOp(id: string, now: real)

  /** `pending` are the checks admitted by their device's file that have not locked the
      fabric's file yet; one whose process died stays there. */
  datatype State = State(files: Files, pending: map<nat, Check>, records: seq<Record>)

  const EMPTY := State(map[], map[], [])

  function FileOf(r: Record): LogFile {
    if r.half.AtDevice? then DeviceLog(r.check.kind, r.check.device) else FabricLog(r.check.kind)
  }

  function WindowOf(setup: Setup, kind: Kind): real {
    LimitsOf(setup, kind).window
  }

  function LimitAt(setup: Setup, kind: Kind, half: Half): int {
    var limits := LimitsOf(setup, kind);
    AtLeastOne(if half.AtDevice? then limits.device else limits.fabric)
  }

  /** The stamp an operation is about to check and record, if it is half of a check. */
  function Tried(s: State, op: Op): Option<Record> {
    match op
    case DeviceHalf(_, check) => Some(Record(AtDevice, check))
    case FabricHalf(p) => if p in s.pending then Some(Record(AtFabric, s.pending[p])) else None
    case ClaimOp(_, _) => None
  }

  predicate Fits(setup: Setup, files: Files, r: Record) {
    Admits(Stamps(files, FileOf(r)), LimitAt(setup, r.check.kind, r.half), WindowOf(setup, r.check.kind), r.check.now)
  }

  predicate Writes(setup: Setup, s: State, op: Op) {
    Tried(s, op).Some? && Fits(setup, s.files, Tried(s, op).value)
  }

  function Locked(setup: Setup, files: Files, r: Record): Files {
    Charged(files, FileOf(r), LimitAt(setup, r.check.kind, r.half), WindowOf(setup, r.check.kind), r.check.now)
  }

  function FilesAfter(setup: Setup, s: State, op: Op): Files {
    if op.ClaimOp? then AfterClaim(s.files, op.id, setup.claimWindow, op.now)
    else if Tried(s, op).Some? then Locked(setup, s.files, Tried(s, op).value)
    else s.files
  }

  function PendingAfter(s: State, op: Op, writes: bool): map<nat, Check> {
    match op
    case DeviceHalf(p, check) => if writes then s.pending[p := check] else s.pending - {p}
    case FabricHalf(p) => s.pending - {p}
    case ClaimOp(_, _) => s.pending
  }

  function RecordsAfter(s: State, op: Op, writes: bool): seq<Record> {
    if writes && Tried(s, op).Some? then s.records + [Tried(s, op).value] else s.records
  }

  function Apply(setup: Setup, s: State, op: Op): State {
    var writes := Writes(setup, s, op);
    State(FilesAfter(setup, s, op), PendingAfter(s, op, writes), RecordsAfter(s, op, writes))
  }

  function Run(setup: Setup, ops: seq<Op>): State {
    if ops == [] then EMPTY else Apply(setup, Run(setup, ops[..|ops| - 1]), ops[|ops| - 1])
  }

  lemma DirSnoc(setup: Setup, ops: seq<Op>, op: Op)
    ensures Run(setup, ops + [op]) == Apply(setup, Run(setup, ops), op)
  {
    assert (ops + [op])[..|ops|] == ops;
  }

  lemma DeviceHalfAlone(setup: Setup, s: State, p: nat, check: Check)
    ensures var t, limits := Apply(setup, s, DeviceHalf(p, check)), LimitsOf(setup, check.kind);
      && t.files == AfterDevice(s.files, check.kind, limits, check.device, check.now)
      && if DeviceRefuses(s.files, check.kind, limits, check.device, check.now)
         then p !in t.pending && t.records == s.records
         else p in t.pending && t.pending[p] == check && t.records == s.records + [Record(AtDevice, check)]
  {
  }

  lemma FabricHalfAlone(setup: Setup, s: State, p: nat)
    ensures p !in s.pending ==> Apply(setup, s, FabricHalf(p)) == s.(pending := s.pending - {p})
    ensures p in s.pending ==> var r, t := Record(AtFabric, s.pending[p]), Apply(setup, s, FabricHalf(p));
      t.files == Locked(setup, s.files, r)
      && t.records == if Fits(setup, s.files, r) then s.records + [r] else s.records
  {
  }

  /** When nothing comes between its halves, a check does what the whole routine does. */
  lemma UninterruptedCheck(setup: Setup, s: State, p: nat, check: Check)
    ensures var limits := LimitsOf(setup, check.kind);
      var t := Apply(setup, Apply(setup, s, DeviceHalf(p, check)), FabricHalf(p));
      var verdict := CheckVerdict(s.files, check.kind, limits, check.device, check.now);
      && t.files == AfterCheck(s.files, check.kind, limits, check.device, check.now)
      && t.records == s.records + (if verdict.DeviceExhausted? then [] else [Record(AtDevice, check)])
                    + (if verdict.Granted? then [Record(AtFabric, check)] else [])
  {
    var u, limits := Apply(setup, s, DeviceHalf(p, check)), LimitsOf(setup, check.kind);
    DeviceHalfAlone(setup, s, p, check);
    FabricHalfAlone(setup, u, p);
    if !DeviceRefuses(s.files, check.kind, limits, check.device, check.now) {
      FabricHalfIsTheSecondCharge(setup, s.files, u.files, check);
    }
  }

  lemma FabricHalfIsTheSecondCharge(setup: Setup, files: Files, charged: Files, check: Check)
    requires var limits := LimitsOf(setup, check.kind);
      && charged == AfterDevice(files, check.kind, limits, check.device, check.now)
      && !DeviceRefuses(files, check.kind, limits, check.device, check.now)
    ensures var limits, r := LimitsOf(setup, check.kind), Record(AtFabric, check);
      && AfterCheck(files, check.kind, limits, check.device, check.now) == Locked(setup, charged, r)
      && CheckVerdict(files, check.kind, limits, check.device, check.now) ==
           if Fits(setup, charged, r) then Granted else FabricExhausted
  {
  }

  // ------------------------------------------------------------------
  // Reading the records
  // ------------------------------------------------------------------

  /** Some of the records: those in one file, those a device's own budget admitted, those
      granted, and those granted to one device. */
  datatype View =
    | InFile(path: LogFile)
    | DeviceSide(kind: Kind, device: string)
    | FabricSide(kind: Kind)
    | GrantedTo(kind: Kind, device: string)

  predicate Shows(v: View, r: Record) {
    match v
    case InFile(path) => FileOf(r) == path
    case DeviceSide(kind, device) => r.half.AtDevice? && r.check.kind == kind && r.check.device == device
    case FabricSide(kind) => r.half.AtFabric? && r.check.kind == kind
    case GrantedTo(kind, device) => r.half.AtFabric? && r.check.kind == kind && r.check.device == device
  }

  /** The stamps of the records in view, in the order in which they were written. */
  function Seen(records: seq<Record>, v: View): seq<real> {
    if records == [] then []
    else
      var last := records[|records| - 1];
      Seen(records[..|records| - 1], v) + (if Shows(v, last) then [last.check.now] else [])
  }

  lemma SeenSnoc(records: seq<Record>, r: Record, v: View)
    ensures Seen(records + [r], v) == if Shows(v, r) then Seen(records, v) + [r.check.now] else Seen(records, v)
  {
    assert (records + [r])[..|records|] == records;
  }

  /** The stamp an operation would add to a view. */
  predicate Adds(s: State, op: Op, v: View) {
    Tried(s, op).Some? && Shows(v, Tried(s, op).value)
  }

  function StampOf(s: State, op: Op): real {
    if Tried(s, op).Some? then Tried(s, op).value.check.now else 0.0
  }

  lemma SeenAfter(s: State, op: Op, writes: bool, v: View)
    ensures Seen(RecordsAfter(s, op, writes), v) ==
      if writes && Adds(s, op, v) then Seen(s.records, v) + [StampOf(s, op)] else Seen(s.records, v)
  {
    if Tried(s, op).Some? {
      SeenSnoc(s.records, Tried(s, op).value, v);
    }
  }

  /** A view whose records are all in another. */
  predicate Inside(v: View, w: View) {
    match v
    case InFile(_) => v == w
    case DeviceSide(kind, device) => v == w || w == InFile(DeviceLog(kind, device))
    case FabricSide(kind) => v == w || w == InFile(FabricLog(kind))
    case GrantedTo(kind, _) => v == w || w == FabricSide(kind) || w == InFile(FabricLog(kind))
  }

  lemma {:induction false} NarrowerView(records: seq<Record>, v: View, w: View, cutoff: real)
    requires Inside(v, w)
    ensures |Kept(Seen(records, v), cutoff)| <= |Kept(Seen(records, w), cutoff)|
    ensures forall t :: t in Seen(records, v) ==> t in Seen(records, w)
  {
    if records != [] {
      var front, last := records[..|records| - 1], records[|records| - 1];
      assert records == front + [last];
      NarrowerView(front, v, w, cutoff);
      SeenSnoc(front, last, v);
      SeenSnoc(front, last, w);
      KeptSnoc(Seen(front, v), last.check.now, cutoff);
      KeptSnoc(Seen(front, w), last.check.now, cutoff);
    }
  }

  // ------------------------------------------------------------------
  // Every file covers what was recorded in it
  // ------------------------------------------------------------------

  /** A log after a stamp is written to it, or not. */
  function Stamped(log: seq<real>, writes: bool, window: real, now: real): seq<real> {
    if writes then Kept(log, now - window) + [now] else log
  }

  lemma LockedOnOneFile(setup: Setup, files: Files, r: Record, fits: bool, path: LogFile)
    requires fits == Fits(setup, files, r)
    ensures Stamps(Locked(setup, files, r), path) ==
      Stamped(Stamps(files, path), fits && FileOf(r) == path, WindowOf(setup, path.kind), r.check.now)
  {
    ChargeOnOneFile(files, FileOf(r), LimitAt(setup, r.check.kind, r.half), WindowOf(setup, r.check.kind), r.check.now,
                    path);
  }

  lemma NoLockNoChange(setup: Setup, s: State, op: Op, path: LogFile)
    requires path != CLAIM_FILE && Tried(s, op).None?
    ensures Stamps(FilesAfter(setup, s, op), path) == Stamps(s.files, path)
  {
    assert Contents(FilesAfter(setup, s, op), path) == Contents(s.files, path);
  }

  /** An operation on the stamps of one file, other than the claims'. */
  lemma OnOneFile(setup: Setup, s: State, op: Op, path: LogFile, writes: bool)
    requires path != CLAIM_FILE && writes == Writes(setup, s, op)
    ensures Stamps(FilesAfter(setup, s, op), path) ==
      Stamped(Stamps(s.files, path), writes && Adds(s, op, InFile(path)), WindowOf(setup, path.kind), StampOf(s, op))
  {
    if Tried(s, op).Some? {
      LockedOnOneFile(setup, s.files, Tried(s, op).value, writes, path);
    } else {
      NoLockNoChange(setup, s, op, path);
    }
  }

  /** A file has every stamp recorded in it that a later check can still count. */
  ghost predicate FileCovers(setup: Setup, files: Files, records: seq<Record>, path: LogFile) {
    Covers(Stamps(files, path), Seen(records, InFile(path)), Seen(records, InFile(path)),
           WindowOf(setup, path.kind))
  }

  /** A stamp written both to a log and to what was ever seen in it, or to neither. */
  lemma StampKeepsCover(log: seq<real>, seen: seq<real>, logAfter: seq<real>, seenAfter: seq<real>, writes: bool,
                        window: real, now: real)
    requires Covers(log, seen, seen, window)
    requires logAfter == Stamped(log, writes, window, now)
    requires seenAfter == (if writes then seen + [now] else seen)
    ensures Covers(logAfter, seenAfter, seenAfter, window)
  {
    WriteKeepsCover(log, seen, seen, window, now);
  }

  lemma OpKeepsCover(setup: Setup, s: State, op: Op, path: LogFile, writes: bool)
    requires path != CLAIM_FILE && FileCovers(setup, s.files, s.records, path) && writes == Writes(setup, s, op)
    ensures FileCovers(setup, FilesAfter(setup, s, op), RecordsAfter(s, op, writes), path)
  {
    OnOneFile(setup, s, op, path, writes);
    SeenAfter(s, op, writes, InFile(path));
    StampKeepsCover(Stamps(s.files, path), Seen(s.records, InFile(path)), Stamps(FilesAfter(setup, s, op), path),
                    Seen(RecordsAfter(s, op, writes), InFile(path)), writes && Adds(s, op, InFile(path)),
                    WindowOf(setup, path.kind), StampOf(s, op));
  }

  /** However the halves interleave, every file but the claims' covers what was recorded in it. */
  lemma {:induction false} FilesCoverTheirRecords(setup: Setup, ops: seq<Op>, path: LogFile)
    requires path != CLAIM_FILE
    ensures FileCovers(setup, Run(setup, ops).files, Run(setup, ops).records, path)
  {
    if ops != [] {
      var s, op := Run(setup, ops[..|ops| - 1]), ops[|ops| - 1];
      FilesCoverTheirRecords(setup, ops[..|ops| - 1], path);
      OpKeepsCover(setup, s, op, path, Writes(setup, s, op));
    }
  }

  // ------------------------------------------------------------------
  // What one budget admitted is bounded
  // ------------------------------------------------------------------

  /** What was admitted by one budget, be it a device's own or the fabric's. */
  predicate OneBudget(v: View) {
    v.DeviceSide? || v.FabricSide?
  }

  function Home(v: View): LogFile
    requires OneBudget(v)
  {
    if v.DeviceSide? then DeviceLog(v.kind, v.device) else FabricLog(v.kind)
  }

  function LimitOf(setup: Setup, v: View): int
    requires OneBudget(v)
  {
    LimitAt(setup, v.kind, if v.DeviceSide? then AtDevice else AtFabric)
  }

  /** The lateness in a file bounds that of its earlier stamps, and of the one just written. */
  lemma LatenessBefore(s: State, op: Op, writes: bool, path: LogFile, skew: real)
    requires LateBy(Seen(RecordsAfter(s, op, writes), InFile(path)), skew)
    ensures LateBy(Seen(s.records, InFile(path)), skew)
    ensures writes && Adds(s, op, InFile(path)) ==>
      forall t :: t in Seen(s.records, InFile(path)) ==> StampOf(s, op) >= t - skew
  {
    SeenAfter(s, op, writes, InFile(path));
    if writes && Adds(s, op, InFile(path)) {
      LateByBefore(Seen(s.records, InFile(path)), StampOf(s, op), skew);
    }
  }

  lemma {:induction false} BudgetBounds(setup: Setup, ops: seq<Op>, v: View, skew: real)
    requires OneBudget(v) && Home(v) != CLAIM_FILE
    requires skew >= 0.0 && LateBy(Seen(Run(setup, ops).records, InFile(Home(v))), skew)
    ensures Bounded(Seen(Run(setup, ops).records, v), WindowOf(setup, v.kind) - skew, LimitOf(setup, v))
  {
    if ops != [] {
      var s, op := Run(setup, ops[..|ops| - 1]), ops[|ops| - 1];
      var writes := Writes(setup, s, op);
      LatenessBefore(s, op, writes, Home(v), skew);
      BudgetBounds(setup, ops[..|ops| - 1], v, skew);
      SeenAfter(s, op, writes, v);
      if writes && Adds(s, op, v) {
        FilesCoverTheirRecords(setup, ops[..|ops| - 1], Home(v));
        AdmittedBudgetBounds(setup, s, Tried(s, op).value, v, skew);
      }
    }
  }

  lemma AdmittedBudgetBounds(setup: Setup, s: State, r: Record, v: View, skew: real)
    requires OneBudget(v) && Shows(v, r) && Fits(setup, s.files, r)
    requires FileCovers(setup, s.files, s.records, Home(v))
    requires forall t :: t in Seen(s.records, InFile(Home(v))) ==> r.check.now >= t - skew
    requires skew >= 0.0 && Bounded(Seen(s.records, v), WindowOf(setup, v.kind) - skew, LimitOf(setup, v))
    ensures Bounded(Seen(s.records, v) + [r.check.now], WindowOf(setup, v.kind) - skew, LimitOf(setup, v))
  {
    var log, seen, window := Stamps(s.files, Home(v)), Seen(s.records, InFile(Home(v))), WindowOf(setup, v.kind);
    forall cutoff | Settled(cutoff, seen, window)
      ensures |Kept(Seen(s.records, v), cutoff)| <= |Kept(log, cutoff)|
    {
      NarrowerView(s.records, v, InFile(Home(v)), cutoff);
    }
    forall i | 0 <= i < |seen| ensures r.check.now >= seen[i] - skew {
      assert seen[i] in seen;
    }
    AdmissionKeepsBound(log, Seen(s.records, v), seen, window, skew, LimitOf(setup, v), r.check.now);
  }

  // ------------------------------------------------------------------
  // What is granted was admitted by the device first
  // ------------------------------------------------------------------

  /** The device's pending checks with a reading in the interval. */
  function PendingIn(pending: map<nat, Check>, kind: Kind, device: string, lo: real, hi: real): set<nat> {
    set p | p in pending && pending[p].kind == kind && pending[p].device == device && lo <= pending[p].now <= hi
  }

  /** How much of the device's limit is used within an interval: what was granted to it, and
      its checks that are between their halves. */
  function UsedWithin(records: seq<Record>, pending: map<nat, Check>, kind: Kind, device: string, lo: real,
                      hi: real): nat {
    CountIn(Seen(records, GrantedTo(kind, device)), lo, hi) + |PendingIn(pending, kind, device, lo, hi)|
  }

  /** One more in the count when a stamp is written that is in view and in the interval. */
  lemma CountAfter(s: State, op: Op, writes: bool, v: View, lo: real, hi: real)
    ensures CountIn(Seen(RecordsAfter(s, op, writes), v), lo, hi) == CountIn(Seen(s.records, v), lo, hi)
        + (if writes && Adds(s, op, v) && lo <= StampOf(s, op) <= hi then 1 else 0)
  {
    SeenAfter(s, op, writes, v);
    CountSnoc(Seen(s.records, v), StampOf(s, op), lo, hi);
  }

  lemma BesidesOne(a: set<nat>, b: set<nat>, p: nat)
    requires a - {p} == b - {p}
    ensures |b| - (if p in b then 1 else 0) == |a| - (if p in a then 1 else 0)
  {
    assert a == (a - {p}) + (if p in a then {p} else {});
    assert b == (b - {p}) + (if p in b then {p} else {});
  }

  /** Only `p`'s entry changed. */
  lemma PendingChanges(pending: map<nat, Check>, after: map<nat, Check>, p: nat, kind: Kind, device: string,
                       lo: real, hi: real)
    requires forall q :: q != p ==> (q in pending <==> q in after)
    requires forall q :: q != p && q in pending ==> pending[q] == after[q]
    ensures var a, b := PendingIn(pending, kind, device, lo, hi), PendingIn(after, kind, device, lo, hi);
      |b| - (if p in b then 1 else 0) == |a| - (if p in a then 1 else 0)
  {
    BesidesOne(PendingIn(pending, kind, device, lo, hi), PendingIn(after, kind, device, lo, hi), p);
  }

  /** A device half puts at most its own check between its halves. */
  lemma DeviceHalfPending(s: State, op: Op, writes: bool, kind: Kind, device: string, lo: real, hi: real)
    requires op.DeviceHalf?
    ensures |PendingIn(PendingAfter(s, op, writes), kind, device, lo, hi)|
      <= |PendingIn(s.pending, kind, device, lo, hi)|
      + if writes && Adds(s, op, DeviceSide(kind, device)) && lo <= StampOf(s, op) <= hi then 1 else 0
  {
    PendingChanges(s.pending, PendingAfter(s, op, writes), op.p, kind, device, lo, hi);
  }

  lemma DeviceHalfUses(s: State, op: Op, writes: bool, kind: Kind, device: string, lo: real, hi: real)
    requires op.DeviceHalf?
    ensures UsedWithin(RecordsAfter(s, op, writes), PendingAfter(s, op, writes), kind, device, lo, hi)
      <= UsedWithin(s.records, s.pending, kind, device, lo, hi)
         + (if writes && Adds(s, op, DeviceSide(kind, device)) && lo <= StampOf(s, op) <= hi then 1 else 0)
  {
    CountAfter(s, op, writes, GrantedTo(kind, device), lo, hi);
    DeviceHalfPending(s, op, writes, kind, device, lo, hi);
  }

  /** A fabric half takes away the check that it may grant. */
  lemma FabricHalfPending(s: State, op: Op, writes: bool, kind: Kind, device: string, lo: real, hi: real)
    requires op.FabricHalf?
    ensures |PendingIn(PendingAfter(s, op, writes), kind, device, lo, hi)|
      + (if Adds(s, op, GrantedTo(kind, device)) && lo <= StampOf(s, op) <= hi then 1 else 0)
      <= |PendingIn(s.pending, kind, device, lo, hi)|
  {
    PendingChanges(s.pending, PendingAfter(s, op, writes), op.p, kind, device, lo, hi);
  }

  lemma FabricHalfUses(s: State, op: Op, writes: bool, kind: Kind, device: string, lo: real, hi: real)
    requires op.FabricHalf?
    ensures UsedWithin(RecordsAfter(s, op, writes), PendingAfter(s, op, writes), kind, device, lo, hi)
      <= UsedWithin(s.records, s.pending, kind, device, lo, hi)
  {
    CountAfter(s, op, writes, GrantedTo(kind, device), lo, hi);
    FabricHalfPending(s, op, writes, kind, device, lo, hi);
  }

  /** The device's own budget admitted everything of its limit that is used. */
  predicate Passed(records: seq<Record>, pending: map<nat, Check>, kind: Kind, device: string, lo: real, hi: real) {
    UsedWithin(records, pending, kind, device, lo, hi) <= CountIn(Seen(records, DeviceSide(kind, device)), lo, hi)
  }

  lemma OpKeepsGrantsPassed(s: State, op: Op, writes: bool, kind: Kind, device: string, lo: real, hi: real)
    requires Passed(s.records, s.pending, kind, device, lo, hi)
    ensures Passed(RecordsAfter(s, op, writes), PendingAfter(s, op, writes), kind, device, lo, hi)
  {
    CountAfter(s, op, writes, DeviceSide(kind, device), lo, hi);
    match op
    case DeviceHalf(_, _) => DeviceHalfUses(s, op, writes, kind, device, lo, hi);
    case FabricHalf(_) => FabricHalfUses(s, op, writes, kind, device, lo, hi);
    case ClaimOp(_, _) =>
  }

  /** In every interval, a device's own budget admitted everything that was granted to it and
      everything of it that is still between its halves. */
  lemma {:induction false} GrantsPassedTheirDevice(setup: Setup, ops: seq<Op>, kind: Kind, device: string,
                                                   lo: real, hi: real)
    ensures Passed(Run(setup, ops).records, Run(setup, ops).pending, kind, device, lo, hi)
  {
    if ops != [] {
      var s, op := Run(setup, ops[..|ops| - 1]), ops[|ops| - 1];
      GrantsPassedTheirDevice(setup, ops[..|ops| - 1], kind, device, lo, hi);
      OpKeepsGrantsPassed(s, op, Writes(setup, s, op), kind, device, lo, hi);
    }
  }

  lemma FewerGrantsThanAdmitted(setup: Setup, ops: seq<Op>, kind: Kind, device: string, span: real, limit: int)
    requires Bounded(Seen(Run(setup, ops).records, DeviceSide(kind, device)), span, limit)
    ensures Bounded(Seen(Run(setup, ops).records, GrantedTo(kind, device)), span, limit)
  {
    forall lo, hi | lo <= hi <= lo + span
      ensures CountIn(Seen(Run(setup, ops).records, GrantedTo(kind, device)), lo, hi) <= limit
    {
      GrantsPassedTheirDevice(setup, ops, kind, device, lo, hi);
    }
  }

  // ------------------------------------------------------------------
  // The budgets hold
  // ------------------------------------------------------------------

  /** This record is a grant of the kind, to that device or to any, stamped in the interval. */
  predicate IsGrant(r: Record, kind: Kind, to: Option<string>, lo: real, hi: real) {
    && r.half == AtFabric && r.check.kind == kind && (to == None || to == Some(r.check.device))
    && lo <= r.check.now <= hi
  }

  /** The grants of a kind, to one device or to all, stamped in an interval: where their
      records stand. */
  ghost function Grants(records: seq<Record>, kind: Kind, to: Option<string>, lo: real, hi: real): set<nat> {
    set i: nat | i < |records| && IsGrant(records[i], kind, to, lo, hi)
  }

  function GrantsView(kind: Kind, to: Option<string>): View {
    if to.Some? then GrantedTo(kind, to.value) else FabricSide(kind)
  }

  lemma GrantsSnoc(records: seq<Record>, r: Record, kind: Kind, to: Option<string>, lo: real, hi: real)
    ensures |Grants(records + [r], kind, to, lo, hi)| == |Grants(records, kind, to, lo, hi)|
      + if IsGrant(r, kind, to, lo, hi) then 1 else 0
  {
    var all, before, after := records + [r], Grants(records, kind, to, lo, hi), Grants(records + [r], kind, to, lo, hi);
    forall i: nat ensures i in after <==> i in before || (IsGrant(r, kind, to, lo, hi) && i == |records|) {
      if i < |records| {
        assert all[i] == records[i];
      }
    }
    OneMore(before, after, |records|, IsGrant(r, kind, to, lo, hi));
  }

  lemma GrantsAreInView(r: Record, kind: Kind, to: Option<string>, lo: real, hi: real)
    ensures IsGrant(r, kind, to, lo, hi) <==> Shows(GrantsView(kind, to), r) && lo <= r.check.now <= hi
  {
  }

  lemma ViewSnoc(records: seq<Record>, r: Record, v: View, lo: real, hi: real)
    ensures CountIn(Seen(records + [r], v), lo, hi) == CountIn(Seen(records, v), lo, hi)
      + if Shows(v, r) && lo <= r.check.now <= hi then 1 else 0
  {
    SeenSnoc(records, r, v);
    CountSnoc(Seen(records, v), r.check.now, lo, hi);
  }

  lemma {:induction false} GrantsAreSeen(records: seq<Record>, kind: Kind, to: Option<string>, lo: real, hi: real)
    ensures CountIn(Seen(records, GrantsView(kind, to)), lo, hi) == |Grants(records, kind, to, lo, hi)|
  {
    if records == [] {
      assert Grants(records, kind, to, lo, hi) == {};
    } else {
      var front, last := records[..|records| - 1], records[|records| - 1];
      GrantsAreSeen(front, kind, to, lo, hi);
      GrantsSnoc(front, last, kind, to, lo, hi);
      GrantsAreInView(last, kind, to, lo, hi);
      ViewSnoc(front, last, GrantsView(kind, to), lo, hi);
      assert records == front + [last];
    }
  }

  lemma BoundedGrants(records: seq<Record>, kind: Kind, to: Option<string>, span: real, limit: int)
    requires Bounded(Seen(records, GrantsView(kind, to)), span, limit)
    ensures forall lo, hi :: lo <= hi <= lo + span ==> |Grants(records, kind, to, lo, hi)| <= limit
  {
    forall lo, hi | lo <= hi <= lo + span ensures |Grants(records, kind, to, lo, hi)| <= limit {
      GrantsAreSeen(records, kind, to, lo, hi);
    }
  }

  /** Over every interleaving of the halves of checks of both kinds with claims, what was
      granted of a kind meets the fabric limit, and the device limit of every device but the
      one whose event log is the claim file, although a fabric refusal stays on the device's
      account. Each bound loses the lateness of the stamps in its own file, in the order in
      which that file was locked. */
  lemma BudgetsHoldInEveryRun(setup: Setup, ops: seq<Op>, kind: Kind, device: string, skew: real)
    requires skew >= 0.0
    ensures var records, limits := Run(setup, ops).records, if kind.Probes? then setup.probes else setup.events;
      && (LateBy(Seen(records, InFile(DeviceLog(kind, "fabric"))), skew) ==>
            forall lo, hi :: lo <= hi <= lo + (limits.window - skew) ==>
              |Grants(records, kind, None, lo, hi)| <= AtLeastOne(limits.fabric))
      && (NotClaims(kind, device) && LateBy(Seen(records, InFile(DeviceLog(kind, device))), skew) ==>
            forall lo, hi :: lo <= hi <= lo + (limits.window - skew) ==>
              |Grants(records, kind, Some(device), lo, hi)| <= AtLeastOne(limits.device))
  {
    var records := Run(setup, ops).records;
    if LateBy(Seen(records, InFile(FabricLog(kind))), skew) {
      ClaimFileIsADeviceLog(FabricLog(kind));
      BudgetBounds(setup, ops, FabricSide(kind), skew);
      BoundedGrants(records, kind, None, WindowOf(setup, kind) - skew, LimitAt(setup, kind, AtFabric));
    }
    if NotClaims(kind, device) && LateBy(Seen(records, InFile(DeviceLog(kind, device))), skew) {
      BudgetBounds(setup, ops, DeviceSide(kind, device), skew);
      FewerGrantsThanAdmitted(setup, ops, kind, device, WindowOf(setup, kind) - skew, LimitAt(setup, kind, AtDevice));
      BoundedGrants(records, kind, Some(device), WindowOf(setup, kind) - skew, LimitAt(setup, kind, AtDevice));
    }
  }

  lemma StampKeepsTops(log: seq<real>, seen: seq<real>, logAfter: seq<real>, seenAfter: seq<real>, writes: bool,
                       window: real, now: real)
    requires Tops(log, seen) && window >= 0.0
    requires logAfter == Stamped(log, writes, window, now)
    requires seenAfter == (if writes then seen + [now] else seen)
    ensures Tops(logAfter, seenAfter)
  {
    WriteKeepsTops(log, seen, window, now);
  }

  lemma OpKeepsTops(setup: Setup, s: State, op: Op, path: LogFile, writes: bool)
    requires path != CLAIM_FILE && WindowOf(setup, path.kind) >= 0.0 && writes == Writes(setup, s, op)
    requires Tops(Stamps(s.files, path), Seen(s.records, InFile(path)))
    ensures Tops(Stamps(FilesAfter(setup, s, op), path), Seen(RecordsAfter(s, op, writes), InFile(path)))
  {
    OnOneFile(setup, s, op, path, writes);
    SeenAfter(s, op, writes, InFile(path));
    StampKeepsTops(Stamps(s.files, path), Seen(s.records, InFile(path)), Stamps(FilesAfter(setup, s, op), path),
                   Seen(RecordsAfter(s, op, writes), InFile(path)), writes && Adds(s, op, InFile(path)),
                   WindowOf(setup, path.kind), StampOf(s, op));
  }

  /** Nothing recorded in a file is later than everything still in it. */
  lemma {:induction false} FilesTopTheirRecords(setup: Setup, ops: seq<Op>, path: LogFile)
    requires path != CLAIM_FILE && WindowOf(setup, path.kind) >= 0.0
    ensures Tops(Stamps(Run(setup, ops).files, path), Seen(Run(setup, ops).records, InFile(path)))
  {
    if ops != [] {
      var s, op := Run(setup, ops[..|ops| - 1]), ops[|ops| - 1];
      FilesTopTheirRecords(setup, ops[..|ops| - 1], path);
      OpKeepsTops(setup, s, op, path, Writes(setup, s, op));
    }
  }

  lemma AdmittedAlone(setup: Setup, s: State, r: Record, v: View)
    requires OneBudget(v) && LimitOf(setup, v) == 1 && Shows(v, r) && Fits(setup, s.files, r)
    requires Tops(Stamps(s.files, Home(v)), Seen(s.records, InFile(Home(v))))
    requires Bounded(Seen(s.records, v), WindowOf(setup, v.kind), 1)
    ensures Bounded(Seen(s.records, v) + [r.check.now], WindowOf(setup, v.kind), 1)
  {
    NarrowerView(s.records, v, InFile(Home(v)), 0.0);
    LoneAdmissionKeepsBound(Stamps(s.files, Home(v)), Seen(s.records, v), WindowOf(setup, v.kind), r.check.now);
  }

  lemma {:induction false} LoneBudgetBounds(setup: Setup, ops: seq<Op>, v: View)
    requires OneBudget(v) && Home(v) != CLAIM_FILE && LimitOf(setup, v) == 1
    ensures Bounded(Seen(Run(setup, ops).records, v), WindowOf(setup, v.kind), 1)
  {
    if ops != [] && WindowOf(setup, v.kind) >= 0.0 {
      var s, op := Run(setup, ops[..|ops| - 1]), ops[|ops| - 1];
      LoneBudgetBounds(setup, ops[..|ops| - 1], v);
      SeenAfter(s, op, Writes(setup, s, op), v);
      if Writes(setup, s, op) && Adds(s, op, v) {
        FilesTopTheirRecords(setup, ops[..|ops| - 1], Home(v));
        AdmittedAlone(setup, s, Tried(s, op).value, v);
      }
    }
  }

  /** A limit of one holds for the whole window, whatever the clock does and however the
      halves interleave. */
  lemma LimitOfOneNeedsNoClock(setup: Setup, ops: seq<Op>, kind: Kind, device: string)
    ensures var records, limits := Run(setup, ops).records, if kind.Probes? then setup.probes else setup.events;
      && (limits.fabric <= 1 ==>
            forall lo, hi :: lo <= hi <= lo + limits.window ==> |Grants(records, kind, None, lo, hi)| <= 1)
      && (limits.device <= 1 && NotClaims(kind, device) ==>
            forall lo, hi :: lo <= hi <= lo + limits.window ==> |Grants(records, kind, Some(device), lo, hi)| <= 1)
  {
    ClaimFileIsADeviceLog(FabricLog(kind));
    if LimitAt(setup, kind, AtFabric) == 1 {
      LoneBudgetBounds(setup, ops, FabricSide(kind));
      BoundedGrants(Run(setup, ops).records, kind, None, WindowOf(setup, kind), 1);
    }
    if LimitAt(setup, kind, AtDevice) == 1 && NotClaims(kind, device) {
      LoneBudgetBounds(setup, ops, DeviceSide(kind, device));
      FewerGrantsThanAdmitted(setup, ops, kind, device, WindowOf(setup, kind), 1);
      BoundedGrants(Run(setup, ops).records, kind, Some(device), WindowOf(setup, kind), 1);
    }
  }

  lemma AdmittedFillTheFile(setup: Setup, s: State, kind: Kind, device: string, now: real)
    requires FileCovers(setup, s.files, s.records, DeviceLog(kind, device))
    requires forall t :: t in Seen(s.records, InFile(DeviceLog(kind, device))) ==> t <= now
    ensures var lo, log := now - WindowOf(setup, kind), Stamps(s.files, DeviceLog(kind, device));
      CountIn(Seen(s.records, DeviceSide(kind, device)), lo, now) <= |Kept(log, lo)|
  {
    var lo, seen := now - WindowOf(setup, kind), Seen(s.records, InFile(DeviceLog(kind, device)));
    CountWithinKept(Seen(s.records, DeviceSide(kind, device)), lo, now);
    NarrowerView(s.records, DeviceSide(kind, device), InFile(DeviceLog(kind, device)), lo);
    forall i | 0 <= i < |seen| ensures lo >= seen[i] - WindowOf(setup, kind) {
      assert seen[i] in seen;
    }
    assert Settled(lo, seen, WindowOf(setup, kind));
  }

  /** No stamp in the device's file is later than `now`. */
  ghost predicate UpToDate(records: seq<Record>, kind: Kind, device: string, now: real) {
    forall t :: t in Seen(records, InFile(DeviceLog(kind, device))) ==> t <= now
  }

  /** Once the device's limit is used up within the window before `now`, its file refuses. */
  predicate InTime(setup: Setup, s: State, kind: Kind, device: string, now: real) {
    var used := UsedWithin(s.records, s.pending, kind, device, now - WindowOf(setup, kind), now);
    used >= LimitAt(setup, kind, AtDevice) ==> DeviceRefuses(s.files, kind, LimitsOf(setup, kind), device, now)
  }

  lemma RefusesInTime(setup: Setup, s: State, kind: Kind, device: string, now: real)
    requires FileCovers(setup, s.files, s.records, DeviceLog(kind, device)) && UpToDate(s.records, kind, device, now)
    requires Passed(s.records, s.pending, kind, device, now - WindowOf(setup, kind), now)
    ensures InTime(setup, s, kind, device, now)
  {
    AdmittedFillTheFile(setup, s, kind, device, now);
  }

  ghost predicate Reachable(setup: Setup, s: State) {
    exists ops :: s == Run(setup, ops)
  }

  lemma WhatIsReachable(setup: Setup, s: State, kind: Kind, device: string, lo: real, hi: real)
    requires Reachable(setup, s) && NotClaims(kind, device)
    ensures Passed(s.records, s.pending, kind, device, lo, hi)
    ensures FileCovers(setup, s.files, s.records, DeviceLog(kind, device))
  {
    var ops :| s == Run(setup, ops);
    GrantsPassedTheirDevice(setup, ops, kind, device, lo, hi);
    FilesCoverTheirRecords(setup, ops, DeviceLog(kind, device));
  }

  /** The device budget is never late: in every reachable state, once what was granted to a
      device, with its checks between their halves, uses up its limit within the window, its
      file refuses. */
  lemma DeviceBudgetIsNeverLate(setup: Setup, s: State, kind: Kind, device: string, now: real)
    requires Reachable(setup, s) && NotClaims(kind, device) && UpToDate(s.records, kind, device, now)
    ensures InTime(setup, s, kind, device, now)
  {
    WhatIsReachable(setup, s, kind, device, now - WindowOf(setup, kind), now);
    RefusesInTime(setup, s, kind, device, now);
  }

  // ------------------------------------------------------------------
  // A check can be overtaken between its halves
  // ------------------------------------------------------------------

  /** A file has at most the stamps ever recorded in it. */
  predicate NoLonger(files: Files, records: seq<Record>, path: LogFile) {
    |Stamps(files, path)| <= |Seen(records, InFile(path))|
  }

  lemma OpKeepsSize(setup: Setup, s: State, op: Op, path: LogFile, writes: bool)
    requires path != CLAIM_FILE && writes == Writes(setup, s, op) && NoLonger(s.files, s.records, path)
    ensures NoLonger(FilesAfter(setup, s, op), RecordsAfter(s, op, writes), path)
  {
    OnOneFile(setup, s, op, path, writes);
    SeenAfter(s, op, writes, InFile(path));
    StampKeepsSize(Stamps(s.files, path), Seen(s.records, InFile(path)), Stamps(FilesAfter(setup, s, op), path),
                   Seen(RecordsAfter(s, op, writes), InFile(path)), writes && Adds(s, op, InFile(path)),
                   WindowOf(setup, path.kind), StampOf(s, op));
  }

  lemma StampKeepsSize(log: seq<real>, seen: seq<real>, logAfter: seq<real>, seenAfter: seq<real>, writes: bool,
                       window: real, now: real)
    requires |log| <= |seen| && logAfter == Stamped(log, writes, window, now)
    requires seenAfter == (if writes then seen + [now] else seen)
    ensures |logAfter| <= |seenAfter|
  {
    KeptShrinks(log, now - window, now - window);
  }

  lemma {:induction false} FilesAreNoLonger(setup: Setup, ops: seq<Op>, path: LogFile)
    requires path != CLAIM_FILE
    ensures NoLonger(Run(setup, ops).files, Run(setup, ops).records, path)
  {
    if ops != [] {
      var s, op := Run(setup, ops[..|ops| - 1]), ops[|ops| - 1];
      FilesAreNoLonger(setup, ops[..|ops| - 1], path);
      OpKeepsSize(setup, s, op, path, Writes(setup, s, op));
    }
  }

  /** A half whose file has seen fewer stamps than the limit is admitted. */
  lemma RoomFits(setup: Setup, files: Files, records: seq<Record>, r: Record)
    requires NoLonger(files, records, FileOf(r))
    requires |Seen(records, InFile(FileOf(r)))| < LimitAt(setup, r.check.kind, r.half)
    ensures Fits(setup, files, r)
  {
    var cutoff := r.check.now - WindowOf(setup, r.check.kind);
    KeptShrinks(Stamps(files, FileOf(r)), cutoff, cutoff);
  }

  lemma RoomIsEnough(setup: Setup, ops: seq<Op>, s: State, op: Op, r: Record)
    requires s == Run(setup, ops) && Tried(s, op) == Some(r) && FileOf(r) != CLAIM_FILE
    requires |Seen(s.records, InFile(FileOf(r)))| < LimitAt(setup, r.check.kind, r.half)
    ensures Run(setup, ops + [op]).records == s.records + [r]
    ensures Run(setup, ops + [op]).pending == PendingAfter(s, op, true)
  {
    DirSnoc(setup, ops, op);
    FilesAreNoLonger(setup, ops, FileOf(r));
    RoomFits(setup, s.files, s.records, r);
    assert Writes(setup, s, op);
  }

  /** Two checks of one device, the second of which locks the fabric's file first. */
  function Overtaking(first: Check, second: Check): seq<Op> {
    [DeviceHalf(0, first)] + [DeviceHalf(1, second)] + [FabricHalf(1)] + [FabricHalf(0)]
  }

  function Shown(v: View, r: Record): seq<real> {
    if Shows(v, r) then [r.check.now] else []
  }

  lemma TwoRecords(a: Record, b: Record, v: View)
    ensures Seen([a, b], v) == Shown(v, a) + Shown(v, b)
  {
    SeenSnoc([], a, v);
    SeenSnoc([a], b, v);
    assert [] + [a] == [a] && [a] + [b] == [a, b];
  }

  lemma SeenAtMost(records: seq<Record>, v: View)
    ensures |Seen(records, v)| <= |records|
  {
  }

  lemma FirstDeviceHalf(setup: Setup, first: Check)
    requires NotClaims(first.kind, first.device)
    ensures var s := Run(setup, [DeviceHalf(0, first)]);
      s.records == [Record(AtDevice, first)] && s.pending == map[0 := first]
  {
    assert [] + [DeviceHalf(0, first)] == [DeviceHalf(0, first)];
    RoomIsEnough(setup, [], EMPTY, DeviceHalf(0, first), Record(AtDevice, first));
  }

  lemma SecondDeviceHalf(setup: Setup, ops: seq<Op>, s: State, first: Check, second: Check)
    requires s == Run(setup, ops) && s.records == [Record(AtDevice, first)] && s.pending == map[0 := first]
    requires NotClaims(second.kind, second.device) && LimitAt(setup, second.kind, AtDevice) >= 2
    ensures var t := Run(setup, ops + [DeviceHalf(1, second)]);
      && t.records == [Record(AtDevice, first), Record(AtDevice, second)]
      && t.pending == map[0 := first, 1 := second]
  {
    SeenAtMost(s.records, InFile(DeviceLog(second.kind, second.device)));
    RoomIsEnough(setup, ops, s, DeviceHalf(1, second), Record(AtDevice, second));
  }

  lemma FabricHalfOf(setup: Setup, ops: seq<Op>, s: State, p: nat, check: Check)
    requires s == Run(setup, ops) && p in s.pending && s.pending[p] == check
    requires |Seen(s.records, InFile(FabricLog(check.kind)))| < 2 <= LimitAt(setup, check.kind, AtFabric)
    ensures var t := Run(setup, ops + [FabricHalf(p)]);
      t.records == s.records + [Record(AtFabric, check)] && t.pending == s.pending - {p}
  {
    ClaimFileIsADeviceLog(FabricLog(check.kind));
    RoomIsEnough(setup, ops, s, FabricHalf(p), Record(AtFabric, check));
  }

  lemma FabricHalvesReversed(setup: Setup, ops: seq<Op>, s: State, first: Check, second: Check)
    requires s == Run(setup, ops) && s.pending == map[0 := first, 1 := second] && first.kind == second.kind
    requires Seen(s.records, InFile(FabricLog(first.kind))) == [] && LimitAt(setup, first.kind, AtFabric) >= 2
    ensures Run(setup, ops + [FabricHalf(1)] + [FabricHalf(0)]).records ==
      s.records + [Record(AtFabric, second)] + [Record(AtFabric, first)]
  {
    var next := ops + [FabricHalf(1)];
    FabricHalfOf(setup, ops, s, 1, second);
    SeenSnoc(s.records, Record(AtFabric, second), InFile(FabricLog(first.kind)));
    FabricHalfOf(setup, next, Run(setup, next), 0, first);
  }

  lemma OvertakenRecords(setup: Setup, first: Check, second: Check)
    requires first.kind == second.kind && first.device == second.device && first.device != "fabric"
    requires NotClaims(first.kind, first.device)
    requires LimitAt(setup, first.kind, AtDevice) >= 2 && LimitAt(setup, first.kind, AtFabric) >= 2
    ensures Run(setup, Overtaking(first, second)).records ==
      [Record(AtDevice, first), Record(AtDevice, second), Record(AtFabric, second), Record(AtFabric, first)]
  {
    var one := [DeviceHalf(0, first)];
    var both := one + [DeviceHalf(1, second)];
    FirstDeviceHalf(setup, first);
    SecondDeviceHalf(setup, one, Run(setup, one), first, second);
    TwoRecords(Record(AtDevice, first), Record(AtDevice, second), InFile(FabricLog(first.kind)));
    FabricHalvesReversed(setup, both, Run(setup, both), first, second);
  }

  /** Stamps that reach the device's file in the order of the clock can reach the fabric's
      file in the other order, so no sequence of whole checks accounts for this run. */
  lemma HalvesOvertake(setup: Setup, kind: Kind)
    requires LimitAt(setup, kind, AtDevice) >= 2 && LimitAt(setup, kind, AtFabric) >= 2
    ensures var records := Run(setup, Overtaking(Check(kind, "PE1", 0.0), Check(kind, "PE1", 1.0))).records;
      && Seen(records, DeviceSide(kind, "PE1")) == [0.0, 1.0]
      && Seen(records, FabricSide(kind)) == [1.0, 0.0]
  {
    var first, second := Check(kind, "PE1", 0.0), Check(kind, "PE1", 1.0);
    OvertakenRecords(setup, first, second);
    FourRecords(Record(AtDevice, first), Record(AtDevice, second), Record(AtFabric, second), Record(AtFabric, first),
                DeviceSide(kind, "PE1"));
    FourRecords(Record(AtDevice, first), Record(AtDevice, second), Record(AtFabric, second), Record(AtFabric, first),
                FabricSide(kind));
  }

  lemma FourRecords(a: Record, b: Record, c: Record, d: Record, v: View)
    ensures Seen([a, b, c, d], v) == Shown(v, a) + Shown(v, b) + Shown(v, c) + Shown(v, d)
  {
    TwoRecords(a, b, v);
    SeenSnoc([a, b], c, v);
    SeenSnoc([a, b, c], d, v);
    assert [a, b] + [c] == [a, b, c] && [a, b, c] + [d] == [a, b, c, d];
  }
}
