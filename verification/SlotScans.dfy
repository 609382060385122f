/** What a scan that comes back empty-handed says when other attempts act during it. */
module SlotScans {
  import opened Common
  import opened Names
  import opened SlotAdmission

  /** A step in which the slot file, if one is tried, can be opened. */
  ghost predicate OpenStep(cfg: Config, s: State, t: State) {
    exists step :: Enabled(cfg, s, step) && (step.Try? ==> step.opens) && t == Apply(cfg, s, step)
  }

  ghost predicate OpenRun(cfg: Config, run: seq<State>) {
    && |run| > 0
    && Initial(run[0])
    && forall i {:trigger OpenStep(cfg, run[i], run[i + 1])} :: 0 <= i < |run| - 1 ==> OpenStep(cfg, run[i], run[i + 1])
  }

  lemma OpenRunIsARun(cfg: Config, run: seq<State>)
    requires OpenRun(cfg, run)
    ensures Run(cfg, run)
  {
    forall i | 0 <= i < |run| - 1 ensures Next(cfg, run[i], run[i + 1]) {
      assert OpenStep(cfg, run[i], run[i + 1]);
    }
  }

  predicate Scans(s: State, p: nat, level: Level) {
    p in s.attempts && s.attempts[p].phase.Scanning? && s.attempts[p].phase.level == level
  }

  predicate ScansThroughout(run: seq<State>, i: nat, k: nat, p: nat, level: Level) {
    i <= k < |run| && forall j :: i <= j <= k ==> Scans(run[j], p, level)
  }

  /** The slot that a scanning attempt is about to try. */
  function NextOf(s: State, p: nat): nat {
    if p in s.attempts && s.attempts[p].phase.Scanning? then s.attempts[p].phase.next else 0
  }

  function DeviceOf(s: State, p: nat): string {
    if p in s.attempts then s.attempts[p].device else ""
  }

  /** One scan of `p`, from its first slot at `run[i]` until it is past the last one at `run[k]`. */
  predicate FailedScan(cfg: Config, run: seq<State>, i: nat, k: nat, p: nat, level: Level) {
    ScansThroughout(run, i, k, p, level) && NextOf(run[i], p) == 0 && NextOf(run[k], p) == Cap(cfg, level)
  }

  predicate Full(cfg: Config, s: State, device: string, level: Level) {
    forall i: nat :: i < Cap(cfg, level) ==> Busy(s, device, level, i)
  }

  // ------------------------------------------------------------------
  // Every slot was busy when it was tried
  // ------------------------------------------------------------------

  lemma ScanMovesPastBusySlots(cfg: Config, s: State, t: State, p: nat, level: Level)
    requires OpenStep(cfg, s, t) && Scans(s, p, level) && Scans(t, p, level)
    ensures DeviceOf(t, p) == DeviceOf(s, p)
    ensures NextOf(t, p) == NextOf(s, p)
      || (NextOf(t, p) == NextOf(s, p) + 1 && Busy(s, DeviceOf(s, p), level, NextOf(s, p)))
  {
    var step :| Enabled(cfg, s, step) && (step.Try? ==> step.opens) && t == Apply(cfg, s, step);
  }

  lemma StepBefore(cfg: Config, run: seq<State>, k: nat)
    requires OpenRun(cfg, run) && 0 < k < |run|
    ensures OpenStep(cfg, run[k - 1], run[k])
  {
    var i := k - 1;
    assert OpenStep(cfg, run[i], run[i + 1]);
  }

  lemma {:induction false} DeviceStays(cfg: Config, run: seq<State>, i: nat, k: nat, p: nat, level: Level)
    requires OpenRun(cfg, run) && ScansThroughout(run, i, k, p, level)
    ensures DeviceOf(run[k], p) == DeviceOf(run[i], p)
  {
    if i < k {
      DeviceStays(cfg, run, i, k - 1, p, level);
      StepBefore(cfg, run, k);
      ScanMovesPastBusySlots(cfg, run[k - 1], run[k], p, level);
    }
  }

  lemma {:induction false} SlotWasBusy(cfg: Config, run: seq<State>, i: nat, k: nat, p: nat, level: Level, m: nat)
    returns (j: nat)
    requires OpenRun(cfg, run) && ScansThroughout(run, i, k, p, level)
    requires NextOf(run[i], p) <= m < NextOf(run[k], p)
    ensures i <= j < k && Busy(run[j], DeviceOf(run[i], p), level, m)
  {
    StepBefore(cfg, run, k);
    ScanMovesPastBusySlots(cfg, run[k - 1], run[k], p, level);
    if NextOf(run[k - 1], p) > m {
      j := SlotWasBusy(cfg, run, i, k - 1, p, level, m);
    } else {
      j := k - 1;
      DeviceStays(cfg, run, i, k - 1, p, level);
    }
  }

  /** In every interleaving, a scan that fails found each slot busy at some moment of it. */
  lemma EverySlotWasBusy(cfg: Config, run: seq<State>, i: nat, k: nat, p: nat, level: Level, m: nat)
    requires OpenRun(cfg, run) && FailedScan(cfg, run, i, k, p, level) && m < Cap(cfg, level)
    ensures exists j :: i <= j < k && Busy(run[j], DeviceOf(run[i], p), level, m)
  {
    var j := SlotWasBusy(cfg, run, i, k, p, level, m);
  }

  lemma ScanBegins(cfg: Config, s: State, t: State, p: nat, level: Level)
    requires Next(cfg, s, t) && Scans(t, p, level) && !Scans(s, p, level)
    ensures NextOf(t, p) == 0
  {
    var step :| Enabled(cfg, s, step) && t == Apply(cfg, s, step);
  }

  /** Every scan, also one after a sleep, began at the first slot. */
  lemma {:induction false} ScanBeganAtTheFirstSlot(cfg: Config, run: seq<State>, k: nat, p: nat, level: Level)
    returns (i: nat)
    requires Run(cfg, run) && k < |run| && Scans(run[k], p, level)
    ensures ScansThroughout(run, i, k, p, level) && NextOf(run[i], p) == 0
  {
    assert Next(cfg, run[k - 1], run[k - 1 + 1]);
    if Scans(run[k - 1], p, level) {
      i := ScanBeganAtTheFirstSlot(cfg, run, k - 1, p, level);
    } else {
      ScanBegins(cfg, run[k - 1], run[k], p, level);
      i := k;
    }
  }

  lemma TurningAwayNeedsTheLastSlot(cfg: Config, s: State, t: State, p: nat, level: Level)
    requires Next(cfg, s, t) && Scans(s, p, level) && NextOf(s, p) <= Cap(cfg, level)
    requires p in t.attempts && (GivesUp(t.attempts[p], level) || t.attempts[p].phase.Sleeping?)
    ensures NextOf(s, p) == Cap(cfg, level)
  {
    var step :| Enabled(cfg, s, step) && t == Apply(cfg, s, step);
  }

  predicate BusyDuring(run: seq<State>, i: nat, k: nat, device: string, level: Level, m: nat)
    requires k < |run|
  {
    exists j :: i <= j < k && Busy(run[j], device, level, m)
  }

  /** Nobody is turned away, or sent to sleep, without a scan of every slot of the pool from
      the first to the last configured one, in which each was busy when it was tried. */
  lemma TurnedAwayAfterAFullScan(cfg: Config, run: seq<State>, k: nat, p: nat, level: Level) returns (i: nat)
    requires OpenRun(cfg, run) && k + 1 < |run| && Scans(run[k], p, level) && p in run[k + 1].attempts
    requires GivesUp(run[k + 1].attempts[p], level) || run[k + 1].attempts[p].phase.Sleeping?
    ensures ScansThroughout(run, i, k, p, level) && NextOf(run[i], p) == 0
    ensures forall m: nat :: m == 0 || m < Configured(cfg, level) ==>
      BusyDuring(run, i, k, DeviceOf(run[i], p), level, m)
  {
    OpenRunIsARun(cfg, run);
    RunKeepsInv(cfg, run, k);
    i := ScanBeganAtTheFirstSlot(cfg, run, k, p, level);
    assert Consistent(cfg, run[k].locks, p, run[k].attempts[p]);
    assert Next(cfg, run[k], run[k + 1]);
    TurningAwayNeedsTheLastSlot(cfg, run[k], run[k + 1], p, level);
    forall m: nat | m == 0 || m < Configured(cfg, level)
      ensures BusyDuring(run, i, k, DeviceOf(run[i], p), level, m)
    {
      EverySlotWasBusy(cfg, run, i, k, p, level, m);
    }
  }

  /** At some moment from `i` to `k` the pool is full. */
  predicate FullAtSome(cfg: Config, run: seq<State>, i: nat, k: nat, device: string, level: Level)
    requires k < |run|
  {
    exists j :: i <= j <= k && Full(cfg, run[j], device, level)
  }

  /** A scan that fails met a full pool at some moment of it. */
  ghost predicate MeetsFullPool(cfg: Config, level: Level) {
    forall run: seq<State>, i: nat, k: nat, p: nat :: OpenRun(cfg, run) && FailedScan(cfg, run, i, k, p, level) ==>
      FullAtSome(cfg, run, i, k, DeviceOf(run[i], p), level)
  }

  lemma OneSlotIsThePool(cfg: Config, run: seq<State>, i: nat, k: nat, p: nat, level: Level)
    requires OpenRun(cfg, run) && FailedScan(cfg, run, i, k, p, level) && Cap(cfg, level) == 1
    ensures FullAtSome(cfg, run, i, k, DeviceOf(run[i], p), level)
  {
    var j := SlotWasBusy(cfg, run, i, k, p, level, 0);
    assert Full(cfg, run[j], DeviceOf(run[i], p), level);
  }

  // ------------------------------------------------------------------
  // A scan that fails though the pool is never full
  // ------------------------------------------------------------------

  const START := State(map[], map[], 0.0)

  /** All attempts on one device for its own pool, each on a device of its own for the fabric's. */
  function Dev(level: Level, p: nat): (r: string)
    ensures level.FabricLevel? ==> |r| == p + 1 && forall c :: c in r ==> c == 'a'
  {
    if level.DeviceLevel? then "d" else seq(p + 1, _ => 'a')
  }

  function Due(cfg: Config): real {
    Deadline(cfg, 0.0)
  }

  /** An attempt about to try slot `next` of the pool. */
  function Scanner(cfg: Config, level: Level, p: nat, next: nat): Attempt {
    Attempt(Dev(level, p), Scanning(level, next, Due(cfg)), if level.DeviceLevel? then None else Some(0), None)
  }

  /** An attempt that has taken slot `slot` of the pool. */
  function Holder(cfg: Config, level: Level, p: nat, slot: nat): Attempt {
    if level.DeviceLevel? then Attempt(Dev(level, p), Scanning(FabricLevel, 0, Due(cfg)), Some(slot), None)
    else Attempt(Dev(level, p), InBody, Some(0), Some(slot))
  }

  ghost predicate Tail(cfg: Config, run: seq<State>, s: State) {
    OpenRun(cfg, run) && run[|run| - 1] == s && s.clock == 0.0
  }

  lemma Extend(cfg: Config, run: seq<State>, s: State, step: Step)
    requires Tail(cfg, run, s) && Enabled(cfg, s, step) && (step.Try? ==> step.opens) && !step.Tick?
    ensures Tail(cfg, run + [Apply(cfg, s, step)], Apply(cfg, s, step))
  {
    var all := run + [Apply(cfg, s, step)];
    forall i | 0 <= i < |all| - 1 ensures OpenStep(cfg, all[i], all[i + 1]) {
      if i < |run| - 1 {
        assert OpenStep(cfg, run[i], run[i + 1]);
      }
    }
  }

  lemma TailKeepsInv(cfg: Config, run: seq<State>, s: State)
    requires Tail(cfg, run, s)
    ensures Inv(cfg, s)
  {
    OpenRunIsARun(cfg, run);
    RunKeepsInv(cfg, run, |run| - 1);
  }

  /** The slot an attempt has in the pool. */
  function SlotIn(a: Attempt, level: Level): Option<nat> {
    if level.DeviceLevel? then a.deviceSlot else a.fabricSlot
  }

  /** No attempt has slot `j` of the pool. */
  predicate Spare(s: State, level: Level, j: nat) {
    forall q :: q in s.attempts ==> SlotIn(s.attempts[q], level) != Some(j)
  }

  lemma HeldIsBusy(cfg: Config, s: State, level: Level, p: nat, q: nat, j: nat)
    requires Inv(cfg, s) && q in s.attempts && s.attempts[q] == Holder(cfg, level, q, j)
    ensures Busy(s, Dev(level, p), level, j)
  {
    assert Consistent(cfg, s.locks, q, s.attempts[q]);
  }

  lemma SpareIsFree(cfg: Config, s: State, level: Level, device: string, j: nat)
    requires Inv(cfg, s) && Spare(s, level, j)
    ensures !Busy(s, device, level, j)
  {
    if Busy(s, device, level, j) {
      BusySlotHasItsHolder(cfg, s, device, level, j);
    }
  }

  /** Every attempt so far is on its own device, as `Dev` says. */
  predicate OnTheirDevices(s: State, level: Level) {
    forall q :: q in s.attempts ==> s.attempts[q].device == Dev(level, q)
  }

  lemma DevIsSafe(p: nat)
    ensures Sanitize(Dev(FabricLevel, p)) == Dev(FabricLevel, p)
  {
    SanitizeMakesOneComponent(Dev(FabricLevel, p));
  }

  lemma NewDeviceIsFree(cfg: Config, s: State, p: nat)
    requires Inv(cfg, s) && OnTheirDevices(s, FabricLevel) && p !in s.attempts
    ensures !Busy(s, Dev(FabricLevel, p), DeviceLevel, 0)
  {
    if Busy(s, Dev(FabricLevel, p), DeviceLevel, 0) {
      var path := Path(Dev(FabricLevel, p), DeviceLevel, 0);
      var q := s.locks[path];
      BusySlotHasItsHolder(cfg, s, Dev(FabricLevel, p), DeviceLevel, 0);
      DevIsSafe(p);
      DevIsSafe(q);
    }
  }

  // The moves of one attempt

  /** A new attempt comes to the first slot of the pool. */
  lemma Enter(cfg: Config, run: seq<State>, s: State, level: Level, p: nat) returns (after: seq<State>, t: State)
    requires Tail(cfg, run, s) && OnTheirDevices(s, level) && p !in s.attempts
    ensures Tail(cfg, after, t) && t.attempts == s.attempts[p := Scanner(cfg, level, p, 0)]
  {
    var begin := Begin(p, Dev(level, p));
    Extend(cfg, run, s, begin);
    after, t := run + [Apply(cfg, s, begin)], Apply(cfg, s, begin);
    if level.FabricLevel? {
      TailKeepsInv(cfg, run, s);
      NewDeviceIsFree(cfg, s, p);
      Extend(cfg, after, t, Try(p, true));
      after, t := after + [Apply(cfg, t, Try(p, true))], Apply(cfg, t, Try(p, true));
    }
  }

  /** Nothing happens after `from` but that `p` moves its scan on. */
  ghost predicate OnlyScans(cfg: Config, run: seq<State>, from: nat, s: State, level: Level, p: nat) {
    forall j :: from <= j < |run| ==>
      exists next: nat :: run[j] == s.(attempts := s.attempts[p := Scanner(cfg, level, p, next)])
  }

  lemma PassOne(cfg: Config, run: seq<State>, s: State, level: Level, p: nat, next: nat)
    requires Tail(cfg, run, s) && p in s.attempts && s.attempts[p] == Scanner(cfg, level, p, next)
    requires next < Cap(cfg, level) && Busy(s, Dev(level, p), level, next)
    ensures var t := s.(attempts := s.attempts[p := Scanner(cfg, level, p, next + 1)]); Tail(cfg, run + [t], t)
  {
    Extend(cfg, run, s, Try(p, true));
  }

  /** `p` tries the busy slots from `next` to `m` and passes them. */
  lemma {:induction false} Pass(cfg: Config, run: seq<State>, s: State, level: Level, p: nat, next: nat, m: nat)
    returns (after: seq<State>, t: State)
    requires Tail(cfg, run, s) && p in s.attempts && s.attempts[p] == Scanner(cfg, level, p, next)
    requires next <= m <= Cap(cfg, level) && forall j: nat :: next <= j < m ==> Busy(s, Dev(level, p), level, j)
    ensures t == s.(attempts := s.attempts[p := Scanner(cfg, level, p, m)])
    ensures Tail(cfg, after, t) && run <= after && OnlyScans(cfg, after, |run|, s, level, p)
    decreases m - next
  {
    if next == m {
      after, t := run, s;
      assert s.attempts[p := s.attempts[p]] == s.attempts;
    } else {
      var u := s.(attempts := s.attempts[p := Scanner(cfg, level, p, next + 1)]);
      PassOne(cfg, run, s, level, p, next);
      forall j: nat | next + 1 <= j < m ensures Busy(u, Dev(level, p), level, j) {
        assert Busy(s, Dev(level, p), level, j);
      }
      after, t := Pass(cfg, run + [u], u, level, p, next + 1, m);
      assert u.attempts[p := Scanner(cfg, level, p, m)] == s.attempts[p := Scanner(cfg, level, p, m)];
      forall j | |run| <= j < |after|
        ensures exists n: nat :: after[j] == s.(attempts := s.attempts[p := Scanner(cfg, level, p, n)])
      {
        if j > |run| {
          var n: nat :| after[j] == u.(attempts := u.attempts[p := Scanner(cfg, level, p, n)]);
          assert u.attempts[p := Scanner(cfg, level, p, n)] == s.attempts[p := Scanner(cfg, level, p, n)];
        } else {
          assert after[j] == u;
        }
      }
    }
  }

  /** `p` takes the slot it is about to try. */
  lemma Take(cfg: Config, run: seq<State>, s: State, level: Level, p: nat, m: nat) returns (t: State)
    requires Tail(cfg, run, s) && p in s.attempts && s.attempts[p] == Scanner(cfg, level, p, m)
    requires m < Cap(cfg, level) && !Busy(s, Dev(level, p), level, m)
    ensures Tail(cfg, run + [t], t) && t.attempts == s.attempts[p := Holder(cfg, level, p, m)]
  {
    Extend(cfg, run, s, Try(p, true));
    t := Apply(cfg, s, Try(p, true));
  }

  /** Only attempt `q` changed. */
  predicate Besides(s: State, t: State, q: nat) {
    t.attempts.Keys == s.attempts.Keys
    && forall r :: r in s.attempts && r != q ==> t.attempts[r] == s.attempts[r]
  }

  /** From `from` on only `q` moves, and has slot `slot` of the pool or none. */
  predicate OnlyLeaves(run: seq<State>, from: nat, s: State, level: Level, q: nat, slot: nat) {
    forall j :: from <= j < |run| ==>
      Besides(s, run[j], q) && q in run[j].attempts && SlotIn(run[j].attempts[q], level) in {None, Some(slot)}
  }

  /** The body of `q` returns. */
  lemma LeaveBody(cfg: Config, run: seq<State>, s: State, q: nat) returns (t: State)
    requires Tail(cfg, run, s) && q in s.attempts && s.attempts[q].phase.InBody?
    ensures Tail(cfg, run + [t], t) && Besides(s, t, q)
    ensures t.attempts[q] == s.attempts[q].(phase := Leaving(false), fabricSlot := None)
  {
    Extend(cfg, run, s, Exit(q));
    t := Apply(cfg, s, Exit(q));
  }

  lemma ReleaseDevice(cfg: Config, run: seq<State>, s: State, q: nat) returns (t: State)
    requires Tail(cfg, run, s) && q in s.attempts && s.attempts[q].phase.Leaving?
    ensures Tail(cfg, run + [t], t) && Besides(s, t, q) && t.attempts[q].deviceSlot == None
  {
    Extend(cfg, run, s, Release(q));
    t := Apply(cfg, s, Release(q));
  }

  /** A holder of a device slot takes a free fabric slot. */
  lemma EnterBody(cfg: Config, run: seq<State>, s: State, q: nat, slot: nat) returns (t: State)
    requires Tail(cfg, run, s) && q in s.attempts && s.attempts[q] == Holder(cfg, DeviceLevel, q, slot)
    requires Spare(s, FabricLevel, 0)
    ensures Tail(cfg, run + [t], t) && Besides(s, t, q) && t.attempts[q].phase.InBody?
    ensures t.attempts[q].deviceSlot == Some(slot)
  {
    TailKeepsInv(cfg, run, s);
    SpareIsFree(cfg, s, FabricLevel, s.attempts[q].device, 0);
    Extend(cfg, run, s, Try(q, true));
    t := Apply(cfg, s, Try(q, true));
  }

  /** A holder runs its body, if it has not yet, and leaves the pool. */
  lemma Leave(cfg: Config, run: seq<State>, s: State, level: Level, q: nat, slot: nat)
    returns (after: seq<State>, t: State)
    requires Tail(cfg, run, s) && q in s.attempts && s.attempts[q] == Holder(cfg, level, q, slot)
    requires level.DeviceLevel? ==> Spare(s, FabricLevel, 0)
    ensures Tail(cfg, after, t) && run <= after && OnlyLeaves(after, |run|, s, level, q, slot)
    ensures Besides(s, t, q) && SlotIn(t.attempts[q], level) == None
  {
    if level.DeviceLevel? {
      var a := EnterBody(cfg, run, s, q, slot);
      var b := LeaveBody(cfg, run + [a], a, q);
      t := ReleaseDevice(cfg, run + [a] + [b], b, q);
      after := run + [a] + [b] + [t];
    } else {
      t := LeaveBody(cfg, run, s, q);
      after := run + [t];
    }
  }

  // The whole run

  /** Attempts 0 to `h` - 1, each with the slot of its number. */
  function Holding(cfg: Config, level: Level, h: nat): map<nat, Attempt> {
    map q: nat | q < h :: Holder(cfg, level, q, q)
  }

  /** The first `h` slots of the pool are held by attempts of their number. */
  predicate Held(cfg: Config, s: State, level: Level, h: nat) {
    forall q: nat :: q < h ==> q in s.attempts && s.attempts[q] == Holder(cfg, level, q, q)
  }

  lemma HoldersAreBusy(cfg: Config, run: seq<State>, s: State, level: Level, p: nat, h: nat)
    requires Tail(cfg, run, s) && Held(cfg, s, level, h)
    ensures forall j: nat :: j < h ==> Busy(s, Dev(level, p), level, j)
  {
    TailKeepsInv(cfg, run, s);
    forall j: nat | j < h ensures Busy(s, Dev(level, p), level, j) {
      HeldIsBusy(cfg, s, level, p, j, j);
    }
  }

  /** A new attempt comes and passes the slots that are held. */
  lemma EnterAndPass(cfg: Config, run: seq<State>, s: State, level: Level, p: nat, h: nat)
    returns (after: seq<State>, t: State)
    requires Tail(cfg, run, s) && Held(cfg, s, level, h) && h <= Cap(cfg, level)
    requires OnTheirDevices(s, level) && p !in s.attempts && p >= h
    ensures Tail(cfg, after, t) && t.attempts == s.attempts[p := Scanner(cfg, level, p, h)]
  {
    var run1, s1 := Enter(cfg, run, s, level, p);
    HoldersAreBusy(cfg, run1, s1, level, p, h);
    after, t := Pass(cfg, run1, s1, level, p, 0, h);
    assert s1.attempts[p := Scanner(cfg, level, p, h)] == s.attempts[p := Scanner(cfg, level, p, h)];
  }

  lemma HoldingIsHeld(cfg: Config, s: State, level: Level, h: nat)
    requires s.attempts == Holding(cfg, level, h)
    ensures Held(cfg, s, level, h) && OnTheirDevices(s, level)
    ensures forall j: nat :: j >= h ==> j !in s.attempts && Spare(s, level, j)
  {
  }

  lemma TakeSpare(cfg: Config, run: seq<State>, s: State, level: Level, p: nat, m: nat) returns (t: State)
    requires Tail(cfg, run, s) && p in s.attempts && s.attempts[p] == Scanner(cfg, level, p, m)
    requires m < Cap(cfg, level) && Spare(s, level, m)
    ensures Tail(cfg, run + [t], t) && t.attempts == s.attempts[p := Holder(cfg, level, p, m)]
  {
    TailKeepsInv(cfg, run, s);
    SpareIsFree(cfg, s, level, Dev(level, p), m);
    t := Take(cfg, run, s, level, p, m);
  }

  lemma ScannerHasNone(cfg: Config, s: State, t: State, level: Level, p: nat, next: nat, j: nat)
    requires Spare(s, level, j) && t.attempts == s.attempts[p := Scanner(cfg, level, p, next)]
    ensures Spare(t, level, j)
  {
  }

  /** One more attempt comes, passes the slots that are held, and takes the next. */
  lemma FillOne(cfg: Config, run: seq<State>, s: State, level: Level, h: nat) returns (after: seq<State>, t: State)
    requires Tail(cfg, run, s) && s.attempts == Holding(cfg, level, h) && h < Cap(cfg, level)
    ensures Tail(cfg, after, t) && t.attempts == Holding(cfg, level, h + 1)
  {
    HoldingIsHeld(cfg, s, level, h);
    var run1, s1 := EnterAndPass(cfg, run, s, level, h, h);
    ScannerHasNone(cfg, s, s1, level, h, h, h);
    t := TakeSpare(cfg, run1, s1, level, h, h);
    after := run1 + [t];
    HoldingGrows(cfg, level, h);
    assert s1.attempts[h := Holder(cfg, level, h, h)] == s.attempts[h := Holder(cfg, level, h, h)];
  }

  lemma HoldingGrows(cfg: Config, level: Level, h: nat)
    ensures Holding(cfg, level, h + 1) == Holding(cfg, level, h)[h := Holder(cfg, level, h, h)]
  {
  }

  lemma {:induction false} Fill(cfg: Config, level: Level, h: nat) returns (run: seq<State>, s: State)
    requires h <= Cap(cfg, level)
    ensures Tail(cfg, run, s) && s.attempts == Holding(cfg, level, h)
  {
    if h == 0 {
      run, s := [START], START;
      assert Holding(cfg, level, 0) == map[];
    } else {
      run, s := Fill(cfg, level, h - 1);
      run, s := FillOne(cfg, run, s, level, h - 1);
    }
  }

  /** Two more attempts come while every slot but the last is held, and wait to try the last:
      `n` - 1 and `n`, where `n` is the pool's size. */
  function Waiting(cfg: Config, level: Level, n: nat, next: nat): map<nat, Attempt>
    requires n > 0
  {
    Holding(cfg, level, n - 1)[n - 1 := Scanner(cfg, level, n - 1, n - 1)][n := Scanner(cfg, level, n, next)]
  }

  lemma Gather(cfg: Config, level: Level, n: nat) returns (run: seq<State>, s: State)
    requires n == Cap(cfg, level) >= 2
    ensures Tail(cfg, run, s) && s.attempts == Waiting(cfg, level, n, 0)
  {
    var run0, s0 := Fill(cfg, level, n - 1);
    HoldingIsHeld(cfg, s0, level, n - 1);
    var run1, s1 := EnterAndPass(cfg, run0, s0, level, n - 1, n - 1);
    assert OnTheirDevices(s1, level);
    run, s := Enter(cfg, run1, s1, level, n);
  }

  /** The scan of `p` goes on, and the last or the first slot of the pool is free. */
  predicate Unfilled(s: State, level: Level, p: nat, n: nat)
    requires n > 0
  {
    Scans(s, p, level) && (Spare(s, level, n - 1) || Spare(s, level, 0))
  }

  predicate UnfilledFrom(run: seq<State>, i: nat, level: Level, p: nat, n: nat)
    requires n > 0
  {
    forall j :: i <= j < |run| ==> Unfilled(run[j], level, p, n)
  }

  lemma UnfilledIsNotFull(cfg: Config, run: seq<State>, i: nat, level: Level, p: nat, device: string)
    requires OpenRun(cfg, run) && UnfilledFrom(run, i, level, p, Cap(cfg, level)) && i < |run|
    ensures !FullAtSome(cfg, run, i, |run| - 1, device, level)
  {
    OpenRunIsARun(cfg, run);
    forall j | i <= j < |run| ensures !Full(cfg, run[j], device, level) {
      RunKeepsInv(cfg, run, j);
      assert Unfilled(run[j], level, p, Cap(cfg, level));
      if Spare(run[j], level, 0) {
        SpareIsFree(cfg, run[j], level, device, 0);
      } else {
        SpareIsFree(cfg, run[j], level, device, Cap(cfg, level) - 1);
      }
    }
  }

  lemma Joined(run: seq<State>, after: seq<State>, i: nat, level: Level, p: nat, n: nat)
    requires n > 0 && i <= |run| && run <= after
    requires UnfilledFrom(run, i, level, p, n) && UnfilledFrom(after, |run|, level, p, n)
    ensures UnfilledFrom(after, i, level, p, n)
  {
    forall j | i <= j < |after| ensures Unfilled(after[j], level, p, n) {
      if j < |run| {
        assert after[j] == run[j];
      }
    }
  }

  lemma ScanningStaysUnfilled(cfg: Config, run: seq<State>, from: nat, s: State, level: Level, p: nat, n: nat)
    requires n > 0 && OnlyScans(cfg, run, from, s, level, p) && Unfilled(s, level, p, n)
    ensures UnfilledFrom(run, from, level, p, n)
  {
    forall j | from <= j < |run| ensures Unfilled(run[j], level, p, n) {
      var next: nat :| run[j] == s.(attempts := s.attempts[p := Scanner(cfg, level, p, next)]);
      if Spare(s, level, n - 1) {
        ScannerHasNone(cfg, s, run[j], level, p, next, n - 1);
      } else {
        ScannerHasNone(cfg, s, run[j], level, p, next, 0);
      }
    }
  }

  lemma LeavingStaysUnfilled(run: seq<State>, from: nat, s: State, level: Level, p: nat, n: nat)
    requires n >= 2 && p != 0 && OnlyLeaves(run, from, s, level, 0, 0)
    requires Scans(s, p, level) && Spare(s, level, n - 1)
    ensures UnfilledFrom(run, from, level, p, n)
  {
    forall j | from <= j < |run| ensures Unfilled(run[j], level, p, n) {
      assert Besides(s, run[j], 0);
      forall q | q in run[j].attempts ensures SlotIn(run[j].attempts[q], level) != Some(n - 1) {
        if q != 0 {
          assert q in s.attempts;
        }
      }
    }
  }

  lemma WaitingFacts(cfg: Config, s: State, level: Level, n: nat, next: nat)
    requires n >= 2 && s.attempts == Waiting(cfg, level, n, next)
    ensures Held(cfg, s, level, n - 1) && Scans(s, n, level) && NextOf(s, n) == next && Spare(s, level, n - 1)
    ensures level.DeviceLevel? ==> Spare(s, FabricLevel, 0)
    ensures s.attempts[n] == Scanner(cfg, level, n, next) && s.attempts[n - 1] == Scanner(cfg, level, n - 1, n - 1)
  {
  }

  /** The first holder leaves and the other newcomer takes the last slot. */
  lemma Exchange(cfg: Config, run: seq<State>, s: State, level: Level, n: nat) returns (after: seq<State>, t: State)
    requires Tail(cfg, run, s) && n == Cap(cfg, level) >= 2 && s.attempts == Waiting(cfg, level, n, n - 1)
    ensures Tail(cfg, after, t) && run <= after && UnfilledFrom(after, |run|, level, n, n)
    ensures n in t.attempts && t.attempts[n] == Scanner(cfg, level, n, n - 1)
    ensures n - 1 in t.attempts && t.attempts[n - 1] == Holder(cfg, level, n - 1, n - 1)
    ensures Unfilled(t, level, n, n)
  {
    WaitingFacts(cfg, s, level, n, n - 1);
    var run1, s1 := Leave(cfg, run, s, level, 0, 0);
    LeavingStaysUnfilled(run1, |run|, s, level, n, n);
    SpareAfterLeaving(cfg, s, s1, level, n);
    t := TakeSpare(cfg, run1, s1, level, n - 1, n - 1);
    after := run1 + [t];
    FirstStaysSpare(cfg, s1, t, level, n);
    forall j | |run| <= j < |after| ensures Unfilled(after[j], level, n, n) {
      if j < |run1| {
        assert after[j] == run1[j];
      }
    }
  }

  lemma SpareAfterLeaving(cfg: Config, s: State, t: State, level: Level, n: nat)
    requires n >= 2 && s.attempts == Waiting(cfg, level, n, n - 1) && Besides(s, t, 0)
    requires 0 in t.attempts && SlotIn(t.attempts[0], level) == None
    ensures Spare(t, level, 0) && Spare(t, level, n - 1) && Scans(t, n, level)
    ensures n - 1 in t.attempts && t.attempts[n - 1] == Scanner(cfg, level, n - 1, n - 1)
    ensures n in t.attempts && t.attempts[n] == Scanner(cfg, level, n, n - 1)
  {
    forall q | q in t.attempts
      ensures SlotIn(t.attempts[q], level) != Some(0) && SlotIn(t.attempts[q], level) != Some(n - 1)
    {
      assert q in s.attempts;
    }
    assert n - 1 in s.attempts && n in s.attempts;
  }

  lemma FirstStaysSpare(cfg: Config, s: State, t: State, level: Level, n: nat)
    requires n >= 2 && Spare(s, level, 0) && Scans(s, n, level)
    requires t.attempts == s.attempts[n - 1 := Holder(cfg, level, n - 1, n - 1)]
    ensures Unfilled(t, level, n, n)
  {
  }

  lemma LastIsBusy(cfg: Config, run: seq<State>, s: State, level: Level, n: nat)
    requires Tail(cfg, run, s) && n > 0
    requires n - 1 in s.attempts && s.attempts[n - 1] == Holder(cfg, level, n - 1, n - 1)
    ensures forall j: nat :: n - 1 <= j < n ==> Busy(s, Dev(level, n), level, j)
  {
    TailKeepsInv(cfg, run, s);
    HeldIsBusy(cfg, s, level, n, n - 1, n - 1);
  }

  lemma PassLast(cfg: Config, run: seq<State>, s: State, level: Level, n: nat) returns (after: seq<State>, t: State)
    requires Tail(cfg, run, s) && n == Cap(cfg, level) >= 2 && Unfilled(s, level, n, n)
    requires s.attempts[n] == Scanner(cfg, level, n, n - 1)
    requires n - 1 in s.attempts && s.attempts[n - 1] == Holder(cfg, level, n - 1, n - 1)
    ensures Tail(cfg, after, t) && run <= after && UnfilledFrom(after, |run|, level, n, n) && NextOf(t, n) == n
  {
    LastIsBusy(cfg, run, s, level, n);
    after, t := Pass(cfg, run, s, level, n, n - 1, n);
    ScanningStaysUnfilled(cfg, after, |run|, s, level, n, n);
  }

  lemma LastPart(cfg: Config, run: seq<State>, s: State, level: Level, n: nat) returns (after: seq<State>, t: State)
    requires Tail(cfg, run, s) && n == Cap(cfg, level) >= 2 && s.attempts == Waiting(cfg, level, n, n - 1)
    ensures Tail(cfg, after, t) && run <= after && UnfilledFrom(after, |run|, level, n, n) && NextOf(t, n) == n
  {
    var run1, s1 := Exchange(cfg, run, s, level, n);
    after, t := PassLast(cfg, run1, s1, level, n);
    Joined(run1, after, |run|, level, n, n);
  }

  /** With two slots or more, a scan can fail although its pool is never full: it passes the
      slots that are held, the first holder leaves, and another attempt takes the last slot
      before the scan comes to it. */
  lemma ScanOfAnUnfilledPool(cfg: Config, level: Level, n: nat) returns (run: seq<State>, i: nat)
    requires n == Cap(cfg, level) >= 2
    ensures OpenRun(cfg, run) && i < |run| && FailedScan(cfg, run, i, |run| - 1, n, level)
    ensures UnfilledFrom(run, i, level, n, n)
  {
    var run0, s0 := Gather(cfg, level, n);
    i := |run0| - 1;
    WaitingFacts(cfg, s0, level, n, 0);
    HoldersAreBusy(cfg, run0, s0, level, n, n - 1);
    var run1, s1 := Pass(cfg, run0, s0, level, n, 0, n - 1);
    assert UnfilledFrom(run0, i, level, n, n);
    ScanningStaysUnfilled(cfg, run1, |run0|, s0, level, n, n);
    Joined(run0, run1, i, level, n, n);
    var run2, s2 := LastPart(cfg, run1, s1, level, n);
    Joined(run1, run2, i, level, n, n);
    run := run2;
    assert run[i] == s0;
    forall j | i <= j < |run| ensures Scans(run[j], n, level) {
      assert Unfilled(run[j], level, n, n);
    }
  }

  /** A failed scan proves that the pool was full at some moment of it exactly for a pool of
      one slot. */
  lemma FailedScanMeetsFullPoolExactly(cfg: Config, level: Level)
    ensures MeetsFullPool(cfg, level) <==> Cap(cfg, level) == 1
  {
    if Cap(cfg, level) == 1 {
      forall run: seq<State>, i: nat, k: nat, p: nat | OpenRun(cfg, run) && FailedScan(cfg, run, i, k, p, level)
        ensures FullAtSome(cfg, run, i, k, DeviceOf(run[i], p), level)
      {
        OneSlotIsThePool(cfg, run, i, k, p, level);
      }
    } else {
      var n := Cap(cfg, level);
      var run, i := ScanOfAnUnfilledPool(cfg, level, n);
      UnfilledIsNotFull(cfg, run, i, level, n, DeviceOf(run[i], n));
    }
  }
}
