/** The two-level counting semaphore over lock files: an attempt takes one slot of
    its device, then one fabric-wide slot, and gives both back. Every attempt is a
    step machine, and a run interleaves the steps of any number of attempts. */
module SlotAdmission {
  import opened Common
  import opened Names

  /** The configured values, before the floor of one slot is applied. */
  datatype Config = Config(deviceCap: int, fabricCap: int, wait: real)

  datatype Level = DeviceLevel | FabricLevel

  datatype Phase =
    | Scanning(level: Level, next: nat, deadline: real) // about to try slot `next`
    | Sleeping(level: Level, deadline: real)            // between two scans
    | InBody
    | Leaving(denied: bool)                             // only the device slot is left to release
    | Finished
    | Denied(level: Level)
    | Crashed

  datatype Attempt = Attempt(device: string, phase: Phase, deviceSlot: Option<nat>, fabricSlot: Option<nat>)

  /** `locks` maps a locked file to the attempt whose open file holds the lock. */
  datatype State = State(attempts: map<nat, Attempt>, locks: map<string, nat>, clock: real)

  datatype Step =
    | Begin(p: nat, device: string)
    | Try(p: nat, opens: bool) // `opens` is whether the slot's file could be opened
    | Expire(p: nat)           // the scan found no slot: give up or sleep
    | Wake(p: nat)
    | Exit(p: nat)             // the body returned or raised
    | Release(p: nat)
    | Crash(p: nat)            // the process died; the kernel drops its locks
    | Tick(to: real)

  /** The number of slot files of a pool. */
  function Cap(cfg: Config, level: Level): (n: nat)
    ensures n >= 1
    ensures level.DeviceLevel? && cfg.deviceCap >= 1 ==> n == cfg.deviceCap
    ensures level.FabricLevel? && cfg.fabricCap >= 1 ==> n == cfg.fabricCap
    ensures level.DeviceLevel? && cfg.deviceCap < 1 ==> n == 1
    ensures level.FabricLevel? && cfg.fabricCap < 1 ==> n == 1
  {
    AtLeastOne(if level.DeviceLevel? then cfg.deviceCap else cfg.fabricCap)
  }

  function Deadline(cfg: Config, clock: real): real {
    clock + (if cfg.wait > 0.0 then cfg.wait else 0.0)
  }

  function Path(device: string, level: Level, i: nat): string {
    if level.DeviceLevel? then DeviceSlot(Sanitize(device), i) else FabricSlot(i)
  }

  predicate Live(a: Attempt) {
    !a.phase.Finished? && !a.phase.Denied? && !a.phase.Crashed?
  }

  predicate Enabled(cfg: Config, s: State, step: Step) {
    match step
    case Begin(p, _) => p !in s.attempts
    case Try(p, _) =>
      p in s.attempts && var ph := s.attempts[p].phase; ph.Scanning? && ph.next < Cap(cfg, ph.level)
    case Expire(p) =>
      p in s.attempts && var ph := s.attempts[p].phase; ph.Scanning? && ph.next >= Cap(cfg, ph.level)
    case Wake(p) => p in s.attempts && s.attempts[p].phase.Sleeping?
    case Exit(p) => p in s.attempts && s.attempts[p].phase.InBody?
    case Release(p) => p in s.attempts && s.attempts[p].phase.Leaving?
    case Crash(p) => p in s.attempts && Live(s.attempts[p])
    case Tick(to) => to >= s.clock
  }

  function Unlock(locks: map<string, nat>, device: string, level: Level, slot: Option<nat>): map<string, nat> {
    if slot.Some? then locks - {Path(device, level, slot.value)} else locks
  }

  function Apply(cfg: Config, s: State, step: Step): State
    requires Enabled(cfg, s, step)
  {
    match step
    case Begin(p, device) =>
      s.(attempts := s.attempts[p := Attempt(device, Scanning(DeviceLevel, 0, Deadline(cfg, s.clock)), None, None)])
    case Try(p, opens) =>
      var a := s.attempts[p];
      var path := Path(a.device, a.phase.level, a.phase.next);
      if !opens || path in s.locks then
        s.(attempts := s.attempts[p := a.(phase := a.phase.(next := a.phase.next + 1))])
      else
        State(s.attempts[p := Granted(cfg, s, a)], s.locks[path := p], s.clock)
    case Expire(p) =>
      var a := s.attempts[p];
      var phase :=
        if s.clock < a.phase.deadline then Sleeping(a.phase.level, a.phase.deadline)
        else if a.phase.level.DeviceLevel? then Denied(DeviceLevel)
        else Leaving(true);
      s.(attempts := s.attempts[p := a.(phase := phase)])
    case Wake(p) =>
      var a := s.attempts[p];
      s.(attempts := s.attempts[p := a.(phase := Scanning(a.phase.level, 0, a.phase.deadline))])
    case Exit(p) =>
      var a := s.attempts[p];
      State(s.attempts[p := a.(phase := Leaving(false), fabricSlot := None)],
            Unlock(s.locks, a.device, FabricLevel, a.fabricSlot), s.clock)
    case Release(p) =>
      var a := s.attempts[p];
      var phase := if a.phase.denied then Denied(FabricLevel) else Finished;
      State(s.attempts[p := a.(phase := phase, deviceSlot := None)],
            Unlock(s.locks, a.device, DeviceLevel, a.deviceSlot), s.clock)
    case Crash(p) =>
      State(s.attempts[p := s.attempts[p].(phase := Crashed, deviceSlot := None, fabricSlot := None)],
            map path | path in s.locks && s.locks[path] != p :: s.locks[path], s.clock)
    case Tick(to) => s.(clock := to)
  }

  /** The attempt after it has locked the slot it was about to try. */
  function Granted(cfg: Config, s: State, a: Attempt): Attempt
    requires a.phase.Scanning?
  {
    if a.phase.level.DeviceLevel? then
      a.(phase := Scanning(FabricLevel, 0, Deadline(cfg, s.clock)), deviceSlot := Some(a.phase.next))
    else
      a.(phase := InBody, fabricSlot := Some(a.phase.next))
  }

  // ------------------------------------------------------------------
  // Who holds what
  // ------------------------------------------------------------------

  function HeldBy(s: State, p: nat): set<string> {
    set path | path in s.locks && s.locks[path] == p
  }

  predicate AtFabric(a: Attempt) {
    ((a.phase.Scanning? || a.phase.Sleeping?) && a.phase.level.FabricLevel?) || a.phase.Leaving?
  }

  /** Which slots an attempt remembers is decided by where it is. */
  predicate SlotsMatchPhase(a: Attempt) {
    && (a.deviceSlot.Some? <==> AtFabric(a) || a.phase.InBody?)
    && (a.fabricSlot.Some? <==> a.phase.InBody?)
  }

  predicate Holds(cfg: Config, locks: map<string, nat>, p: nat, device: string, level: Level, slot: Option<nat>) {
    slot.Some? ==>
      && slot.value < Cap(cfg, level)
      && Path(device, level, slot.value) in locks
      && locks[Path(device, level, slot.value)] == p
  }

  predicate Consistent(cfg: Config, locks: map<string, nat>, p: nat, a: Attempt) {
    && SlotsMatchPhase(a)
    && Holds(cfg, locks, p, a.device, DeviceLevel, a.deviceSlot)
    && Holds(cfg, locks, p, a.device, FabricLevel, a.fabricSlot)
    && (a.phase.Scanning? ==> a.phase.next <= Cap(cfg, a.phase.level))
  }

  predicate Remembers(a: Attempt, path: string) {
    || (a.deviceSlot.Some? && path == Path(a.device, DeviceLevel, a.deviceSlot.value))
    || (a.fabricSlot.Some? && path == Path(a.device, FabricLevel, a.fabricSlot.value))
  }

  ghost predicate Inv(cfg: Config, s: State) {
    && (forall p :: p in s.attempts ==> Consistent(cfg, s.locks, p, s.attempts[p]))
    && (forall path :: path in s.locks ==>
          s.locks[path] in s.attempts && Remembers(s.attempts[s.locks[path]], path))
  }

  predicate Initial(s: State) {
    s.attempts == map[] && s.locks == map[]
  }

  lemma TryKeepsInv(cfg: Config, s: State, step: Step)
    requires Inv(cfg, s) && Enabled(cfg, s, step) && step.Try?
    ensures Inv(cfg, Apply(cfg, s, step))
  {
    var t, a := Apply(cfg, s, step), s.attempts[step.p];
    assert Consistent(cfg, s.locks, step.p, a);
    forall q | q in t.attempts ensures Consistent(cfg, t.locks, q, t.attempts[q]) {
      assert Consistent(cfg, s.locks, q, s.attempts[q]);
    }
  }

  lemma ExitKeepsInv(cfg: Config, s: State, step: Step)
    requires Inv(cfg, s) && Enabled(cfg, s, step) && step.Exit?
    ensures Inv(cfg, Apply(cfg, s, step))
  {
    var t, a := Apply(cfg, s, step), s.attempts[step.p];
    assert Consistent(cfg, s.locks, step.p, a);
    SlotsNeverCollide(Sanitize(a.device), a.deviceSlot.value, Sanitize(a.device), a.fabricSlot.value);
    forall q | q in t.attempts ensures Consistent(cfg, t.locks, q, t.attempts[q]) {
      assert Consistent(cfg, s.locks, q, s.attempts[q]);
    }
  }

  lemma ReleaseKeepsInv(cfg: Config, s: State, step: Step)
    requires Inv(cfg, s) && Enabled(cfg, s, step) && step.Release?
    ensures Inv(cfg, Apply(cfg, s, step))
  {
    var t, a := Apply(cfg, s, step), s.attempts[step.p];
    assert Consistent(cfg, s.locks, step.p, a);
    forall q | q in t.attempts ensures Consistent(cfg, t.locks, q, t.attempts[q]) {
      assert Consistent(cfg, s.locks, q, s.attempts[q]);
    }
  }

  lemma CrashKeepsInv(cfg: Config, s: State, step: Step)
    requires Inv(cfg, s) && Enabled(cfg, s, step) && step.Crash?
    ensures Inv(cfg, Apply(cfg, s, step))
  {
    var t := Apply(cfg, s, step);
    forall q | q in t.attempts ensures Consistent(cfg, t.locks, q, t.attempts[q]) {
      assert Consistent(cfg, s.locks, q, s.attempts[q]);
    }
  }

  lemma LocalStepKeepsInv(cfg: Config, s: State, step: Step)
    requires Inv(cfg, s) && Enabled(cfg, s, step)
    requires step.Begin? || step.Expire? || step.Wake? || step.Tick?
    ensures Inv(cfg, Apply(cfg, s, step))
  {
    var t := Apply(cfg, s, step);
    forall q | q in t.attempts ensures Consistent(cfg, t.locks, q, t.attempts[q]) {
      if q in s.attempts {
        assert Consistent(cfg, s.locks, q, s.attempts[q]);
      }
    }
  }

  lemma StepKeepsInv(cfg: Config, s: State, step: Step)
    requires Inv(cfg, s) && Enabled(cfg, s, step)
    ensures Inv(cfg, Apply(cfg, s, step))
  {
    match step
    case Try(_, _) => TryKeepsInv(cfg, s, step);
    case Exit(_) => ExitKeepsInv(cfg, s, step);
    case Release(_) => ReleaseKeepsInv(cfg, s, step);
    case Crash(_) => CrashKeepsInv(cfg, s, step);
    case _ => LocalStepKeepsInv(cfg, s, step);
  }

  // ------------------------------------------------------------------
  // Runs
  // ------------------------------------------------------------------

  ghost predicate Next(cfg: Config, s: State, t: State) {
    exists step :: Enabled(cfg, s, step) && t == Apply(cfg, s, step)
  }

  ghost predicate Run(cfg: Config, run: seq<State>) {
    && |run| > 0
    && Initial(run[0])
    && forall i :: 0 <= i < |run| - 1 ==> Next(cfg, run[i], run[i + 1])
  }

  lemma {:induction false} RunKeepsInv(cfg: Config, run: seq<State>, k: nat)
    requires Run(cfg, run) && k < |run|
    ensures Inv(cfg, run[k])
  {
    if k > 0 {
      RunKeepsInv(cfg, run, k - 1);
      assert Next(cfg, run[k - 1], run[k - 1 + 1]);
      var step :| Enabled(cfg, run[k - 1], step) && run[k] == Apply(cfg, run[k - 1], step);
      StepKeepsInv(cfg, run[k - 1], step);
    }
  }

  /** In every interleaving, attempts in their bodies never outnumber the capacity configured
      for the fabric, and those on one device never the one configured for a device; a
      capacity below one counts as one. */
  lemma CapsHoldInEveryRun(cfg: Config, run: seq<State>, k: nat, bodies: set<nat>, safe: string)
    requires Run(cfg, run) && k < |run|
    requires forall p :: p in bodies ==> p in run[k].attempts && run[k].attempts[p].phase.InBody?
    ensures cfg.fabricCap >= 1 ==> |bodies| <= cfg.fabricCap
    ensures cfg.fabricCap < 1 ==> |bodies| <= 1
    ensures (forall p :: p in bodies ==> Sanitize(run[k].attempts[p].device) == safe) ==>
      |bodies| <= (if cfg.deviceCap < 1 then 1 else cfg.deviceCap)
  {
    RunKeepsInv(cfg, run, k);
    var s := run[k];
    forall p | p in bodies ensures Consistent(cfg, s.locks, p, s.attempts[p]) {}
    var fabricSlot := map p | p in bodies :: s.attempts[p].fabricSlot.value;
    Pigeonhole(bodies, fabricSlot, Cap(cfg, FabricLevel));
    if forall p :: p in bodies ==> Sanitize(run[k].attempts[p].device) == safe {
      var deviceSlot := map p | p in bodies :: s.attempts[p].deviceSlot.value;
      Pigeonhole(bodies, deviceSlot, Cap(cfg, DeviceLevel));
    }
  }

  /** An attempt in its body holds exactly one slot of each kind; one that is still
      at the device level, or is over in any way, holds no lock at all. */
  lemma LocksHeldInEveryRun(cfg: Config, run: seq<State>, k: nat, p: nat)
    requires Run(cfg, run) && k < |run| && p in run[k].attempts
    ensures var a := run[k].attempts[p];
      a.phase.InBody? ==>
        exists i: nat, j: nat :: (i == 0 || i < cfg.deviceCap) && (j == 0 || j < cfg.fabricCap) &&
          HeldBy(run[k], p) == {DeviceSlot(Sanitize(a.device), i), FabricSlot(j)}
    ensures run[k].attempts[p].phase.InBody? ==> |HeldBy(run[k], p)| == 2
    ensures AtFabric(run[k].attempts[p]) ==> |HeldBy(run[k], p)| == 1
    ensures !AtFabric(run[k].attempts[p]) && !run[k].attempts[p].phase.InBody? ==> HeldBy(run[k], p) == {}
  {
    RunKeepsInv(cfg, run, k);
    var s, a := run[k], run[k].attempts[p];
    assert Consistent(cfg, s.locks, p, a);
    if a.phase.InBody? {
      var i, j := a.deviceSlot.value, a.fabricSlot.value;
      SlotsNeverCollide(Sanitize(a.device), i, Sanitize(a.device), j);
      assert HeldBy(s, p) == {DeviceSlot(Sanitize(a.device), i), FabricSlot(j)};
    } else if AtFabric(a) {
      assert HeldBy(s, p) == {Path(a.device, DeviceLevel, a.deviceSlot.value)};
    }
  }

  /** A device-level refusal never touched the fabric-wide pool: the refused attempt
      held no lock at any moment of the run. */
  lemma {:induction false} DeviceRefusalNeverHeldALock(cfg: Config, run: seq<State>, k: nat, j: nat, p: nat)
    requires Run(cfg, run) && j <= k < |run|
    requires p in run[k].attempts && run[k].attempts[p].phase == Denied(DeviceLevel)
    requires p in run[j].attempts
    ensures HeldBy(run[j], p) == {}
  {
    DeviceSideIsClosedBackwards(cfg, run, k, j, p);
    LocksHeldInEveryRun(cfg, run, j, p);
  }

  predicate DeviceSide(a: Attempt) {
    match a.phase
    case Scanning(level, _, _) => level.DeviceLevel?
    case Sleeping(level, _) => level.DeviceLevel?
    case Denied(level) => level.DeviceLevel?
    case _ => false
  }

  lemma NextNeverReturnsToDeviceSide(cfg: Config, s: State, t: State, p: nat)
    requires Next(cfg, s, t) && p in s.attempts
    ensures p in t.attempts
    ensures DeviceSide(t.attempts[p]) ==> DeviceSide(s.attempts[p])
  {
    var step :| Enabled(cfg, s, step) && t == Apply(cfg, s, step);
  }

  lemma {:induction false} DeviceSideIsClosedBackwards(cfg: Config, run: seq<State>, k: nat, j: nat, p: nat)
    requires Run(cfg, run) && j <= k < |run|
    requires p in run[j].attempts
    ensures p in run[k].attempts
    ensures DeviceSide(run[k].attempts[p]) ==> DeviceSide(run[j].attempts[p])
  {
    if j < k {
      DeviceSideIsClosedBackwards(cfg, run, k - 1, j, p);
      assert Next(cfg, run[k - 1], run[k - 1 + 1]);
      NextNeverReturnsToDeviceSide(cfg, run[k - 1], run[k], p);
    }
  }

  // ------------------------------------------------------------------
  // Nobody is refused before its time
  // ------------------------------------------------------------------

  predicate Waits(a: Attempt, level: Level) {
    (a.phase.Scanning? || a.phase.Sleeping?) && a.phase.level == level
  }

  /** From `s` to `t` the attempt comes to the slots of this level. */
  predicate Comes(s: State, t: State, p: nat, level: Level) {
    && p in t.attempts && Waits(t.attempts[p], level)
    && (p in s.attempts ==> !Waits(s.attempts[p], level))
  }

  predicate GivesUp(a: Attempt, level: Level) {
    if level.DeviceLevel? then a.phase == Denied(DeviceLevel) else a.phase == Leaving(true)
  }

  lemma WaitGoesOn(cfg: Config, s: State, t: State, p: nat, level: Level)
    requires Next(cfg, s, t) && p in t.attempts && Waits(t.attempts[p], level)
    ensures s.clock <= t.clock
    ensures Comes(s, t, p, level) ==> t.attempts[p].phase.deadline == Deadline(cfg, s.clock)
    ensures !Comes(s, t, p, level) ==>
      p in s.attempts && Waits(s.attempts[p], level) && t.attempts[p].phase.deadline == s.attempts[p].phase.deadline
  {
    var step :| Enabled(cfg, s, step) && t == Apply(cfg, s, step);
  }

  lemma {:induction false} WhenItCame(cfg: Config, run: seq<State>, k: nat, p: nat, level: Level) returns (j: nat)
    requires Run(cfg, run) && k < |run| && p in run[k].attempts && Waits(run[k].attempts[p], level)
    ensures j < k && Comes(run[j], run[j + 1], p, level) && run[j].clock <= run[k].clock
    ensures run[k].attempts[p].phase.deadline == Deadline(cfg, run[j].clock)
    ensures forall i :: j < i <= k ==> p in run[i].attempts && Waits(run[i].attempts[p], level)
  {
    assert Next(cfg, run[k - 1], run[k - 1 + 1]);
    WaitGoesOn(cfg, run[k - 1], run[k], p, level);
    if Comes(run[k - 1], run[k], p, level) {
      j := k - 1;
    } else {
      j := WhenItCame(cfg, run, k - 1, p, level);
    }
  }

  lemma EndOfAWait(cfg: Config, s: State, t: State, p: nat, level: Level)
    requires Next(cfg, s, t) && p in s.attempts && Waits(s.attempts[p], level) && p in t.attempts
    ensures GivesUp(t.attempts[p], level) ==> s.clock >= s.attempts[p].phase.deadline
    ensures s.attempts[p].phase.Scanning? && t.attempts[p].phase.Sleeping? ==> s.clock < s.attempts[p].phase.deadline
  {
    var step :| Enabled(cfg, s, step) && t == Apply(cfg, s, step);
  }

  /** An attempt whose scan fails gives up only once the configured time has passed since it
      came to these slots, and goes to sleep for another scan only before that; so a wait of
      zero or less is never slept through. */
  lemma GivesUpExactlyWhenTheWaitIsOver(cfg: Config, run: seq<State>, k: nat, p: nat, level: Level) returns (j: nat)
    requires Run(cfg, run) && k + 1 < |run| && p in run[k].attempts && Waits(run[k].attempts[p], level)
    ensures j < k && Comes(run[j], run[j + 1], p, level)
    ensures forall i :: j < i <= k ==> p in run[i].attempts && Waits(run[i].attempts[p], level)
    ensures p in run[k + 1].attempts
    ensures GivesUp(run[k + 1].attempts[p], level) ==> run[k].clock - run[j].clock >= cfg.wait
    ensures run[k].attempts[p].phase.Scanning? && run[k + 1].attempts[p].phase.Sleeping? ==>
      0.0 <= run[k].clock - run[j].clock < cfg.wait
  {
    j := WhenItCame(cfg, run, k, p, level);
    assert Next(cfg, run[k], run[k + 1]);
    NextNeverReturnsToDeviceSide(cfg, run[k], run[k + 1], p);
    EndOfAWait(cfg, run[k], run[k + 1], p, level);
  }

  /** In every reachable state each live attempt has exactly one step of its own, besides
      dying: a scan tries its next slot while a configured one is left and otherwise comes to
      its end, a sleeper wakes, a body may exit, and what is left of an attempt is released. */
  lemma EveryLiveAttemptCanGoOn(cfg: Config, run: seq<State>, k: nat, p: nat, opens: bool)
    requires Run(cfg, run) && k < |run| && p in run[k].attempts && Live(run[k].attempts[p])
    ensures var s, ph := run[k], run[k].attempts[p].phase;
      && (Enabled(cfg, s, Try(p, opens)) <==>
            ph.Scanning? && (ph.next == 0 || ph.next < Configured(cfg, ph.level)))
      && (Enabled(cfg, s, Expire(p)) <==>
            ph.Scanning? && !(ph.next == 0 || ph.next < Configured(cfg, ph.level)))
      && (Enabled(cfg, s, Wake(p)) <==> ph.Sleeping?)
      && (Enabled(cfg, s, Exit(p)) <==> ph.InBody?)
      && (Enabled(cfg, s, Release(p)) <==> ph.Leaving?)
      && Enabled(cfg, s, Crash(p)) && !Enabled(cfg, s, Begin(p, run[k].attempts[p].device))
      && (ph.Scanning? || ph.Sleeping? || ph.InBody? || ph.Leaving?)
  {
    RunKeepsInv(cfg, run, k);
    assert Consistent(cfg, run[k].locks, p, run[k].attempts[p]);
  }

  /** A slot file that is locked, or that cannot be opened, is passed over: no lock changes
      and the scan comes to the next one. */
  lemma PassedOver(cfg: Config, s: State, p: nat, opens: bool)
    requires Enabled(cfg, s, Try(p, opens))
    requires !opens || Path(s.attempts[p].device, s.attempts[p].phase.level, s.attempts[p].phase.next) in s.locks
    ensures var a, t := s.attempts[p], Apply(cfg, s, Try(p, opens));
      && t.locks == s.locks && t.clock == s.clock
      && p in t.attempts && t.attempts[p].phase == Scanning(a.phase.level, a.phase.next + 1, a.phase.deadline)
      && t.attempts[p].deviceSlot == a.deviceSlot && t.attempts[p].fabricSlot == a.fabricSlot
  {
  }

  // ------------------------------------------------------------------
  // What an attempt's end says
  // ------------------------------------------------------------------

  predicate RanItsBody(a: Attempt) {
    a.phase.InBody? || a.phase == Leaving(false) || a.phase.Finished?
  }

  predicate NeverRan(a: Attempt) {
    a.phase.Scanning? || a.phase.Sleeping? || a.phase == Leaving(true) || a.phase.Denied?
  }

  lemma EndsComeFrom(cfg: Config, s: State, t: State, p: nat)
    requires Next(cfg, s, t) && p in t.attempts
    ensures RanItsBody(t.attempts[p]) && !t.attempts[p].phase.InBody? ==>
      p in s.attempts && RanItsBody(s.attempts[p])
    ensures NeverRan(t.attempts[p]) && p in s.attempts ==> NeverRan(s.attempts[p])
  {
    var step :| Enabled(cfg, s, step) && t == Apply(cfg, s, step);
  }

  lemma {:induction false} NeverRanBackwards(cfg: Config, run: seq<State>, k: nat, j: nat, p: nat)
    requires Run(cfg, run) && j <= k < |run|
    requires p in run[j].attempts && p in run[k].attempts && NeverRan(run[k].attempts[p])
    ensures NeverRan(run[j].attempts[p])
  {
    if j < k {
      DeviceSideIsClosedBackwards(cfg, run, k - 1, j, p);
      assert Next(cfg, run[k - 1], run[k - 1 + 1]);
      EndsComeFrom(cfg, run[k - 1], run[k], p);
      NeverRanBackwards(cfg, run, k - 1, j, p);
    }
  }

  /** An attempt that ends finished has run its body. */
  lemma {:induction false} FinishedMeansItsBodyRan(cfg: Config, run: seq<State>, k: nat, p: nat) returns (j: nat)
    requires Run(cfg, run) && k < |run| && p in run[k].attempts && RanItsBody(run[k].attempts[p])
    ensures j <= k && p in run[j].attempts && run[j].attempts[p].phase.InBody?
  {
    if run[k].attempts[p].phase.InBody? {
      j := k;
    } else {
      assert Next(cfg, run[k - 1], run[k - 1 + 1]);
      EndsComeFrom(cfg, run[k - 1], run[k], p);
      j := FinishedMeansItsBodyRan(cfg, run, k - 1, p);
    }
  }

  /** An attempt that ends refused, at either level, never ran its body. */
  lemma DeniedMeansItsBodyNeverRan(cfg: Config, run: seq<State>, k: nat, j: nat, p: nat)
    requires Run(cfg, run) && j <= k < |run| && p in run[j].attempts && p in run[k].attempts
    requires run[k].attempts[p].phase.Denied?
    ensures !run[j].attempts[p].phase.InBody?
  {
    NeverRanBackwards(cfg, run, k, j, p);
  }

  // ------------------------------------------------------------------
  // Refusals are earned: a scan that is not disturbed finds a free slot
  // whenever there is one, and otherwise every slot has its own holder
  // ------------------------------------------------------------------

  /** One scan by `p` from its present position, with no other step in between and
      every slot file openable. */
  function Scan(cfg: Config, s: State, p: nat): State
    requires p in s.attempts && s.attempts[p].phase.Scanning?
    decreases Cap(cfg, s.attempts[p].phase.level) - s.attempts[p].phase.next
  {
    var ph := s.attempts[p].phase;
    if ph.next >= Cap(cfg, ph.level) then s
    else if Path(s.attempts[p].device, ph.level, ph.next) in s.locks then
      Scan(cfg, Apply(cfg, s, Try(p, true)), p)
    else Apply(cfg, s, Try(p, true))
  }

  predicate Busy(s: State, device: string, level: Level, i: nat) {
    Path(device, level, i) in s.locks
  }

  /** The first free slot of the pool from `i` on, or the pool's size if all are busy. */
  function FirstFree(cfg: Config, s: State, device: string, level: Level, i: nat): (m: nat)
    requires i <= Cap(cfg, level)
    ensures i <= m <= Cap(cfg, level)
    ensures m < Cap(cfg, level) ==> !Busy(s, device, level, m)
    ensures forall j :: i <= j < m ==> Busy(s, device, level, j)
    decreases Cap(cfg, level) - i
  {
    if i == Cap(cfg, level) || !Busy(s, device, level, i) then i else FirstFree(cfg, s, device, level, i + 1)
  }

  lemma {:induction false} FirstFreeDependsOnLocks(cfg: Config, s: State, t: State, device: string, level: Level,
                                                   i: nat)
    requires i <= Cap(cfg, level) && s.locks == t.locks
    ensures FirstFree(cfg, s, device, level, i) == FirstFree(cfg, t, device, level, i)
    decreases Cap(cfg, level) - i
  {
    if i < Cap(cfg, level) && Busy(s, device, level, i) {
      FirstFreeDependsOnLocks(cfg, s, t, device, level, i + 1);
    }
  }

  /** The state after a scan that found slot `m` free, or none when `m` is the capacity. */
  function Scanned(cfg: Config, s: State, p: nat, m: nat): State
    requires p in s.attempts && s.attempts[p].phase.Scanning?
  {
    var a := s.attempts[p];
    var found := a.(phase := a.phase.(next := m));
    if m < Cap(cfg, a.phase.level)
    then State(s.attempts[p := Granted(cfg, s, found)], s.locks[Path(a.device, a.phase.level, m) := p], s.clock)
    else s.(attempts := s.attempts[p := found])
  }

  lemma TryBusySlot(cfg: Config, s: State, p: nat, m: nat)
    requires p in s.attempts && s.attempts[p].phase.Scanning?
    requires s.attempts[p].phase.next < Cap(cfg, s.attempts[p].phase.level)
    requires var a := s.attempts[p]; Busy(s, a.device, a.phase.level, a.phase.next)
    ensures var a := s.attempts[p];
      Apply(cfg, s, Try(p, true)) == s.(attempts := s.attempts[p := a.(phase := a.phase.(next := a.phase.next + 1))])
    ensures Scanned(cfg, Apply(cfg, s, Try(p, true)), p, m) == Scanned(cfg, s, p, m)
  {
  }

  lemma TryFreeSlot(cfg: Config, s: State, p: nat)
    requires p in s.attempts && s.attempts[p].phase.Scanning?
    requires s.attempts[p].phase.next < Cap(cfg, s.attempts[p].phase.level)
    requires var a := s.attempts[p]; !Busy(s, a.device, a.phase.level, a.phase.next)
    ensures Apply(cfg, s, Try(p, true)) == Scanned(cfg, s, p, s.attempts[p].phase.next)
  {
  }

  /** The scan takes the first free slot and nothing else; with no free slot it ends
      at the deadline check and has changed no lock. */
  lemma {:induction false} ScanTakesFirstFree(cfg: Config, s: State, p: nat)
    requires p in s.attempts && s.attempts[p].phase.Scanning?
    requires s.attempts[p].phase.next <= Cap(cfg, s.attempts[p].phase.level)
    ensures var a := s.attempts[p];
      Scan(cfg, s, p) == Scanned(cfg, s, p, FirstFree(cfg, s, a.device, a.phase.level, a.phase.next))
    decreases Cap(cfg, s.attempts[p].phase.level) - s.attempts[p].phase.next
  {
    var a := s.attempts[p];
    if a.phase.next == Cap(cfg, a.phase.level) {
      assert s.attempts[p := a] == s.attempts;
    } else if Busy(s, a.device, a.phase.level, a.phase.next) {
      var u := Apply(cfg, s, Try(p, true));
      var m := FirstFree(cfg, s, a.device, a.phase.level, a.phase.next);
      TryBusySlot(cfg, s, p, m);
      ScanTakesFirstFree(cfg, u, p);
      FirstFreeDependsOnLocks(cfg, s, u, a.device, a.phase.level, a.phase.next + 1);
    } else {
      TryFreeSlot(cfg, s, p);
    }
  }

  function Holders(s: State, level: Level, safe: string): set<nat> {
    set p | p in s.attempts &&
      (if level.DeviceLevel? then s.attempts[p].deviceSlot.Some? && Sanitize(s.attempts[p].device) == safe
       else s.attempts[p].fabricSlot.Some?)
  }

  function SlotOf(s: State, level: Level, p: nat): nat
    requires p in s.attempts
  {
    var a := s.attempts[p];
    var slot := if level.DeviceLevel? then a.deviceSlot else a.fabricSlot;
    if slot.Some? then slot.value else 0
  }

  lemma HolderLocksItsSlot(cfg: Config, s: State, device: string, level: Level, p: nat)
    requires Inv(cfg, s)
    requires p in Holders(s, level, Sanitize(device))
    ensures SlotOf(s, level, p) < Cap(cfg, level)
    ensures Path(device, level, SlotOf(s, level, p)) in s.locks
    ensures s.locks[Path(device, level, SlotOf(s, level, p))] == p
  {
    assert Consistent(cfg, s.locks, p, s.attempts[p]);
  }

  lemma BusySlotHasItsHolder(cfg: Config, s: State, device: string, level: Level, i: nat)
    requires Inv(cfg, s) && Busy(s, device, level, i)
    ensures var p := s.locks[Path(device, level, i)];
      p in Holders(s, level, Sanitize(device)) && SlotOf(s, level, p) == i
  {
    var a := s.attempts[s.locks[Path(device, level, i)]];
    assert Remembers(a, Path(device, level, i));
    if a.deviceSlot.Some? {
      SlotsNeverCollide(Sanitize(a.device), a.deviceSlot.value, Sanitize(device), i);
    }
    if a.fabricSlot.Some? {
      SlotsNeverCollide(Sanitize(device), i, Sanitize(device), a.fabricSlot.value);
    }
  }

  /** The capacity as it is configured, which may be too small to be used. */
  function Configured(cfg: Config, level: Level): int {
    if level.DeviceLevel? then cfg.deviceCap else cfg.fabricCap
  }

  /** When every slot of a pool is busy, as many attempts as are configured, and at least
      one, hold a slot of that very pool: attempts on other devices cannot fill it. */
  lemma FullPoolHasAllItsHolders(cfg: Config, s: State, device: string, level: Level)
    requires Inv(cfg, s)
    requires forall i: nat :: i == 0 || i < Configured(cfg, level) ==> Busy(s, device, level, i)
    ensures |Holders(s, level, Sanitize(device))| >= 1
    ensures |Holders(s, level, Sanitize(device))| >= Configured(cfg, level)
  {
    var n, holders := Cap(cfg, level), Holders(s, level, Sanitize(device));
    var owner := map i: nat | i < n && Busy(s, device, level, i) :: s.locks[Path(device, level, i)];
    forall i: nat | i < n
      ensures i in owner && owner[i] in holders && SlotOf(s, level, owner[i]) == i
    {
      BusySlotHasItsHolder(cfg, s, device, level, i);
    }
    Surjection(holders, owner, n);
  }

  /** Slots above a free one move down by one, so one number fewer is in use. */
  function Closed(slot: nat, free: nat): nat {
    if slot > free then slot - 1 else slot
  }

  lemma HoldersDiffer(cfg: Config, s: State, device: string, level: Level, p: nat, q: nat)
    requires Inv(cfg, s)
    requires p in Holders(s, level, Sanitize(device)) && q in Holders(s, level, Sanitize(device))
    ensures SlotOf(s, level, p) == SlotOf(s, level, q) ==> p == q
  {
    HolderLocksItsSlot(cfg, s, device, level, p);
    HolderLocksItsSlot(cfg, s, device, level, q);
  }

  /** With different numbers below `cap`, none of them `free`, there is room for one more. */
  lemma UnusedNumberLeavesRoom(holders: set<nat>, number: map<nat, nat>, cap: nat, free: nat)
    requires holders <= number.Keys && free < cap
    requires forall p :: p in holders ==> number[p] < cap && number[p] != free
    requires forall p, q :: p in holders && q in holders && number[p] == number[q] ==> p == q
    ensures |holders| < cap
  {
    var closed := map p | p in holders :: Closed(number[p], free);
    Pigeonhole(holders, closed, cap - 1);
  }

  lemma FreeSlotLeavesRoom(cfg: Config, s: State, device: string, level: Level, i: nat)
    requires Inv(cfg, s)
    requires i < Cap(cfg, level) && !Busy(s, device, level, i)
    ensures |Holders(s, level, Sanitize(device))| < Cap(cfg, level)
  {
    var holders := Holders(s, level, Sanitize(device));
    var slot := map p | p in holders :: SlotOf(s, level, p);
    forall p | p in holders ensures slot[p] < Cap(cfg, level) && slot[p] != i {
      HolderLocksItsSlot(cfg, s, device, level, p);
    }
    forall p, q | p in holders && q in holders && slot[p] == slot[q] ensures p == q {
      HoldersDiffer(cfg, s, device, level, p, q);
    }
    UnusedNumberLeavesRoom(holders, slot, Cap(cfg, level), i);
  }

  /** An undisturbed scan comes back empty-handed exactly when as many attempts as are
      configured, and at least one, hold a slot of the pool it scans: attempts on that same
      device, or on the fabric. */
  lemma LoneScanFailsExactlyWhenFull(cfg: Config, s: State, p: nat)
    requires Inv(cfg, s)
    requires p in s.attempts && s.attempts[p].phase.Scanning? && s.attempts[p].phase.next == 0
    ensures s.attempts[p].phase.level.DeviceLevel? ==>
      var n := |Holders(s, DeviceLevel, Sanitize(s.attempts[p].device))|;
      (Scan(cfg, s, p).locks == s.locks) <==> (n >= 1 && n >= cfg.deviceCap)
    ensures s.attempts[p].phase.level.FabricLevel? ==>
      var n := |Holders(s, FabricLevel, Sanitize(s.attempts[p].device))|;
      (Scan(cfg, s, p).locks == s.locks) <==> (n >= 1 && n >= cfg.fabricCap)
  {
    var a := s.attempts[p];
    var cap := Cap(cfg, a.phase.level);
    ScanTakesFirstFree(cfg, s, p);
    var m := FirstFree(cfg, s, a.device, a.phase.level, 0);
    if m < cap {
      FreeSlotLeavesRoom(cfg, s, a.device, a.phase.level, m);
      assert Path(a.device, a.phase.level, m) in Scan(cfg, s, p).locks;
    } else {
      FullPoolHasAllItsHolders(cfg, s, a.device, a.phase.level);
    }
  }
}
