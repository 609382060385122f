/** When the whole window of the event-run state holds. All starts share one list, so a start
    of one device can prune another device's, and lateness costs each device its window too. */
module EventWindows {
  import opened Common
  import opened EventRuns
  import opened SlidingLog
  import RateWindow

  function AllStarts(cfg: Config, ops: seq<Op>): seq<real> {
    Times(Starts(cfg, ops), All)
  }

  /** With accepted readings up to `skew` late, the whole window holds for the fabric limit. */
  ghost predicate FullFabricWindow(cfg: Config, skew: real) {
    forall ops :: LateBy(AllStarts(cfg, ops), skew) ==>
      Bounded(AllStarts(cfg, ops), cfg.window, AtLeastOne(cfg.fabricLimit))
  }

  /** And for one device and its limit. */
  ghost predicate FullDeviceWindow(cfg: Config, skew: real, device: string) {
    forall ops :: LateBy(AllStarts(cfg, ops), skew) ==>
      Bounded(Times(Starts(cfg, ops), OfDevice(device)), cfg.window, AtLeastOne(cfg.deviceLimit))
  }

  // ------------------------------------------------------------------
  // A run that overfills a window: starts at zero, one start far ahead that
  // prunes them, and one late start
  // ------------------------------------------------------------------

  /** A name of each length. */
  function Name(i: nat): (r: string)
    ensures |r| == i
  {
    seq(i, _ => 'a')
  }

  /** Who starts: one device, with another for the start that is ahead, or all different. */
  datatype Cast = One(device: string) | Different

  function Player(cast: Cast, i: nat): string {
    if cast.One? then cast.device else Name(i)
  }

  function Ahead(cast: Cast, n: nat): string {
    if cast.One? then cast.device + "x" else Name(n)
  }

  function Fill(cast: Cast, k: nat): seq<Op> {
    if k == 0 then [] else Fill(cast, k - 1) + [AdmitOp(Name(k - 1), Player(cast, k - 1), 0.0)]
  }

  function Filled(cast: Cast, k: nat): seq<Entry> {
    if k == 0 then [] else Filled(cast, k - 1) + [Entry(0.0, Player(cast, k - 1), Name(k - 1))]
  }

  lemma {:induction false} FilledTimes(cast: Cast, k: nat)
    ensures Times(Filled(cast, k), All) == RateWindow.Zeros(k) && |Filled(cast, k)| == k
    ensures cast.One? ==> Times(Filled(cast, k), OfDevice(cast.device)) == RateWindow.Zeros(k)
  {
    if k > 0 {
      var e := Entry(0.0, Player(cast, k - 1), Name(k - 1));
      FilledTimes(cast, k - 1);
      TimesSnoc(Filled(cast, k - 1), e, All);
      TimesSnoc(Filled(cast, k - 1), e, OfDevice(e.device));
    }
  }

  lemma {:induction false} NoNamesake(k: nat, i: nat)
    requires i >= k
    ensures Times(Filled(Different, k), OfDevice(Name(i))) == []
  {
    if k > 0 {
      NoNamesake(k - 1, i);
      TimesSnoc(Filled(Different, k - 1), Entry(0.0, Name(k - 1), Name(k - 1)), OfDevice(Name(i)));
    }
  }

  lemma {:induction false} FilledKept(cast: Cast, k: nat, cutoff: real)
    ensures KeptEntries(Filled(cast, k), cutoff) == if cutoff <= 0.0 then Filled(cast, k) else []
  {
    if k > 0 {
      FilledKept(cast, k - 1, cutoff);
      KeptEntriesSnoc(Filled(cast, k - 1), Entry(0.0, Player(cast, k - 1), Name(k - 1)), cutoff);
    }
  }

  /** The state has these starts, and no identity as long as `k`. */
  predicate Holds(s: State, starts: seq<Entry>, k: nat) {
    s.starts == starts && forall id :: id in s.events ==> |id| < k
  }

  /** The run leaves these starts in the file, has admitted these, and has seen no identity as
      long as `k`. */
  predicate Stands(cfg: Config, ops: seq<Op>, starts: seq<Entry>, admitted: seq<Entry>, k: nat) {
    Holds(RunFrom(cfg, EMPTY, ops), starts, k) && Starts(cfg, ops) == admitted
  }

  lemma AcceptsNew(cfg: Config, s: State, id: string, device: string, now: real, kept: seq<Entry>)
    requires Holds(s, s.starts, |id|) && kept == KeptEntries(s.starts, now - cfg.window)
    requires |Times(kept, OfDevice(device))| < AtLeastOne(cfg.deviceLimit) && |kept| < AtLeastOne(cfg.fabricLimit)
    ensures Accepts(cfg, s, AdmitOp(id, device, now))
    ensures Holds(Apply(cfg, s, AdmitOp(id, device, now)), kept + [Entry(now, device, id)], |id| + 1)
  {
  }

  /** A new identity is admitted when the budgets have room. */
  lemma NewIdentityStarts(cfg: Config, ops: seq<Op>, starts: seq<Entry>, admitted: seq<Entry>, k: nat, device: string,
                          now: real, cutoff: real, kept: seq<Entry>)
    requires cutoff == now - cfg.window && kept == KeptEntries(starts, cutoff)
    requires Stands(cfg, ops, starts, admitted, k)
    requires |Times(kept, OfDevice(device))| < AtLeastOne(cfg.deviceLimit) && |kept| < AtLeastOne(cfg.fabricLimit)
    ensures var e := Entry(now, device, Name(k));
      Stands(cfg, ops + [AdmitOp(Name(k), device, now)], kept + [e], admitted + [e], k + 1)
  {
    var s, op := RunFrom(cfg, EMPTY, ops), AdmitOp(Name(k), device, now);
    RunSnoc(cfg, EMPTY, ops, op);
    StartsSnoc(cfg, ops, op);
    AcceptsNew(cfg, s, Name(k), device, now, kept);
    assert Holds(Apply(cfg, s, op), kept + [Entry(now, device, Name(k))], k + 1);
  }

  /** The starts at zero fit the budgets. */
  predicate Fits(cfg: Config, cast: Cast, n: nat) {
    n <= AtLeastOne(cfg.fabricLimit) && (cast.One? ==> n <= AtLeastOne(cfg.deviceLimit))
  }

  lemma PlayerHasRoom(cfg: Config, cast: Cast, k: nat)
    requires Fits(cfg, cast, k + 1)
    ensures |Times(Filled(cast, k), OfDevice(Player(cast, k)))| < AtLeastOne(cfg.deviceLimit)
    ensures |Filled(cast, k)| < AtLeastOne(cfg.fabricLimit)
  {
    FilledTimes(cast, k);
    RateWindow.ZerosAreInOrder(k);
    if cast.Different? {
      NoNamesake(k, k);
    }
  }

  lemma ZeroStarts(cfg: Config, cast: Cast, k: nat, ops: seq<Op>, filled: seq<Entry>)
    requires cfg.window >= 0.0 && Fits(cfg, cast, k + 1) && filled == Filled(cast, k)
    requires Stands(cfg, ops, filled, filled, k)
    ensures var e := Entry(0.0, Player(cast, k), Name(k));
      Stands(cfg, ops + [AdmitOp(Name(k), Player(cast, k), 0.0)], filled + [e], filled + [e], k + 1)
  {
    PlayerHasRoom(cfg, cast, k);
    var cutoff := 0.0 - cfg.window;
    FilledKept(cast, k, cutoff);
    NewIdentityStarts(cfg, ops, filled, filled, k, Player(cast, k), 0.0, cutoff, filled);
  }

  lemma {:induction false} ZerosStart(cfg: Config, cast: Cast, k: nat)
    requires cfg.window >= 0.0 && Fits(cfg, cast, k)
    ensures Stands(cfg, Fill(cast, k), Filled(cast, k), Filled(cast, k), k)
  {
    if k > 0 {
      var ops, filled := Fill(cast, k - 1), Filled(cast, k - 1);
      ZerosStart(cfg, cast, k - 1);
      ZeroStarts(cfg, cast, k - 1, ops, filled);
      assert Fill(cast, k) == ops + [AdmitOp(Name(k - 1), Player(cast, k - 1), 0.0)];
      assert Filled(cast, k) == filled + [Entry(0.0, Player(cast, k - 1), Name(k - 1))];
    }
  }

  function Start(e: Entry): Op {
    AdmitOp(e.id, e.device, e.time)
  }

  /** The start far ahead finds an empty file. */
  lemma AheadStarts(cfg: Config, ops: seq<Op>, filled: seq<Entry>, n: nat, e: Entry)
    requires Stands(cfg, ops, filled, filled, n) && KeptEntries(filled, e.time - cfg.window) == [] && e.id == Name(n)
    ensures Stands(cfg, ops + [Start(e)], [e], filled + [e], n + 1)
  {
    assert [] + [e] == [e] && Times([], OfDevice(e.device)) == [];
    NewIdentityStarts(cfg, ops, filled, filled, n, e.device, e.time, e.time - cfg.window, []);
  }

  /** The late start finds only that one, of another device. */
  lemma LateStarts(cfg: Config, ops: seq<Op>, admitted: seq<Entry>, k: nat, e: Entry, late: Entry)
    requires Stands(cfg, ops, [e], admitted, k) && cfg.fabricLimit >= 2
    requires late.time == cfg.window && e.time >= 0.0 && e.device != late.device && late.id == Name(k)
    ensures Starts(cfg, ops + [Start(late)]) == admitted + [late]
  {
    var cutoff := late.time - cfg.window;
    OneKept(e, cutoff);
    OneTime(e, OfDevice(late.device));
    NewIdentityStarts(cfg, ops, [e], admitted, k, late.device, late.time, cutoff, [e]);
  }

  lemma AheadThenLate(cfg: Config, ops: seq<Op>, filled: seq<Entry>, n: nat, e: Entry, late: Entry)
    requires Stands(cfg, ops, filled, filled, n) && cfg.fabricLimit >= 2
    requires KeptEntries(filled, e.time - cfg.window) == [] && e.time >= 0.0 && e.id == Name(n)
    requires late.time == cfg.window && e.device != late.device && late.id == Name(n + 1)
    ensures Starts(cfg, ops + [Start(e)] + [Start(late)]) ==
      filled + [e] + [late]
  {
    AheadStarts(cfg, ops, filled, n, e);
    LateStarts(cfg, ops + [Start(e)], filled + [e], n + 1, e, late);
  }

  lemma OneKept(e: Entry, cutoff: real)
    ensures KeptEntries([e], cutoff) == if e.time >= cutoff then [e] else []
  {
    KeptEntriesSnoc([], e, cutoff);
    assert [] + [e] == [e];
  }

  lemma OneTime(e: Entry, pick: Pick)
    ensures Times([e], pick) == if Picked(e, pick) then [e.time] else []
  {
    TimesSnoc([], e, pick);
    assert [] + [e] == [e];
  }

  lemma TimesOfLate(cast: Cast, n: nat, e: Entry, late: Entry)
    requires cast.One? ==> e.device != cast.device && late.device == cast.device
    ensures Times(Filled(cast, n) + [e] + [late], All) == RateWindow.Zeros(n) + [e.time] + [late.time]
    ensures cast.One? ==>
      Times(Filled(cast, n) + [e] + [late], OfDevice(cast.device)) == RateWindow.Zeros(n) + [late.time]
  {
    var filled := Filled(cast, n);
    FilledTimes(cast, n);
    TimesSnoc(filled, e, All);
    TimesSnoc(filled + [e], late, All);
    if cast.One? {
      TimesSnoc(filled, e, OfDevice(cast.device));
      TimesSnoc(filled + [e], late, OfDevice(cast.device));
      assert RateWindow.Zeros(n) + [] == RateWindow.Zeros(n);
    }
  }

  lemma AheadIsAnother(cast: Cast, n: nat)
    ensures Ahead(cast, n) != Player(cast, n + 1)
  {
    if cast.One? {
      assert |cast.device + "x"| != |cast.device|;
    }
  }

  function LateRun(cast: Cast, n: nat, e: Entry, late: Entry): seq<Op> {
    Fill(cast, n) + [Start(e)] + [Start(late)]
  }

  /** Starts at zero, the start that is ahead, and the late one. */
  predicate Overfilling(cfg: Config, cast: Cast, n: nat, e: Entry, late: Entry) {
    && cfg.window >= 0.0 && Fits(cfg, cast, n) && cfg.fabricLimit >= 2
    && e.time > cfg.window && e.device == Ahead(cast, n) && e.id == Name(n)
    && late == Entry(cfg.window, Player(cast, n + 1), Name(n + 1))
  }

  lemma LateRunStarts(cfg: Config, cast: Cast, n: nat, e: Entry, late: Entry)
    requires Overfilling(cfg, cast, n, e, late)
    ensures Starts(cfg, LateRun(cast, n, e, late)) == Filled(cast, n) + [e] + [late]
  {
    ZerosStart(cfg, cast, n);
    FilledKept(cast, n, e.time - cfg.window);
    AheadIsAnother(cast, n);
    AheadThenLate(cfg, Fill(cast, n), Filled(cast, n), n, e, late);
  }

  lemma LateTimes(cfg: Config, cast: Cast, n: nat, e: Entry, late: Entry)
    requires Overfilling(cfg, cast, n, e, late)
    ensures var starts := Starts(cfg, LateRun(cast, n, e, late));
      && Times(starts, All) == RateWindow.Zeros(n) + [e.time] + [late.time]
      && (cast.One? ==> Times(starts, OfDevice(cast.device)) == RateWindow.Zeros(n) + [late.time])
  {
    LateRunStarts(cfg, cast, n, e, late);
    AheadIsAnother(cast, n);
    TimesOfLate(cast, n, e, late);
  }

  lemma OverfullWindow(stamps: seq<real>, n: nat, window: real, late: real)
    requires window >= 0.0 && late > 0.0
    ensures stamps == RateWindow.Zeros(n) + [window + late] + [window] ==>
      LateBy(stamps, late) && !Bounded(stamps, window, n)
    ensures stamps == RateWindow.Zeros(n) + [window] ==> !Bounded(stamps, window, n)
  {
    RateWindow.ReadingsLate(n, window + late, window);
    RateWindow.LateIsCrowded(n, window + late, window);
    RateWindow.ZerosAreCounted(n, window);
    CountSnoc(RateWindow.Zeros(n), window, 0.0, window);
    assert CountIn(RateWindow.Zeros(n) + [window], 0.0, window) > n;
  }

  /** Any lateness breaks the whole window of the fabric once its limit is two. */
  lemma FabricIsOverfilled(cfg: Config, skew: real)
    requires cfg.window >= 0.0 && skew > 0.0 && cfg.fabricLimit >= 2
    ensures !FullFabricWindow(cfg, skew)
  {
    var n := AtLeastOne(cfg.fabricLimit);
    var e, late := Entry(cfg.window + skew, Name(n), Name(n)), Entry(cfg.window, Name(n + 1), Name(n + 1));
    var ops := LateRun(Different, n, e, late);
    LateTimes(cfg, Different, n, e, late);
    OverfullWindow(AllStarts(cfg, ops), n, cfg.window, skew);
  }

  /** And that of every device whose limit is not above the fabric's. */
  lemma DeviceIsOverfilled(cfg: Config, skew: real, device: string)
    requires cfg.window >= 0.0 && skew > 0.0 && cfg.fabricLimit >= 2
    requires AtLeastOne(cfg.deviceLimit) <= cfg.fabricLimit
    ensures !FullDeviceWindow(cfg, skew, device)
  {
    var n := AtLeastOne(cfg.deviceLimit);
    var e, late := Entry(cfg.window + skew, device + "x", Name(n)), Entry(cfg.window, device, Name(n + 1));
    var ops := LateRun(One(device), n, e, late);
    LateTimes(cfg, One(device), n, e, late);
    OverfullWindow(AllStarts(cfg, ops), n, cfg.window, skew);
    OverfullWindow(Times(Starts(cfg, ops), OfDevice(device)), n, cfg.window, skew);
  }

  // ------------------------------------------------------------------
  // Exactly when the whole window holds
  // ------------------------------------------------------------------

  lemma {:induction false} DeviceCountsLess(starts: seq<Entry>, device: string, lo: real, hi: real)
    ensures CountIn(Times(starts, OfDevice(device)), lo, hi) <= CountIn(Times(starts, All), lo, hi)
  {
    if starts != [] {
      var front, last := starts[..|starts| - 1], starts[|starts| - 1];
      assert starts == front + [last];
      DeviceCountsLess(front, device, lo, hi);
      TimesSnoc(front, last, OfDevice(device));
      TimesSnoc(front, last, All);
      CountSnoc(Times(front, OfDevice(device)), last.time, lo, hi);
      CountSnoc(Times(front, All), last.time, lo, hi);
      assert Times(front, OfDevice(device)) + [] == Times(front, OfDevice(device));
    }
  }

  lemma WholeWindow(cfg: Config, ops: seq<Op>, skew: real, device: string)
    requires LateBy(AllStarts(cfg, ops), skew) && (skew == 0.0 || cfg.fabricLimit <= 1)
    ensures Bounded(AllStarts(cfg, ops), cfg.window, AtLeastOne(cfg.fabricLimit))
    ensures Bounded(Times(Starts(cfg, ops), OfDevice(device)), cfg.window, AtLeastOne(cfg.deviceLimit))
  {
    if skew == 0.0 {
      RunBudgetsHold(cfg, ops, 0.0, device);
    } else {
      FabricLimitOfOneNeedsNoClock(cfg, ops);
      forall lo, hi | lo <= hi <= lo + cfg.window
        ensures CountIn(Times(Starts(cfg, ops), OfDevice(device)), lo, hi) <= AtLeastOne(cfg.deviceLimit)
      {
        DeviceCountsLess(Starts(cfg, ops), device, lo, hi);
      }
    }
  }

  /** The fabric's whole window holds exactly when no accepted reading is late or the fabric
      limit is at most one. */
  lemma FullFabricWindowExactly(cfg: Config, skew: real)
    requires cfg.window >= 0.0 && skew >= 0.0
    ensures FullFabricWindow(cfg, skew) <==> skew == 0.0 || cfg.fabricLimit <= 1
  {
    if skew > 0.0 && cfg.fabricLimit >= 2 {
      FabricIsOverfilled(cfg, skew);
    } else {
      forall ops | LateBy(AllStarts(cfg, ops), skew)
        ensures Bounded(AllStarts(cfg, ops), cfg.window, AtLeastOne(cfg.fabricLimit))
      {
        WholeWindow(cfg, ops, skew, "");
      }
    }
  }

  /** A device whose limit is not above the fabric's has its whole window under exactly the
      same condition: a device limit of one does not help. */
  lemma FullDeviceWindowExactly(cfg: Config, skew: real, device: string)
    requires cfg.window >= 0.0 && skew >= 0.0
    requires AtLeastOne(cfg.deviceLimit) <= AtLeastOne(cfg.fabricLimit)
    ensures FullDeviceWindow(cfg, skew, device) <==> skew == 0.0 || cfg.fabricLimit <= 1
  {
    if skew > 0.0 && cfg.fabricLimit >= 2 {
      DeviceIsOverfilled(cfg, skew, device);
    } else {
      forall ops | LateBy(AllStarts(cfg, ops), skew)
        ensures Bounded(Times(Starts(cfg, ops), OfDevice(device)), cfg.window, AtLeastOne(cfg.deviceLimit))
      {
        WholeWindow(cfg, ops, skew, device);
      }
    }
  }

  /** With limits of one per device and two for the fabric, a device gets two starts within the
      window of ten: another device's start, a second ahead, prunes its first. */
  lemma LateStartOfAnotherDevice()
    ensures var cfg := Config(1, 2, 10.0, 0.0);
      var ops := [AdmitOp("", "PE1", 0.0)] + [AdmitOp("a", "PE1x", 11.0)] + [AdmitOp("aa", "PE1", 10.0)];
      Times(Starts(cfg, ops), OfDevice("PE1")) == [0.0, 10.0]
  {
    var cfg, e, late := Config(1, 2, 10.0, 0.0), Entry(11.0, "PE1x", "a"), Entry(10.0, "PE1", "aa");
    assert Name(0) == "" && Name(1) == "a" && Name(2) == "aa" && "PE1" + "x" == "PE1x";
    LateTimes(cfg, One("PE1"), 1, e, late);
    assert Fill(One("PE1"), 0) + [AdmitOp("", "PE1", 0.0)] == [AdmitOp("", "PE1", 0.0)];
    assert RateWindow.Zeros(0) + [0.0] == [0.0];
  }
}
