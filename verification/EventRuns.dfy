/** Admission of event-woken runs: one state file holds the recent starts and the
    latest outcome of each event, and is read, pruned and rewritten under one lock. */
module EventRuns {
  import opened Common
  import opened SlidingLog

  datatype Status = Accepted | Running | Completed | TerminalFailed | RetryableFailed

  datatype Event = Event(device: string, status: Status, updated: real)

  datatype Config = Config(deviceLimit: int, fabricLimit: int, window: real, idempotency: real)

  datatype Outcome = Admitted | DuplicateEvent | DeviceExhausted | FabricExhausted

  datatype State = State(starts: seq<Entry>, events: map<string, Event>)

  const EMPTY := State([], map[])

  /** 300 seconds, or the idempotency window when that is shorter, but at least one second. */
  function Lease(cfg: Config): (lease: real)
    ensures cfg.idempotency >= 300.0 ==> lease == 300.0
    ensures 1.0 <= cfg.idempotency < 300.0 ==> lease == cfg.idempotency
    ensures cfg.idempotency < 1.0 ==> lease == 1.0
  {
    var floored := if cfg.idempotency > 1.0 then cfg.idempotency else 1.0;
    if floored < 300.0 then floored else 300.0
  }

  function Retained(events: map<string, Event>, cutoff: real): map<string, Event> {
    map id | id in events && events[id].updated >= cutoff :: events[id]
  }

  /** A retained event that bars its identity: under lease, or over for good. */
  predicate Bars(cfg: Config, e: Event, now: real) {
    || ((e.status.Accepted? || e.status.Running?) && now - e.updated < Lease(cfg))
    || e.status.Completed?
    || e.status.TerminalFailed?
  }

  function BudgetOutcome(cfg: Config, retained: seq<Entry>, device: string): Outcome {
    if |Times(retained, OfDevice(device))| >= AtLeastOne(cfg.deviceLimit) then DeviceExhausted
    else if |retained| >= AtLeastOne(cfg.fabricLimit) then FabricExhausted
    else Admitted
  }

  function Decide(cfg: Config, s: State, id: string, device: string, now: real): Outcome {
    var events := Retained(s.events, now - cfg.idempotency);
    if id in events && Bars(cfg, events[id], now) then DuplicateEvent
    else BudgetOutcome(cfg, KeptEntries(s.starts, now - cfg.window), device)
  }

  function Admit(cfg: Config, s: State, id: string, device: string, now: real): State {
    if Decide(cfg, s, id, device, now) != Admitted then s
    else State(KeptEntries(s.starts, now - cfg.window) + [Entry(now, device, id)],
               Retained(s.events, now - cfg.idempotency)[id := Event(device, Accepted, now)])
  }

  function FinishEvents(events: map<string, Event>, id: string, completed: bool, now: real): map<string, Event> {
    if id in events
    then events[id := events[id].(status := if completed then Completed else RetryableFailed, updated := now)]
    else events
  }

  function Finish(s: State, id: string, completed: bool, now: real): State {
    s.(events := FinishEvents(s.events, id, completed, now))
  }

  /** The entry bars its identity at this age: within the idempotency window, and either
      settled or still inside its lease of at most 300 seconds. */
  predicate BarsAtAge(cfg: Config, status: Status, age: real) {
    && age <= cfg.idempotency
    && match status
       case Completed => true
       case TerminalFailed => true
       case RetryableFailed => false
       case _ => age < 300.0 && (cfg.idempotency < 1.0 || age < cfg.idempotency)
  }

  function Young(starts: seq<Entry>, window: real, now: real): set<nat> {
    set i: nat | i < |starts| && now - starts[i].time <= window
  }

  /** The decision in the configured numbers: identity first, then the device's starts within
      the window, then all starts within it; a limit below one counts as one. */
  lemma DecisionByTheNumbers(cfg: Config, s: State, id: string, device: string, now: real)
    ensures var young := Young(s.starts, cfg.window, now);
      var own := set i | i in young && s.starts[i].device == device;
      Decide(cfg, s, id, device, now) ==
        if id in s.events && BarsAtAge(cfg, s.events[id].status, now - s.events[id].updated) then DuplicateEvent
        else if |own| >= 1 && |own| >= cfg.deviceLimit then DeviceExhausted
        else if |young| >= 1 && |young| >= cfg.fabricLimit then FabricExhausted
        else Admitted
  {
    var cutoff, young := now - cfg.window, Young(s.starts, cfg.window, now);
    KeptAreThePlaces(s.starts, OfDevice(device), cutoff);
    KeptAreThePlaces(s.starts, All, cutoff);
    AllTimes(KeptEntries(s.starts, cutoff));
    assert Places(s.starts, All, cutoff) == young;
    assert Places(s.starts, OfDevice(device), cutoff) == set i | i in young && s.starts[i].device == device;
  }

  class EventStore {
    var starts: seq<Entry>
    var events: map<string, Event>

    constructor ()
      ensures starts == [] && events == map[]
    {
      starts, events := [], map[];
    }

    function Contents(): State
      reads this
    {
      State(starts, events)
    }

    method AdmitEventRun(cfg: Config, id: string, device: string, now: real) returns (outcome: Outcome)
      modifies this
      ensures outcome == Decide(cfg, old(Contents()), id, device, now)
      ensures Contents() == Admit(cfg, old(Contents()), id, device, now)
      ensures outcome != Admitted ==> Contents() == old(Contents())
    {
      var retainedStarts := RetainStarts(starts, now - cfg.window);
      var retainedEvents := RetainEvents(events, now - cfg.idempotency);
      if id in retainedEvents {
        var prior := retainedEvents[id];
        var active := (prior.status.Accepted? || prior.status.Running?) && now - prior.updated < Lease(cfg);
        var completed := prior.status.Completed? || prior.status.TerminalFailed?;
        if active || completed {
          return DuplicateEvent;
        }
      }
      var deviceStarts := CountDevice(retainedStarts, device);
      if deviceStarts >= AtLeastOne(cfg.deviceLimit) {
        return DeviceExhausted;
      }
      if |retainedStarts| >= AtLeastOne(cfg.fabricLimit) {
        return FabricExhausted;
      }
      starts := retainedStarts + [Entry(now, device, id)];
      events := retainedEvents[id := Event(device, Accepted, now)];
      return Admitted;
    }

    method FinishEventRun(id: string, completed: bool, now: real)
      modifies this`events
      ensures Contents() == Finish(old(Contents()), id, completed, now)
    {
      if id in events {
        var status := if completed then Completed else RetryableFailed;
        events := events[id := events[id].(status := status, updated := now)];
      }
    }
  }

  method RetainStarts(starts: seq<Entry>, cutoff: real) returns (kept: seq<Entry>)
    ensures kept == KeptEntries(starts, cutoff)
  {
    kept := [];
    for i := 0 to |starts|
      invariant kept == KeptEntries(starts[..i], cutoff)
    {
      assert starts[..i + 1][..i] == starts[..i];
      if starts[i].time >= cutoff {
        kept := kept + [starts[i]];
      }
    }
    assert starts[..|starts|] == starts;
  }

  method RetainEvents(events: map<string, Event>, cutoff: real) returns (kept: map<string, Event>)
    ensures kept == Retained(events, cutoff)
  {
    kept := map[];
    var todo := events.Keys;
    while todo != {}
      invariant todo <= events.Keys
      invariant kept == map id | id in events.Keys - todo && events[id].updated >= cutoff :: events[id]
      decreases |todo|
    {
      var id :| id in todo;
      if events[id].updated >= cutoff {
        kept := kept[id := events[id]];
      }
      todo := todo - {id};
    }
  }

  method CountDevice(starts: seq<Entry>, device: string) returns (n: nat)
    ensures n == |Times(starts, OfDevice(device))|
  {
    n := 0;
    for i := 0 to |starts|
      invariant n == |Times(starts[..i], OfDevice(device))|
    {
      assert starts[..i + 1][..i] == starts[..i];
      if starts[i].device == device {
        n := n + 1;
      }
    }
    assert starts[..|starts|] == starts;
  }

  // ------------------------------------------------------------------
  // Runs, beside the history that is never pruned
  // ------------------------------------------------------------------

  datatype Op =
    | AdmitOp(id: string, device: string, now: real)
    | FinishOp(id: string, completed: bool, now: real)

  function Apply(cfg: Config, s: State, op: Op): State {
    match op
    case AdmitOp(id, device, now) => Admit(cfg, s, id, device, now)
    case FinishOp(id, completed, now) => Finish(s, id, completed, now)
  }

  function RunFrom(cfg: Config, s: State, ops: seq<Op>): State {
    if ops == [] then s
    else Apply(cfg, RunFrom(cfg, s, ops[..|ops| - 1]), ops[|ops| - 1])
  }

  predicate Accepts(cfg: Config, s: State, op: Op) {
    op.AdmitOp? && Decide(cfg, s, op.id, op.device, op.now) == Admitted
  }

  /** Every start ever admitted, in the order of the lock. */
  function Starts(cfg: Config, ops: seq<Op>): seq<Entry> {
    if ops == [] then []
    else
      var before, op := ops[..|ops| - 1], ops[|ops| - 1];
      Starts(cfg, before) +
      (if Accepts(cfg, RunFrom(cfg, EMPTY, before), op) then [Entry(op.now, op.device, op.id)] else [])
  }

  /** The latest word on every event ever seen. */
  function Latest(cfg: Config, ops: seq<Op>): map<string, Event> {
    if ops == [] then map[]
    else
      var before, op := ops[..|ops| - 1], ops[|ops| - 1];
      var latest := Latest(cfg, before);
      match op
      case AdmitOp(id, device, now) =>
        if Accepts(cfg, RunFrom(cfg, EMPTY, before), op) then latest[id := Event(device, Accepted, now)] else latest
      case FinishOp(id, completed, now) => FinishEvents(latest, id, completed, now)
  }

  ghost predicate SameFrom(log: seq<Entry>, full: seq<Entry>, readings: seq<real>, window: real) {
    forall cutoff :: Settled(cutoff, readings, window) ==> KeptEntries(log, cutoff) == KeptEntries(full, cutoff)
  }

  lemma StartKeepsSame(log: seq<Entry>, full: seq<Entry>, readings: seq<real>, window: real, e: Entry)
    requires SameFrom(log, full, readings, window)
    ensures SameFrom(KeptEntries(log, e.time - window) + [e], full + [e], readings + [e.time], window)
  {
    forall cutoff | Settled(cutoff, readings + [e.time], window)
      ensures KeptEntries(KeptEntries(log, e.time - window) + [e], cutoff) == KeptEntries(full + [e], cutoff)
    {
      SettledBefore(cutoff, readings, e.time, window);
      KeptEntriesTwice(log, e.time - window, cutoff);
      KeptEntriesSnoc(KeptEntries(log, e.time - window), e, cutoff);
      KeptEntriesSnoc(full, e, cutoff);
    }
  }

  lemma StartsSnoc(cfg: Config, ops: seq<Op>, op: Op)
    ensures Starts(cfg, ops + [op]) == Starts(cfg, ops) +
      (if Accepts(cfg, RunFrom(cfg, EMPTY, ops), op) then [Entry(op.now, op.device, op.id)] else [])
  {
    var all := ops + [op];
    assert all[..|all| - 1] == ops;
  }

  lemma RunSnoc(cfg: Config, s: State, ops: seq<Op>, op: Op)
    ensures RunFrom(cfg, s, ops + [op]) == Apply(cfg, RunFrom(cfg, s, ops), op)
  {
    var all := ops + [op];
    assert all[..|all| - 1] == ops;
  }

  /** One operation on a state whose starts agree with the full list. */
  lemma OperationKeepsSame(cfg: Config, s: State, full: seq<Entry>, op: Op)
    requires SameFrom(s.starts, full, Times(full, All), cfg.window)
    ensures var after := full + (if Accepts(cfg, s, op) then [Entry(op.now, op.device, op.id)] else []);
      SameFrom(Apply(cfg, s, op).starts, after, Times(after, All), cfg.window)
  {
    if Accepts(cfg, s, op) {
      var e := Entry(op.now, op.device, op.id);
      StartKeepsSame(s.starts, full, Times(full, All), cfg.window, e);
      TimesSnoc(full, e, All);
    } else {
      assert full + [] == full;
    }
  }

  lemma {:induction false} StartsStayFaithful(cfg: Config, ops: seq<Op>)
    ensures var full := Starts(cfg, ops);
      SameFrom(RunFrom(cfg, EMPTY, ops).starts, full, Times(full, All), cfg.window)
  {
    if ops != [] {
      var before, op := ops[..|ops| - 1], ops[|ops| - 1];
      StartsStayFaithful(cfg, before);
      OperationKeepsSame(cfg, RunFrom(cfg, EMPTY, before), Starts(cfg, before), op);
    }
  }

  lemma SameCovers(log: seq<Entry>, full: seq<Entry>, readings: seq<real>, window: real, pick: Pick)
    requires SameFrom(log, full, readings, window)
    ensures Covers(Times(log, pick), Times(full, pick), readings, window)
  {
    forall cutoff | Settled(cutoff, readings, window)
      ensures Kept(Times(log, pick), cutoff) == Kept(Times(full, pick), cutoff)
    {
      TimesOfKept(log, pick, cutoff);
      TimesOfKept(full, pick, cutoff);
    }
  }

  lemma StartKeepsBound(log: seq<Entry>, full: seq<Entry>, e: Entry, window: real, skew: real, limit: int, pick: Pick)
    requires SameFrom(log, full, Times(full, All), window)
    requires LateBy(Times(full + [e], All), skew) && skew >= 0.0
    requires Bounded(Times(full, pick), window - skew, limit)
    requires Picked(e, pick) ==> |Times(KeptEntries(log, e.time - window), pick)| < limit
    ensures Bounded(Times(full + [e], pick), window - skew, limit)
  {
    var readings := Times(full, All);
    TimesSnoc(full, e, All);
    LateByBefore(readings, e.time, skew);
    TimesSnoc(full, e, pick);
    if Picked(e, pick) {
      SameCovers(log, full, readings, window, pick);
      TimesOfKept(log, pick, e.time - window);
      AdmissionKeepsBound(Times(log, pick), Times(full, pick), readings, window, skew, limit, e.time);
    } else {
      assert Times(full, pick) + [] == Times(full, pick);
    }
  }

  lemma AcceptedStartsFit(cfg: Config, s: State, op: Op)
    requires Accepts(cfg, s, op)
    ensures var kept := KeptEntries(s.starts, op.now - cfg.window);
      && |Times(kept, OfDevice(op.device))| < AtLeastOne(cfg.deviceLimit)
      && |Times(kept, All)| < AtLeastOne(cfg.fabricLimit)
  {
    AllTimes(KeptEntries(s.starts, op.now - cfg.window));
  }

  /** Over every run of admissions, refusals and finishes, any closed interval as long
      as the window less the lateness of the accepted readings holds at most the
      device limit of a device's starts and at most the fabric limit of all starts. */
  lemma {:induction false} RunBudgetsHold(cfg: Config, ops: seq<Op>, skew: real, device: string)
    requires skew >= 0.0 && LateBy(Times(Starts(cfg, ops), All), skew)
    ensures Bounded(Times(Starts(cfg, ops), OfDevice(device)), cfg.window - skew, AtLeastOne(cfg.deviceLimit))
    ensures Bounded(Times(Starts(cfg, ops), All), cfg.window - skew, AtLeastOne(cfg.fabricLimit))
  {
    if ops != [] {
      var before, op := ops[..|ops| - 1], ops[|ops| - 1];
      assert ops == before + [op];
      var full := Starts(cfg, before);
      StartsSnoc(cfg, before, op);
      if Accepts(cfg, RunFrom(cfg, EMPTY, before), op) {
        TimesSnoc(full, Entry(op.now, op.device, op.id), All);
        LateByBefore(Times(full, All), op.now, skew);
        RunBudgetsHold(cfg, before, skew, device);
        AcceptedStartsFit(cfg, RunFrom(cfg, EMPTY, before), op);
        StartsStayFaithful(cfg, before);
        var log, e := RunFrom(cfg, EMPTY, before).starts, Entry(op.now, op.device, op.id);
        StartKeepsBound(log, full, e, cfg.window, skew, AtLeastOne(cfg.deviceLimit), OfDevice(device));
        StartKeepsBound(log, full, e, cfg.window, skew, AtLeastOne(cfg.fabricLimit), All);
      } else {
        assert full + [] == full;
        RunBudgetsHold(cfg, before, skew, device);
      }
    }
  }

  lemma LoneStartKeepsTops(starts: seq<Entry>, full: seq<Entry>, e: Entry, window: real)
    requires window >= 0.0 && Tops(Times(starts, All), Times(full, All))
    ensures Tops(Times(KeptEntries(starts, e.time - window) + [e], All), Times(full + [e], All))
  {
    TimesOfKept(starts, All, e.time - window);
    TimesSnoc(full, e, All);
    TimesSnoc(KeptEntries(starts, e.time - window), e, All);
    WriteKeepsTops(Times(starts, All), Times(full, All), window, e.time);
  }

  lemma LoneStartKeepsBound(starts: seq<Entry>, full: seq<Entry>, e: Entry, window: real)
    requires Tops(Times(starts, All), Times(full, All)) && Bounded(Times(full, All), window, 1)
    requires Times(KeptEntries(starts, e.time - window), All) == []
    ensures Bounded(Times(full + [e], All), window, 1)
  {
    TimesOfKept(starts, All, e.time - window);
    TimesSnoc(full, e, All);
    LoneAdmissionKeepsBound(Times(starts, All), Times(full, All), window, e.time);
  }

  lemma OperationKeepsLone(cfg: Config, s: State, full: seq<Entry>, op: Op)
    requires cfg.fabricLimit <= 1 && cfg.window >= 0.0
    requires Tops(Times(s.starts, All), Times(full, All)) && Bounded(Times(full, All), cfg.window, 1)
    ensures var after := full + (if Accepts(cfg, s, op) then [Entry(op.now, op.device, op.id)] else []);
      Tops(Times(Apply(cfg, s, op).starts, All), Times(after, All)) && Bounded(Times(after, All), cfg.window, 1)
  {
    if Accepts(cfg, s, op) {
      var e := Entry(op.now, op.device, op.id);
      AcceptedStartsFit(cfg, s, op);
      LoneStartKeepsTops(s.starts, full, e, cfg.window);
      LoneStartKeepsBound(s.starts, full, e, cfg.window);
    } else {
      assert full + [] == full;
    }
  }

  /** With a fabric limit of one, starts are a whole window apart, whatever the clock does. */
  lemma {:induction false} FabricLimitOfOneNeedsNoClock(cfg: Config, ops: seq<Op>)
    requires cfg.fabricLimit <= 1
    ensures Bounded(Times(Starts(cfg, ops), All), cfg.window, 1)
    ensures cfg.window >= 0.0 ==> Tops(Times(RunFrom(cfg, EMPTY, ops).starts, All), Times(Starts(cfg, ops), All))
  {
    if cfg.window >= 0.0 && ops != [] {
      var before := ops[..|ops| - 1];
      FabricLimitOfOneNeedsNoClock(cfg, before);
      OperationKeepsLone(cfg, RunFrom(cfg, EMPTY, before), Starts(cfg, before), ops[|ops| - 1]);
    }
  }

  // ------------------------------------------------------------------
  // One identity through a run
  // ------------------------------------------------------------------

  /** No operation of the run writes the identity's entry: it is never finished, and
      every attempt to admit it is refused. */
  predicate Untouched(cfg: Config, s: State, ops: seq<Op>, id: string) {
    ops == [] ||
    (var before, op := ops[..|ops| - 1], ops[|ops| - 1];
     && Untouched(cfg, s, before, id)
     && (op.id == id ==> op.AdmitOp? && !Accepts(cfg, RunFrom(cfg, s, before), op)))
  }

  predicate NoLaterThan(ops: seq<Op>, now: real) {
    forall i :: 0 <= i < |ops| ==> ops[i].now <= now
  }

  lemma {:induction false} EntryPersists(cfg: Config, s: State, ops: seq<Op>, id: string, now: real)
    requires Untouched(cfg, s, ops, id) && NoLaterThan(ops, now)
    ensures id !in s.events ==> id !in RunFrom(cfg, s, ops).events
    ensures id in s.events ==> var events := RunFrom(cfg, s, ops).events;
      || (id in events && events[id] == s.events[id])
      || (id !in events && s.events[id].updated < now - cfg.idempotency)
  {
    if ops != [] {
      var before, op := ops[..|ops| - 1], ops[|ops| - 1];
      assert op.now <= now;
      forall i | 0 <= i < |before| ensures before[i].now <= now {
        assert before[i] == ops[i];
      }
      EntryPersists(cfg, s, before, id, now);
    }
  }

  /** Whatever other events are admitted, refused, finished or pruned in between, an
      identity is refused as a duplicate exactly when its own last entry bars it at its age. */
  lemma IdentityDecision(cfg: Config, s: State, ops: seq<Op>, id: string, device: string, now: real)
    requires Untouched(cfg, s, ops, id) && NoLaterThan(ops, now)
    ensures Decide(cfg, RunFrom(cfg, s, ops), id, device, now) == DuplicateEvent <==>
      id in s.events && BarsAtAge(cfg, s.events[id].status, now - s.events[id].updated)
  {
    EntryPersists(cfg, s, ops, id, now);
  }

  /** After an admission at `start`, and with no finish of the identity, it stays barred
      for its idempotency window, though for at most 300 seconds; so two admissions are 300
      seconds apart for every window of 300 seconds or more, and else the window apart. */
  lemma AdmissionsOfOneIdentityAreALeaseApart(
      cfg: Config, s: State, ops: seq<Op>, id: string, device: string, start: real, again: string, now: real)
    requires Decide(cfg, s, id, device, start) == Admitted
    requires var s1 := Admit(cfg, s, id, device, start); Untouched(cfg, s1, ops, id) && NoLaterThan(ops, now)
    ensures var s2 := RunFrom(cfg, Admit(cfg, s, id, device, start), ops);
      && (Decide(cfg, s2, id, again, now) == DuplicateEvent <==>
            now - start <= cfg.idempotency && now - start < 300.0
            && (cfg.idempotency < 1.0 || now - start < cfg.idempotency))
      && (Decide(cfg, s2, id, again, now) == Admitted && cfg.idempotency >= 300.0 ==> now - start >= 300.0)
      && (Decide(cfg, s2, id, again, now) == Admitted && cfg.idempotency < 300.0 ==> now - start >= cfg.idempotency)
  {
    IdentityDecision(cfg, Admit(cfg, s, id, device, start), ops, id, again, now);
  }

  /** A finish of a present entry settles the identity until its next finish: completed,
      it is refused for exactly the idempotency window; failed retryably, only the
      budgets can refuse it. */
  lemma FinishSettlesTheIdentity(
      cfg: Config, s: State, ops: seq<Op>, id: string, completed: bool, at: real, device: string, now: real)
    requires id in s.events
    requires Untouched(cfg, Finish(s, id, completed, at), ops, id) && NoLaterThan(ops, now)
    ensures var t := RunFrom(cfg, Finish(s, id, completed, at), ops);
      if completed && now - at <= cfg.idempotency then Decide(cfg, t, id, device, now) == DuplicateEvent
      else Decide(cfg, t, id, device, now) == BudgetOutcome(cfg, KeptEntries(t.starts, now - cfg.window), device)
  {
    IdentityDecision(cfg, Finish(s, id, completed, at), ops, id, device, now);
  }

  lemma {:induction false} ReachableStatuses(cfg: Config, ops: seq<Op>, id: string)
    requires id in RunFrom(cfg, EMPTY, ops).events
    ensures var status := RunFrom(cfg, EMPTY, ops).events[id].status;
      status.Accepted? || status.Completed? || status.RetryableFailed?
  {
    if ops != [] {
      var before := ops[..|ops| - 1];
      if id in RunFrom(cfg, EMPTY, before).events {
        ReachableStatuses(cfg, before, id);
      }
    }
  }

  // ------------------------------------------------------------------
  // Pruned state against the full history
  // ------------------------------------------------------------------

  /** The records that can bar an identity; a retryable failure never does. */
  function Barring(events: map<string, Event>, cutoff: real): map<string, Event> {
    map id | id in events && events[id].updated >= cutoff && !events[id].status.RetryableFailed? :: events[id]
  }

  ghost predicate BarringAgree(events: map<string, Event>, latest: map<string, Event>, readings: seq<real>,
                               idempotency: real) {
    forall cutoff :: Settled(cutoff, readings, idempotency) ==> Barring(events, cutoff) == Barring(latest, cutoff)
  }

  lemma BarringUpdate(events: map<string, Event>, id: string, e: Event, cutoff: real)
    ensures Barring(events[id := e], cutoff) ==
      if e.updated >= cutoff && !e.status.RetryableFailed? then Barring(events, cutoff)[id := e]
      else Barring(events, cutoff) - {id}
  {
  }

  lemma DecideByBarring(cfg: Config, s: State, id: string, device: string, now: real)
    ensures var events := Barring(s.events, now - cfg.idempotency);
      Decide(cfg, s, id, device, now) ==
        if id in events && Bars(cfg, events[id], now) then DuplicateEvent
        else BudgetOutcome(cfg, KeptEntries(s.starts, now - cfg.window), device)
  {
  }

  lemma AdmissionAgreesAt(events: map<string, Event>, latest: map<string, Event>, early: real, cutoff: real,
                          id: string, e: Event)
    requires early <= cutoff && Barring(events, cutoff) == Barring(latest, cutoff)
    ensures Barring(Retained(events, early)[id := e], cutoff) == Barring(latest[id := e], cutoff)
  {
    BarringUpdate(Retained(events, early), id, e, cutoff);
    BarringUpdate(latest, id, e, cutoff);
  }

  lemma AdmissionKeepsAgreement(events: map<string, Event>, latest: map<string, Event>, readings: seq<real>,
                                idempotency: real, id: string, e: Event)
    requires BarringAgree(events, latest, readings, idempotency)
    ensures BarringAgree(Retained(events, e.updated - idempotency)[id := e], latest[id := e],
                         readings + [e.updated], idempotency)
  {
    var early := e.updated - idempotency;
    forall cutoff | Settled(cutoff, readings + [e.updated], idempotency)
      ensures Barring(Retained(events, early)[id := e], cutoff) == Barring(latest[id := e], cutoff)
    {
      SettledBefore(cutoff, readings, e.updated, idempotency);
      AdmissionAgreesAt(events, latest, early, cutoff, id, e);
    }
  }

  ghost predicate PartOf(events: map<string, Event>, latest: map<string, Event>) {
    forall id :: id in events ==> id in latest && events[id] == latest[id]
  }

  /** The finish either fails retryably, or finds its entry in the file, or is for an event
      never admitted. */
  predicate FindsItsEntry(events: map<string, Event>, latest: map<string, Event>, id: string, completed: bool) {
    completed && id in latest ==> id in events
  }

  lemma FinishKeepsAgreement(events: map<string, Event>, latest: map<string, Event>, readings: seq<real>,
                             idempotency: real, id: string, completed: bool, now: real)
    requires BarringAgree(events, latest, readings, idempotency) && PartOf(events, latest)
    requires FindsItsEntry(events, latest, id, completed)
    ensures BarringAgree(FinishEvents(events, id, completed, now), FinishEvents(latest, id, completed, now),
                         readings, idempotency)
  {
    if id in latest {
      var e := latest[id].(status := if completed then Completed else RetryableFailed, updated := now);
      assert FinishEvents(latest, id, completed, now) == latest[id := e];
      forall cutoff | Settled(cutoff, readings, idempotency)
        ensures Barring(FinishEvents(events, id, completed, now), cutoff) == Barring(latest[id := e], cutoff)
      {
        BarringUpdate(events, id, e, cutoff);
        BarringUpdate(latest, id, e, cutoff);
        assert id !in events ==> Barring(events, cutoff) - {id} == Barring(events, cutoff);
      }
    }
  }

  lemma {:induction false} FileIsPartOfLatest(cfg: Config, ops: seq<Op>)
    ensures PartOf(RunFrom(cfg, EMPTY, ops).events, Latest(cfg, ops))
  {
    if ops != [] {
      FileIsPartOfLatest(cfg, ops[..|ops| - 1]);
    }
  }

  // Decisions

  /** The two states decide every admission alike from this reading on. */
  ghost predicate DecideAlike(cfg: Config, s: State, t: State, from: real) {
    forall id, device, now :: now >= from ==> Decide(cfg, s, id, device, now) == Decide(cfg, t, id, device, now)
  }

  /** What the file must share with the full history to decide like it. */
  ghost predicate Agrees(cfg: Config, s: State, full: State, readings: seq<real>) {
    && SameFrom(s.starts, full.starts, readings, cfg.window)
    && BarringAgree(s.events, full.events, readings, cfg.idempotency)
  }

  lemma AgreeingStatesDecideAlike(cfg: Config, s: State, full: State, readings: seq<real>, from: real)
    requires Agrees(cfg, s, full, readings)
    requires forall i :: 0 <= i < |readings| ==> from >= readings[i]
    ensures DecideAlike(cfg, s, full, from)
  {
    forall id, device, now | now >= from ensures Decide(cfg, s, id, device, now) == Decide(cfg, full, id, device, now) {
      assert Settled(now - cfg.window, readings, cfg.window);
      assert Settled(now - cfg.idempotency, readings, cfg.idempotency);
      DecideByBarring(cfg, s, id, device, now);
      DecideByBarring(cfg, full, id, device, now);
    }
  }

  lemma LostCompletionIsDecidedOtherwise(cfg: Config, s: State, full: State, id: string, device: string, now: real)
    requires cfg.idempotency >= 0.0 && id in full.events && id !in s.events
    ensures Decide(cfg, Finish(full, id, true, now), id, device, now) == DuplicateEvent
    ensures Decide(cfg, Finish(s, id, true, now), id, device, now) != DuplicateEvent
  {
  }

  /** While file and history agree, a finish leaves every later decision alike exactly when
      it is retryable, finds its entry, or is for an event never admitted. */
  lemma FinishDecidesAlikeExactly(cfg: Config, s: State, full: State, readings: seq<real>, id: string,
                                  completed: bool, now: real)
    requires Agrees(cfg, s, full, readings) && PartOf(s.events, full.events) && cfg.idempotency >= 0.0
    requires forall i :: 0 <= i < |readings| ==> now >= readings[i]
    ensures DecideAlike(cfg, Finish(s, id, completed, now), Finish(full, id, completed, now), now)
      <==> FindsItsEntry(s.events, full.events, id, completed)
  {
    if FindsItsEntry(s.events, full.events, id, completed) {
      FinishKeepsAgreement(s.events, full.events, readings, cfg.idempotency, id, completed, now);
      AgreeingStatesDecideAlike(cfg, Finish(s, id, completed, now), Finish(full, id, completed, now), readings, now);
    } else {
      LostCompletionIsDecidedOtherwise(cfg, s, full, id, "", now);
    }
  }

  // Runs

  /** Every completion comes while its entry is still in the file, or for an unknown event. */
  predicate CompletionsFindTheirEntry(cfg: Config, ops: seq<Op>) {
    ops == [] ||
    (var before, op := ops[..|ops| - 1], ops[|ops| - 1];
     && CompletionsFindTheirEntry(cfg, before)
     && (op.FinishOp? ==>
           FindsItsEntry(RunFrom(cfg, EMPTY, before).events, Latest(cfg, before), op.id, op.completed)))
  }

  /** The state that never forgets, beside the file. */
  function FullState(cfg: Config, ops: seq<Op>): State {
    State(Starts(cfg, ops), Latest(cfg, ops))
  }

  lemma AdmitKeepsAgreement(cfg: Config, s: State, full: State, op: Op)
    requires Agrees(cfg, s, full, Times(full.starts, All)) && Accepts(cfg, s, op)
    ensures var after := State(full.starts + [Entry(op.now, op.device, op.id)],
                               full.events[op.id := Event(op.device, Accepted, op.now)]);
      Agrees(cfg, Apply(cfg, s, op), after, Times(after.starts, All))
  {
    var e := Entry(op.now, op.device, op.id);
    StartKeepsSame(s.starts, full.starts, Times(full.starts, All), cfg.window, e);
    AdmissionKeepsAgreement(s.events, full.events, Times(full.starts, All), cfg.idempotency, op.id,
                            Event(op.device, Accepted, op.now));
    TimesSnoc(full.starts, e, All);
  }

  lemma OtherOpKeepsAgreement(cfg: Config, s: State, full: State, op: Op)
    requires Agrees(cfg, s, full, Times(full.starts, All)) && PartOf(s.events, full.events) && !Accepts(cfg, s, op)
    requires op.FinishOp? ==> FindsItsEntry(s.events, full.events, op.id, op.completed)
    ensures var after := if op.FinishOp? then Finish(full, op.id, op.completed, op.now) else full;
      Agrees(cfg, Apply(cfg, s, op), after, Times(full.starts, All))
  {
    if op.FinishOp? {
      FinishKeepsAgreement(s.events, full.events, Times(full.starts, All), cfg.idempotency, op.id, op.completed,
                           op.now);
    }
  }

  lemma {:induction false} FileAgreesWithHistory(cfg: Config, ops: seq<Op>)
    requires CompletionsFindTheirEntry(cfg, ops)
    ensures Agrees(cfg, RunFrom(cfg, EMPTY, ops), FullState(cfg, ops), Times(Starts(cfg, ops), All))
  {
    if ops != [] {
      var before, op := ops[..|ops| - 1], ops[|ops| - 1];
      FileAgreesWithHistory(cfg, before);
      FileIsPartOfLatest(cfg, before);
      if Accepts(cfg, RunFrom(cfg, EMPTY, before), op) {
        AdmitKeepsAgreement(cfg, RunFrom(cfg, EMPTY, before), FullState(cfg, before), op);
      } else {
        OtherOpKeepsAgreement(cfg, RunFrom(cfg, EMPTY, before), FullState(cfg, before), op);
        assert Starts(cfg, before) + [] == Starts(cfg, before);
      }
    }
  }

  /** The pruned state file gives the decision the full, unpruned history would, for every
      event and device, at every reading not behind the accepted ones. */
  lemma PrunedStateDecidesAsFullHistory(cfg: Config, ops: seq<Op>, from: real)
    requires CompletionsFindTheirEntry(cfg, ops)
    requires forall i :: 0 <= i < |Starts(cfg, ops)| ==> from >= Starts(cfg, ops)[i].time
    ensures DecideAlike(cfg, RunFrom(cfg, EMPTY, ops), FullState(cfg, ops), from)
  {
    FileAgreesWithHistory(cfg, ops);
    AllTimes(Starts(cfg, ops));
    AgreeingStatesDecideAlike(cfg, RunFrom(cfg, EMPTY, ops), FullState(cfg, ops), Times(Starts(cfg, ops), All), from);
  }

  predicate InOrder(ops: seq<Op>) {
    forall i, j :: 0 <= i <= j < |ops| ==> ops[i].now <= ops[j].now
  }

  lemma {:induction false} StartsAreNoLater(cfg: Config, ops: seq<Op>, now: real)
    requires NoLaterThan(ops, now)
    ensures forall i :: 0 <= i < |Starts(cfg, ops)| ==> Starts(cfg, ops)[i].time <= now
  {
    if ops != [] {
      var before := ops[..|ops| - 1];
      assert forall i :: 0 <= i < |before| ==> before[i] == ops[i];
      StartsAreNoLater(cfg, before, now);
    }
  }

  /** After each operation of the run, file and full history decide alike from then on. */
  ghost predicate AlikeThroughout(cfg: Config, ops: seq<Op>) {
    ops == [] ||
    (&& AlikeThroughout(cfg, ops[..|ops| - 1])
     && DecideAlike(cfg, RunFrom(cfg, EMPTY, ops), FullState(cfg, ops), ops[|ops| - 1].now))
  }

  lemma LastFinishDecides(cfg: Config, before: seq<Op>, op: Op)
    requires CompletionsFindTheirEntry(cfg, before) && op.FinishOp? && cfg.idempotency >= 0.0
    requires NoLaterThan(before, op.now)
    ensures DecideAlike(cfg, Apply(cfg, RunFrom(cfg, EMPTY, before), op),
                        Finish(FullState(cfg, before), op.id, op.completed, op.now), op.now)
      <==> FindsItsEntry(RunFrom(cfg, EMPTY, before).events, Latest(cfg, before), op.id, op.completed)
  {
    FileAgreesWithHistory(cfg, before);
    FileIsPartOfLatest(cfg, before);
    StartsAreNoLater(cfg, before, op.now);
    AllTimes(Starts(cfg, before));
    FinishDecidesAlikeExactly(cfg, RunFrom(cfg, EMPTY, before), FullState(cfg, before), Times(Starts(cfg, before), All),
                              op.id, op.completed, op.now);
  }

  lemma FinishOnHistory(cfg: Config, before: seq<Op>, op: Op)
    requires op.FinishOp?
    ensures FullState(cfg, before + [op]) == Finish(FullState(cfg, before), op.id, op.completed, op.now)
  {
    assert (before + [op])[..|before|] == before;
    assert Starts(cfg, before) + [] == Starts(cfg, before);
  }

  /** For operations in clock order, the file decides like the full history throughout a run
      exactly when every completion finds its entry. */
  lemma {:induction false} AlikeThroughoutExactly(cfg: Config, ops: seq<Op>)
    requires InOrder(ops) && cfg.idempotency >= 0.0
    ensures AlikeThroughout(cfg, ops) <==> CompletionsFindTheirEntry(cfg, ops)
  {
    if ops != [] {
      var before, op := ops[..|ops| - 1], ops[|ops| - 1];
      assert ops == before + [op] && NoLaterThan(ops, op.now) && NoLaterThan(before, op.now);
      AlikeThroughoutExactly(cfg, before);
      if CompletionsFindTheirEntry(cfg, ops) {
        StartsAreNoLater(cfg, ops, op.now);
        PrunedStateDecidesAsFullHistory(cfg, ops, op.now);
      } else if op.FinishOp? && CompletionsFindTheirEntry(cfg, before) {
        LastFinishDecides(cfg, before, op);
        FinishOnHistory(cfg, before, op);
        RunSnoc(cfg, EMPTY, before, op);
      }
    }
  }

  const FIRST := Entry(0.0, "PE1", "a")
  const OTHER := Entry(15.0, "PE2", "b")

  lemma FirstAdmission(cfg: Config)
    requires cfg.idempotency == 10.0 && cfg.window == 10.0 && cfg.deviceLimit >= 2 && cfg.fabricLimit >= 2
    ensures RunFrom(cfg, EMPTY, [AdmitOp("a", "PE1", 0.0)]) == State([FIRST], map["a" := Event("PE1", Accepted, 0.0)])
  {
    RunSnoc(cfg, EMPTY, [], AdmitOp("a", "PE1", 0.0));
    assert [] + [AdmitOp("a", "PE1", 0.0)] == [AdmitOp("a", "PE1", 0.0)];
    assert [] + [FIRST] == [FIRST];
  }

  lemma OtherAdmissionPrunes(cfg: Config)
    requires cfg.idempotency == 10.0 && cfg.window == 10.0 && cfg.deviceLimit >= 2 && cfg.fabricLimit >= 2
    ensures Admit(cfg, State([FIRST], map["a" := Event("PE1", Accepted, 0.0)]), "b", "PE2", 15.0)
            == State([OTHER], map["b" := Event("PE2", Accepted, 15.0)])
  {
    var s := State([FIRST], map["a" := Event("PE1", Accepted, 0.0)]);
    assert [] + [FIRST] == [FIRST] && [] + [OTHER] == [OTHER];
    KeptEntriesSnoc([], FIRST, 5.0);
    assert KeptEntries(s.starts, 15.0 - cfg.window) == [];
    assert Retained(s.events, 15.0 - cfg.idempotency) == map[];
  }

  /** Without that condition the decision depends on unrelated events: a completion that
      arrives after its entry has expired counts if nothing pruned the file meanwhile,
      and is lost if another event's admission did. */
  lemma LateFinishDependsOnOtherEvents(cfg: Config)
    requires cfg.idempotency == 10.0 && cfg.window == 10.0 && cfg.deviceLimit >= 2 && cfg.fabricLimit >= 2
    ensures var quiet := [AdmitOp("a", "PE1", 0.0)] + [FinishOp("a", true, 20.0)];
      Decide(cfg, RunFrom(cfg, EMPTY, quiet), "a", "PE1", 21.0) == DuplicateEvent
    ensures var busy := [AdmitOp("a", "PE1", 0.0)] + [AdmitOp("b", "PE2", 15.0)] + [FinishOp("a", true, 20.0)];
      Decide(cfg, RunFrom(cfg, EMPTY, busy), "a", "PE1", 21.0) == Admitted
  {
    var one := [AdmitOp("a", "PE1", 0.0)];
    FirstAdmission(cfg);
    RunSnoc(cfg, EMPTY, one, FinishOp("a", true, 20.0));
    RunSnoc(cfg, EMPTY, one, AdmitOp("b", "PE2", 15.0));
    OtherAdmissionPrunes(cfg);
    RunSnoc(cfg, EMPTY, one + [AdmitOp("b", "PE2", 15.0)], FinishOp("a", true, 20.0));
    assert [] + [OTHER] == [OTHER];
    KeptEntriesSnoc([], OTHER, 11.0);
    TimesSnoc([], OTHER, OfDevice("PE1"));
  }
}
