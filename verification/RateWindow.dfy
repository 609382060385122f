/** The file-backed sliding window and the event-identity claims, each on one file. A file
    is read, pruned and rewritten under one exclusive lock, so each check is one atomic
    step on its contents; the clock reading `now` was taken before the lock. */
module RateWindow {
  import opened Common
  import opened SlidingLog

  // ------------------------------------------------------------------
  // One file
  // ------------------------------------------------------------------

  /** What the two routines write: a bare stamp, or a stamp with an identity. Neither
      routine can read the other's lines, and both rewrite the whole file. */
  datatype Line = Stamp(time: real) | Claim(time: real, id: string)

  function StampsOf(lines: seq<Line>): seq<real> {
    if lines == [] then []
    else
      var last := lines[|lines| - 1];
      StampsOf(lines[..|lines| - 1]) + (if last.Stamp? then [last.time] else [])
  }

  function AsStamps(stamps: seq<real>): (r: seq<Line>)
    ensures |r| == |stamps|
  {
    if stamps == [] then [] else AsStamps(stamps[..|stamps| - 1]) + [Stamp(stamps[|stamps| - 1])]
  }

  function ClaimsOf(lines: seq<Line>): (r: seq<Entry>)
    ensures forall i :: 0 <= i < |r| ==> r[i].device == ""
  {
    if lines == [] then []
    else
      var last := lines[|lines| - 1];
      ClaimsOf(lines[..|lines| - 1]) + (if last.Claim? then [Entry(last.time, "", last.id)] else [])
  }

  function AsClaims(claims: seq<Entry>): seq<Line> {
    if claims == [] then []
    else AsClaims(claims[..|claims| - 1]) + [Claim(claims[|claims| - 1].time, claims[|claims| - 1].id)]
  }

  lemma LinesSnoc(lines: seq<Line>, line: Line)
    ensures StampsOf(lines + [line]) == StampsOf(lines) + (if line.Stamp? then [line.time] else [])
    ensures ClaimsOf(lines + [line]) == ClaimsOf(lines) + (if line.Claim? then [Entry(line.time, "", line.id)] else [])
  {
    assert (lines + [line])[..|lines|] == lines;
  }

  lemma {:induction false} StampsAreRead(stamps: seq<real>)
    ensures StampsOf(AsStamps(stamps)) == stamps && ClaimsOf(AsStamps(stamps)) == []
  {
    if stamps != [] {
      var front, last := stamps[..|stamps| - 1], stamps[|stamps| - 1];
      StampsAreRead(front);
      LinesSnoc(AsStamps(front), Stamp(last));
      assert stamps == front + [last];
    }
  }

  lemma {:induction false} ClaimsAreRead(claims: seq<Entry>)
    requires forall i :: 0 <= i < |claims| ==> claims[i].device == ""
    ensures ClaimsOf(AsClaims(claims)) == claims && StampsOf(AsClaims(claims)) == []
  {
    if claims != [] {
      var front, last := claims[..|claims| - 1], claims[|claims| - 1];
      ClaimsAreRead(front);
      LinesSnoc(AsClaims(front), Claim(last.time, last.id));
      assert claims == front + [last] && last == Entry(last.time, "", last.id);
      assert StampsOf(AsClaims(front)) + [] == StampsOf(AsClaims(front));
    }
  }

  predicate Admits(log: seq<real>, limit: int, window: real, now: real) {
    |Kept(log, now - window)| < limit
  }

  lemma AdmitsByTheNumbers(log: seq<real>, limit: int, window: real, now: real)
    ensures Admits(log, limit, window, now) <==> |From(log, now - window)| < limit
  {
    KeptIsHowMany(log, now - window);
  }

  /** Which lines of the file are bare stamps from `cutoff` on. */
  ghost function StampLines(lines: seq<Line>, cutoff: real): set<nat> {
    set i: nat | i < |lines| && lines[i].Stamp? && lines[i].time >= cutoff
  }

  lemma {:induction false} StampLinesAreKept(lines: seq<Line>, cutoff: real)
    ensures |StampLines(lines, cutoff)| == |Kept(StampsOf(lines), cutoff)|
  {
    if lines == [] {
      assert StampLines(lines, cutoff) == {};
    } else {
      var n := |lines| - 1;
      var last := lines[n];
      StampLinesAreKept(lines[..n], cutoff);
      KeptSnoc(StampsOf(lines[..n]), last.time, cutoff);
      assert StampsOf(lines[..n]) + [] == StampsOf(lines[..n]);
      OneMore(StampLines(lines[..n], cutoff), StampLines(lines, cutoff), n, last.Stamp? && last.time >= cutoff);
    }
  }

  /** A check is refused exactly when the lines that are stamps within the window number the
      limit. */
  lemma RefusedByTheNumbers(lines: seq<Line>, limit: int, window: real, now: real)
    ensures !Admits(StampsOf(lines), limit, window, now) <==> |StampLines(lines, now - window)| >= limit
  {
    StampLinesAreKept(lines, now - window);
  }

  function Recorded(log: seq<real>, limit: int, window: real, now: real): seq<real> {
    if Admits(log, limit, window, now) then Kept(log, now - window) + [now] else log
  }

  /** The lines of the file after a check; a refusal leaves it as it was. */
  function RecordedLines(lines: seq<Line>, limit: int, window: real, now: real): seq<Line> {
    if Admits(StampsOf(lines), limit, window, now) then AsStamps(Kept(StampsOf(lines), now - window) + [now]) else lines
  }

  lemma RecordedLinesHold(lines: seq<Line>, limit: int, window: real, now: real)
    ensures StampsOf(RecordedLines(lines, limit, window, now)) == Recorded(StampsOf(lines), limit, window, now)
    ensures ClaimsOf(RecordedLines(lines, limit, window, now)) ==
      if Admits(StampsOf(lines), limit, window, now) then [] else ClaimsOf(lines)
  {
    if Admits(StampsOf(lines), limit, window, now) {
      StampsAreRead(Kept(StampsOf(lines), now - window) + [now]);
    }
  }

  method WriteStamps(stamps: seq<real>) returns (lines: seq<Line>)
    ensures lines == AsStamps(stamps)
  {
    lines := [];
    for i := 0 to |stamps|
      invariant lines == AsStamps(stamps[..i])
    {
      assert stamps[..i + 1][..i] == stamps[..i];
      lines := lines + [Stamp(stamps[i])];
    }
    assert stamps[..|stamps|] == stamps;
  }

  /** Check-then-record; lines that are not bare stamps are skipped. */
  method CheckAndRecordWindow(lines: seq<Line>, limit: int, window: real, now: real)
    returns (ok: bool, after: seq<Line>)
    ensures ok == Admits(StampsOf(lines), limit, window, now)
    ensures after == RecordedLines(lines, limit, window, now)
  {
    var cutoff := now - window;
    var kept: seq<real> := [];
    for i := 0 to |lines|
      invariant kept == Kept(StampsOf(lines[..i]), cutoff)
    {
      assert lines[..i + 1][..i] == lines[..i];
      if lines[i].Stamp? {
        KeptSnoc(StampsOf(lines[..i]), lines[i].time, cutoff);
        if lines[i].time >= cutoff {
          kept := kept + [lines[i].time];
        }
      } else {
        assert StampsOf(lines[..i]) + [] == StampsOf(lines[..i]);
      }
    }
    assert lines[..|lines|] == lines;
    if |kept| >= limit {
      return false, lines;
    }
    after := WriteStamps(kept + [now]);
    ok := true;
  }

  /** A file's contents beside everything ever admitted to it. */
  datatype Ledger = Ledger(log: seq<real>, history: seq<real>)

  function Step(l: Ledger, limit: int, window: real, now: real): Ledger {
    Ledger(Recorded(l.log, limit, window, now),
           if Admits(l.log, limit, window, now) then l.history + [now] else l.history)
  }

  function RunFile(readings: seq<real>, limit: int, window: real): Ledger {
    if readings == [] then Ledger([], [])
    else Step(RunFile(readings[..|readings| - 1], limit, window), limit, window, readings[|readings| - 1])
  }

  lemma RunSnoc(readings: seq<real>, now: real, limit: int, window: real)
    ensures RunFile(readings + [now], limit, window) == Step(RunFile(readings, limit, window), limit, window, now)
  {
    var all := readings + [now];
    assert all[..|all| - 1] == readings;
  }

  /** From any settled cutoff on, the pruned log and the full history are the same. */
  ghost predicate Faithful(l: Ledger, readings: seq<real>, window: real) {
    forall cutoff :: Settled(cutoff, readings, window) ==> Kept(l.log, cutoff) == Kept(l.history, cutoff)
  }

  lemma RecordKeepsFaithful(l: Ledger, readings: seq<real>, limit: int, window: real, now: real)
    requires Faithful(l, readings, window)
    ensures Faithful(Step(l, limit, window, now), readings + [now], window)
  {
    var kept := Kept(l.log, now - window);
    forall cutoff | Settled(cutoff, readings + [now], window)
      ensures Kept(l.log, cutoff) == Kept(l.history, cutoff)
      ensures Kept(kept + [now], cutoff) == Kept(l.history + [now], cutoff)
    {
      SettledBefore(cutoff, readings, now, window);
      KeptTwice(l.log, now - window, cutoff);
      KeptSnoc(kept, now, cutoff);
      KeptSnoc(l.history, now, cutoff);
    }
  }

  lemma {:induction false} RunIsFaithful(readings: seq<real>, limit: int, window: real)
    ensures Faithful(RunFile(readings, limit, window), readings, window)
  {
    if readings != [] {
      var before, now := readings[..|readings| - 1], readings[|readings| - 1];
      assert readings == before + [now];
      RunIsFaithful(before, limit, window);
      RunSnoc(before, now, limit, window);
      RecordKeepsFaithful(RunFile(before, limit, window), before, limit, window, now);
    }
  }

  /** With a clock that does not run backwards, the pruned log decides every check
      exactly as the unpruned history would. */
  lemma PrunedLogDecidesAsFullHistory(readings: seq<real>, limit: int, window: real, now: real)
    requires LateBy(readings + [now], 0.0)
    ensures var l := RunFile(readings, limit, window);
      Admits(l.log, limit, window, now) == Admits(l.history, limit, window, now)
  {
    RunIsFaithful(readings, limit, window);
    LateByBefore(readings, now, 0.0);
    assert Settled(now - window, readings, window);
  }

  /** However late readings arrive, at most `limit` admissions fall in any closed
      interval as long as the window less the lateness; for a clock in lock order
      that is the window itself. */
  lemma {:induction false} WindowHoldsInEveryRun(readings: seq<real>, limit: int, window: real, skew: real)
    requires limit >= 0 && skew >= 0.0 && LateBy(readings, skew)
    ensures Bounded(RunFile(readings, limit, window).history, window - skew, limit)
  {
    if readings != [] {
      var before, now := readings[..|readings| - 1], readings[|readings| - 1];
      assert readings == before + [now];
      LateByBefore(before, now, skew);
      WindowHoldsInEveryRun(before, limit, window, skew);
      var l := RunFile(before, limit, window);
      RunIsFaithful(before, limit, window);
      assert Covers(l.log, l.history, before, window);
      if Admits(l.log, limit, window, now) {
        AdmissionKeepsBound(l.log, l.history, before, window, skew, limit, now);
      }
    }
  }

  /** Whatever the clock does, the file never holds more than `limit` stamps. */
  lemma {:induction false} FileNeverExceedsLimit(readings: seq<real>, limit: int, window: real)
    requires limit >= 0
    ensures |RunFile(readings, limit, window).log| <= limit
  {
    if readings != [] {
      FileNeverExceedsLimit(readings[..|readings| - 1], limit, window);
    }
  }

  function Zeros(n: nat): seq<real> {
    if n == 0 then [] else Zeros(n - 1) + [0.0]
  }

  lemma {:induction false} ZerosAreKept(n: nat, cutoff: real)
    requires cutoff <= 0.0
    ensures Kept(Zeros(n), cutoff) == Zeros(n) && |Zeros(n)| == n
  {
    if n > 0 {
      ZerosAreKept(n - 1, cutoff);
      KeptSnoc(Zeros(n - 1), 0.0, cutoff);
    }
  }

  lemma {:induction false} ZerosAreDropped(n: nat, cutoff: real)
    requires cutoff > 0.0
    ensures Kept(Zeros(n), cutoff) == []
  {
    if n > 0 {
      ZerosAreDropped(n - 1, cutoff);
      KeptSnoc(Zeros(n - 1), 0.0, cutoff);
    }
  }

  lemma {:induction false} ZerosAreCounted(n: nat, hi: real)
    requires hi >= 0.0
    ensures CountIn(Zeros(n), 0.0, hi) == n
  {
    if n > 0 {
      ZerosAreCounted(n - 1, hi);
      CountSnoc(Zeros(n - 1), 0.0, 0.0, hi);
    }
  }

  lemma {:induction false} ZerosAreInOrder(n: nat)
    ensures |Zeros(n)| == n && forall i :: 0 <= i < n ==> Zeros(n)[i] == 0.0
  {
    if n > 0 {
      ZerosAreInOrder(n - 1);
    }
  }

  lemma ZeroStep(n: nat, limit: int, window: real)
    requires n < limit && window >= 0.0
    ensures Step(Ledger(Zeros(n), Zeros(n)), limit, window, 0.0) == Ledger(Zeros(n + 1), Zeros(n + 1))
  {
    ZerosAreKept(n, 0.0 - window);
  }

  lemma {:induction false} ZerosAreAdmitted(n: nat, limit: int, window: real)
    requires n <= limit && window >= 0.0
    ensures RunFile(Zeros(n), limit, window) == Ledger(Zeros(n), Zeros(n))
  {
    if n > 0 {
      ZerosAreAdmitted(n - 1, limit, window);
      ZeroStep(n - 1, limit, window);
      RunSnoc(Zeros(n - 1), 0.0, limit, window);
    }
  }

  lemma LateSteps(limit: int, window: real, jump: real, late: real)
    requires limit >= 2 && 0.0 <= window < jump && 0.0 <= late <= jump
    ensures var early := Zeros(limit);
      var l := Step(Ledger(early, early), limit, window, jump);
      && l == Ledger([jump], early + [jump])
      && Step(l, limit, window, late).history == early + [jump] + [late]
  {
    ZerosAreDropped(limit, jump - window);
    assert [] + [jump] == [jump];
    KeptSnoc([], jump, late - window);
  }

  lemma LateRun(limit: int, window: real, jump: real, late: real)
    requires limit >= 2 && 0.0 <= window < jump && 0.0 <= late <= jump
    ensures RunFile(Zeros(limit) + [jump] + [late], limit, window).history == Zeros(limit) + [jump] + [late]
  {
    ZerosAreAdmitted(limit, limit, window);
    RunSnoc(Zeros(limit), jump, limit, window);
    RunSnoc(Zeros(limit) + [jump], late, limit, window);
    LateSteps(limit, window, jump, late);
  }

  lemma ReadingsLate(n: nat, jump: real, late: real)
    requires 0.0 <= late <= jump
    ensures LateBy(Zeros(n) + [jump] + [late], jump - late)
  {
    ZerosAreInOrder(n);
    LateBySnoc(Zeros(n), jump, jump - late);
    LateBySnoc(Zeros(n) + [jump], late, jump - late);
  }

  lemma LateIsCrowded(n: nat, jump: real, late: real)
    requires 0.0 <= late <= jump
    ensures CountIn(Zeros(n) + [jump] + [late], 0.0, late) > n
  {
    ZerosAreCounted(n, late);
    CountSnoc(Zeros(n), jump, 0.0, late);
    CountSnoc(Zeros(n) + [jump], late, 0.0, late);
  }

  /** The bound cannot be improved: for every limit above one and every lateness up
      to the window, some run puts more than `limit` admissions into an interval only
      `excess` longer. In particular the plain window bound is false as soon as
      readings may arrive late. */
  lemma LatenessShortensTheWindow(limit: int, window: real, skew: real, excess: real)
    requires limit >= 2 && 0.0 <= skew <= window && excess > 0.0
    ensures exists readings ::
      LateBy(readings, skew) &&
      !Bounded(RunFile(readings, limit, window).history, window - skew + excess, limit)
  {
    var jump := window + excess;
    var late := jump - skew;
    LateRun(limit, window, jump, late);
    ReadingsLate(limit, jump, late);
    LateIsCrowded(limit, jump, late);
    var readings := Zeros(limit) + [jump] + [late];
    assert LateBy(readings, skew) && CountIn(readings, 0.0, late) > limit;
  }

  /** With a limit of one the whole window holds, whatever the clock does. */
  lemma {:induction false} LimitOneNeedsNoClock(readings: seq<real>, window: real)
    ensures Bounded(RunFile(readings, 1, window).history, window, 1)
    ensures window >= 0.0 ==> Tops(RunFile(readings, 1, window).log, RunFile(readings, 1, window).history)
  {
    if readings != [] {
      var before, now := readings[..|readings| - 1], readings[|readings| - 1];
      var l := RunFile(before, 1, window);
      LimitOneNeedsNoClock(before, window);
      if window >= 0.0 && Admits(l.log, 1, window, now) {
        WriteKeepsTops(l.log, l.history, window, now);
        LoneAdmissionKeepsBound(l.log, l.history, window, now);
      }
    }
  }

  lemma {:induction false} LimitZeroAdmitsNothing(readings: seq<real>, window: real)
    ensures RunFile(readings, 0, window).history == []
  {
    if readings != [] {
      LimitZeroAdmitsNothing(readings[..|readings| - 1], window);
    }
  }

  /** With readings up to `skew` late, the whole window holds. */
  ghost predicate FullWindow(limit: int, window: real, skew: real) {
    forall readings :: LateBy(readings, skew) ==> Bounded(RunFile(readings, limit, window).history, window, limit)
  }

  lemma AnyLatenessOverfills(limit: int, window: real, skew: real)
    requires limit >= 2 && window >= 0.0 && skew > 0.0
    ensures !FullWindow(limit, window, skew)
  {
    var late := if skew < 1.0 then skew else 1.0;
    var jump := window + late;
    LateRun(limit, window, jump, window);
    ReadingsLate(limit, jump, window);
    LateIsCrowded(limit, jump, window);
    var readings := Zeros(limit) + [jump] + [window];
    assert LateBy(readings, skew);
    assert CountIn(RunFile(readings, limit, window).history, 0.0, window) > limit;
  }

  /** The whole window holds exactly when no reading is late or the limit is at most one. */
  lemma FullWindowExactly(limit: int, window: real, skew: real)
    requires limit >= 0 && window >= 0.0 && skew >= 0.0
    ensures FullWindow(limit, window, skew) <==> skew == 0.0 || limit <= 1
  {
    if skew > 0.0 && limit >= 2 {
      AnyLatenessOverfills(limit, window, skew);
    } else {
      forall readings | LateBy(readings, skew)
        ensures Bounded(RunFile(readings, limit, window).history, window, limit)
      {
        if skew == 0.0 {
          WindowHoldsInEveryRun(readings, limit, window, 0.0);
        } else if limit == 1 {
          LimitOneNeedsNoClock(readings, window);
        } else {
          LimitZeroAdmitsNothing(readings, window);
        }
      }
    }
  }

  // ------------------------------------------------------------------
  // Claims of an event identity
  // ------------------------------------------------------------------

  predicate Claimable(log: seq<Entry>, id: string, window: real, now: real) {
    forall e :: e in KeptEntries(log, now - window) ==> e.id != id
  }

  /** Some line claims the identity from `cutoff` on. */
  ghost predicate ClaimedSince(lines: seq<Line>, id: string, cutoff: real) {
    exists i :: 0 <= i < |lines| && lines[i].Claim? && lines[i].id == id && lines[i].time >= cutoff
  }

  predicate Held(claims: seq<Entry>, id: string) {
    exists e :: e in claims && e.id == id
  }

  lemma ClaimedSinceSnoc(lines: seq<Line>, line: Line, id: string, cutoff: real)
    ensures ClaimedSince(lines + [line], id, cutoff) <==>
      ClaimedSince(lines, id, cutoff) || (line.Claim? && line.id == id && line.time >= cutoff)
  {
    var all := lines + [line];
    assert all[|lines|] == line;
    assert forall i :: 0 <= i < |lines| ==> all[i] == lines[i];
  }

  lemma HeldSnoc(claims: seq<Entry>, e: Entry, id: string)
    ensures Held(claims + [e], id) <==> Held(claims, id) || e.id == id
  {
    assert e in claims + [e];
  }

  lemma {:induction false} KeptClaims(lines: seq<Line>, id: string, cutoff: real)
    ensures Held(KeptEntries(ClaimsOf(lines), cutoff), id) <==> ClaimedSince(lines, id, cutoff)
  {
    if lines != [] {
      var front, last := lines[..|lines| - 1], lines[|lines| - 1];
      assert lines == front + [last];
      KeptClaims(front, id, cutoff);
      ClaimedSinceSnoc(front, last, id, cutoff);
      LinesSnoc(front, last);
      if last.Claim? {
        KeptEntriesSnoc(ClaimsOf(front), Entry(last.time, "", last.id), cutoff);
        HeldSnoc(KeptEntries(ClaimsOf(front), cutoff), Entry(last.time, "", last.id), id);
        assert KeptEntries(ClaimsOf(front), cutoff) + [] == KeptEntries(ClaimsOf(front), cutoff);
      } else {
        assert ClaimsOf(front) + [] == ClaimsOf(front);
      }
    }
  }

  /** An identity is refused exactly when a line claims it within the window. */
  lemma ClaimRefusedExactly(lines: seq<Line>, id: string, window: real, now: real)
    ensures Claimable(ClaimsOf(lines), id, window, now) <==> !ClaimedSince(lines, id, now - window)
  {
    KeptClaims(lines, id, now - window);
  }

  function Claimed(log: seq<Entry>, id: string, window: real, now: real): seq<Entry> {
    if Claimable(log, id, window, now) then KeptEntries(log, now - window) + [Entry(now, "", id)] else log
  }

  function ClaimedLines(lines: seq<Line>, id: string, window: real, now: real): seq<Line> {
    if Claimable(ClaimsOf(lines), id, window, now) then AsClaims(Claimed(ClaimsOf(lines), id, window, now)) else lines
  }

  lemma {:induction false} KeptClaimsAreClaims(log: seq<Entry>, cutoff: real)
    requires forall i :: 0 <= i < |log| ==> log[i].device == ""
    ensures forall i :: 0 <= i < |KeptEntries(log, cutoff)| ==> KeptEntries(log, cutoff)[i].device == ""
  {
    if log != [] {
      KeptClaimsAreClaims(log[..|log| - 1], cutoff);
    }
  }

  lemma ClaimedLinesHold(lines: seq<Line>, id: string, window: real, now: real)
    ensures ClaimsOf(ClaimedLines(lines, id, window, now)) == Claimed(ClaimsOf(lines), id, window, now)
    ensures StampsOf(ClaimedLines(lines, id, window, now)) ==
      if Claimable(ClaimsOf(lines), id, window, now) then [] else StampsOf(lines)
  {
    if Claimable(ClaimsOf(lines), id, window, now) {
      KeptClaimsAreClaims(ClaimsOf(lines), now - window);
      ClaimsAreRead(Claimed(ClaimsOf(lines), id, window, now));
    }
  }

  method WriteClaims(claims: seq<Entry>) returns (lines: seq<Line>)
    ensures lines == AsClaims(claims)
  {
    lines := [];
    for i := 0 to |claims|
      invariant lines == AsClaims(claims[..i])
    {
      assert claims[..i + 1][..i] == claims[..i];
      lines := lines + [Claim(claims[i].time, claims[i].id)];
    }
    assert claims[..|claims|] == claims;
  }

  /** Claims an identity; lines without one are skipped, and a refusal changes nothing. */
  method ClaimEventId(lines: seq<Line>, id: string, window: real, now: real) returns (ok: bool, after: seq<Line>)
    ensures ok == Claimable(ClaimsOf(lines), id, window, now)
    ensures after == ClaimedLines(lines, id, window, now)
  {
    var cutoff := now - window;
    var kept: seq<Entry> := [];
    var duplicate := false;
    for i := 0 to |lines|
      invariant kept == KeptEntries(ClaimsOf(lines[..i]), cutoff)
      invariant duplicate <==> exists e :: e in kept && e.id == id
    {
      assert lines[..i + 1][..i] == lines[..i];
      if lines[i].Claim? {
        var e := Entry(lines[i].time, "", lines[i].id);
        KeptEntriesSnoc(ClaimsOf(lines[..i]), e, cutoff);
        if e.time >= cutoff {
          ghost var before := kept;
          kept := kept + [e];
          assert e in kept && forall x :: x in kept <==> x in before || x == e;
          duplicate := duplicate || e.id == id;
        }
      } else {
        assert ClaimsOf(lines[..i]) + [] == ClaimsOf(lines[..i]);
      }
    }
    assert lines[..|lines|] == lines;
    if duplicate {
      return false, lines;
    }
    after := WriteClaims(kept + [Entry(now, "", id)]);
    ok := true;
  }

  datatype Attempt = Attempt(id: string, now: real)
  datatype Claims = Claims(log: seq<Entry>, history: seq<Entry>)

  function RunClaims(attempts: seq<Attempt>, window: real): Claims {
    if attempts == [] then Claims([], [])
    else
      var c := RunClaims(attempts[..|attempts| - 1], window);
      var a := attempts[|attempts| - 1];
      Claims(Claimed(c.log, a.id, window, a.now),
             if Claimable(c.log, a.id, window, a.now) then c.history + [Entry(a.now, "", a.id)] else c.history)
  }

  function ClaimReadings(attempts: seq<Attempt>): seq<real> {
    seq(|attempts|, i requires 0 <= i < |attempts| => attempts[i].now)
  }

  lemma {:induction false} NoneOfId(log: seq<Entry>, id: string)
    ensures (forall e :: e in log ==> e.id != id) <==> Times(log, OfId(id)) == []
  {
    if log != [] {
      var front, last := log[..|log| - 1], log[|log| - 1];
      NoneOfId(front, id);
      assert log == front + [last];
      assert forall e :: e in log <==> e in front || e == last;
    }
  }

  lemma ClaimableIsALimitOfOne(log: seq<Entry>, id: string, window: real, now: real)
    ensures Claimable(log, id, window, now) == Admits(Times(log, OfId(id)), 1, window, now)
  {
    NoneOfId(KeptEntries(log, now - window), id);
    TimesOfKept(log, OfId(id), now - window);
  }

  lemma ClaimedTimes(log: seq<Entry>, a: Attempt, window: real, id: string)
    requires Claimable(log, a.id, window, a.now)
    ensures Times(Claimed(log, a.id, window, a.now), OfId(id)) ==
            Kept(Times(log, OfId(id)), a.now - window) + (if a.id == id then [a.now] else [])
  {
    TimesOfKept(log, OfId(id), a.now - window);
    TimesSnoc(KeptEntries(log, a.now - window), Entry(a.now, "", a.id), OfId(id));
  }

  lemma ClaimStep(c: Claims, a: Attempt, readings: seq<real>, window: real, skew: real, id: string)
    requires skew >= 0.0 && forall i :: 0 <= i < |readings| ==> a.now >= readings[i] - skew
    requires Bounded(Times(c.history, OfId(id)), window - skew, 1)
    requires Covers(Times(c.log, OfId(id)), Times(c.history, OfId(id)), readings, window)
    requires Claimable(c.log, a.id, window, a.now)
    ensures var history := c.history + [Entry(a.now, "", a.id)];
      && Bounded(Times(history, OfId(id)), window - skew, 1)
      && Covers(Times(Claimed(c.log, a.id, window, a.now), OfId(id)), Times(history, OfId(id)), readings + [a.now],
                window)
  {
    var log, history := Times(c.log, OfId(id)), Times(c.history, OfId(id));
    WriteKeepsCover(log, history, readings, window, a.now);
    ClaimedTimes(c.log, a, window, id);
    TimesSnoc(c.history, Entry(a.now, "", a.id), OfId(id));
    if a.id == id {
      ClaimableIsALimitOfOne(c.log, id, window, a.now);
      AdmissionKeepsBound(log, history, readings, window, skew, 1, a.now);
    } else {
      assert history + [] == history && Kept(log, a.now - window) + [] == Kept(log, a.now - window);
    }
  }

  /** Every closed interval as long as the window less the lateness sees each identity
      claimed at most once, whatever other identities are claimed in between. */
  lemma {:induction false} EachIdentityClaimedOncePerWindow(attempts: seq<Attempt>, window: real, skew: real,
                                                            id: string)
    requires skew >= 0.0 && LateBy(ClaimReadings(attempts), skew)
    ensures var c := RunClaims(attempts, window);
      && Bounded(Times(c.history, OfId(id)), window - skew, 1)
      && Covers(Times(c.log, OfId(id)), Times(c.history, OfId(id)), ClaimReadings(attempts), window)
  {
    if attempts != [] {
      var before, a := attempts[..|attempts| - 1], attempts[|attempts| - 1];
      var readings := ClaimReadings(before);
      assert ClaimReadings(attempts) == readings + [a.now];
      LateByBefore(readings, a.now, skew);
      EachIdentityClaimedOncePerWindow(before, window, skew, id);
      var c := RunClaims(before, window);
      if Claimable(c.log, a.id, window, a.now) {
        ClaimStep(c, a, readings, window, skew, id);
      } else {
        WriteKeepsCover(Times(c.log, OfId(id)), Times(c.history, OfId(id)), readings, window, a.now);
      }
    }
  }
}
