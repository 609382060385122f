/** The theory behind every rate limit here: a log of time stamps that drops what
    is older than the window each time it is written. The clock is read before
    the file is locked, so the stamps may arrive out of order; `skew` bounds by how
    much. */
module SlidingLog {
  /** The stamps that are not older than `cutoff`, in log order. */
  function Kept(log: seq<real>, cutoff: real): seq<real> {
    if log == [] then []
    else
      var rest := Kept(log[..|log| - 1], cutoff);
      if log[|log| - 1] >= cutoff then rest + [log[|log| - 1]] else rest
  }

  /** How many stamps lie in the closed interval from `lo` to `hi`. */
  function CountIn(log: seq<real>, lo: real, hi: real): nat {
    if log == [] then 0
    else CountIn(log[..|log| - 1], lo, hi) + (if lo <= log[|log| - 1] <= hi then 1 else 0)
  }

  lemma KeptSnoc(log: seq<real>, stamp: real, cutoff: real)
    ensures Kept(log + [stamp], cutoff) == Kept(log, cutoff) + (if stamp >= cutoff then [stamp] else [])
  {
    assert (log + [stamp])[..|log|] == log;
  }

  lemma CountSnoc(log: seq<real>, stamp: real, lo: real, hi: real)
    ensures CountIn(log + [stamp], lo, hi) == CountIn(log, lo, hi) + (if lo <= stamp <= hi then 1 else 0)
  {
    assert (log + [stamp])[..|log|] == log;
  }

  /** Where the stamps from `cutoff` on stand in the log. */
  ghost function From(log: seq<real>, cutoff: real): set<nat> {
    set i: nat | i < |log| && log[i] >= cutoff
  }

  lemma {:induction false} KeptIsHowMany(log: seq<real>, cutoff: real)
    ensures |Kept(log, cutoff)| == |From(log, cutoff)|
  {
    if log == [] {
      assert From(log, cutoff) == {};
    } else {
      var n := |log| - 1;
      KeptIsHowMany(log[..n], cutoff);
      assert From(log, cutoff) == From(log[..n], cutoff) + (if log[n] >= cutoff then {n} else {});
    }
  }

  ghost function Between(log: seq<real>, lo: real, hi: real): set<nat> {
    set i: nat | i < |log| && lo <= log[i] <= hi
  }

  lemma {:induction false} CountIsHowMany(log: seq<real>, lo: real, hi: real)
    ensures CountIn(log, lo, hi) == |Between(log, lo, hi)|
  {
    if log == [] {
      assert Between(log, lo, hi) == {};
    } else {
      var n := |log| - 1;
      CountIsHowMany(log[..n], lo, hi);
      assert Between(log, lo, hi) == Between(log[..n], lo, hi) + (if lo <= log[n] <= hi then {n} else {});
    }
  }

  lemma {:induction false} KeptTwice(log: seq<real>, early: real, late: real)
    requires early <= late
    ensures Kept(Kept(log, early), late) == Kept(log, late)
  {
    if log != [] {
      var front, stamp := log[..|log| - 1], log[|log| - 1];
      KeptTwice(front, early, late);
      KeptSnoc(Kept(front, early), stamp, late);
    }
  }

  lemma {:induction false} KeptShrinks(log: seq<real>, early: real, late: real)
    requires early <= late
    ensures |Kept(log, late)| <= |Kept(log, early)| <= |log|
  {
    if log != [] {
      KeptShrinks(log[..|log| - 1], early, late);
    }
  }

  lemma {:induction false} CountWithinKept(log: seq<real>, lo: real, hi: real)
    ensures CountIn(log, lo, hi) <= |Kept(log, lo)|
  {
    if log != [] {
      CountWithinKept(log[..|log| - 1], lo, hi);
    }
  }

  lemma {:induction false} EmptyInterval(log: seq<real>, lo: real, hi: real)
    requires lo > hi
    ensures CountIn(log, lo, hi) == 0
  {
    if log != [] {
      EmptyInterval(log[..|log| - 1], lo, hi);
    }
  }

  lemma {:induction false} CountNone(s: seq<real>, lo: real, hi: real)
    requires forall i :: 0 <= i < |s| ==> s[i] < lo || hi < s[i]
    ensures CountIn(s, lo, hi) == 0
  {
    if s != [] {
      CountNone(s[..|s| - 1], lo, hi);
    }
  }

  /** Each reading is at most `skew` behind every earlier one. */
  ghost predicate LateBy(readings: seq<real>, skew: real) {
    forall i, j :: 0 <= i < j < |readings| ==> readings[j] >= readings[i] - skew
  }

  /** No closed interval of length `span` contains more than `limit` of the stamps. */
  ghost predicate Bounded(stamps: seq<real>, span: real, limit: int) {
    forall lo, hi :: lo <= hi <= lo + span ==> CountIn(stamps, lo, hi) <= limit
  }

  /** No write so far, at any of `readings`, can have dropped a stamp from `cutoff` on. */
  ghost predicate Settled(cutoff: real, readings: seq<real>, window: real) {
    forall i :: 0 <= i < |readings| ==> cutoff >= readings[i] - window
  }

  /** From any settled cutoff on, the log keeps at least as many stamps as `admitted` has. */
  ghost predicate Covers(log: seq<real>, admitted: seq<real>, readings: seq<real>, window: real) {
    forall cutoff :: Settled(cutoff, readings, window) ==> |Kept(admitted, cutoff)| <= |Kept(log, cutoff)|
  }

  lemma SettledBefore(cutoff: real, readings: seq<real>, now: real, window: real)
    requires Settled(cutoff, readings + [now], window)
    ensures Settled(cutoff, readings, window) && cutoff >= now - window
  {
    var all := readings + [now];
    assert all[|readings|] == now;
    forall i | 0 <= i < |readings| ensures cutoff >= readings[i] - window {
      assert all[i] == readings[i];
    }
  }

  lemma LateBySnoc(readings: seq<real>, now: real, skew: real)
    requires LateBy(readings, skew)
    requires forall i :: 0 <= i < |readings| ==> now >= readings[i] - skew
    ensures LateBy(readings + [now], skew)
  {
  }

  lemma LateByBefore(readings: seq<real>, now: real, skew: real)
    requires LateBy(readings + [now], skew)
    ensures LateBy(readings, skew)
    ensures forall i :: 0 <= i < |readings| ==> now >= readings[i] - skew
  {
    var all := readings + [now];
    forall i, j | 0 <= i < j < |readings| ensures readings[j] >= readings[i] - skew {
      assert all[i] == readings[i] && all[j] == readings[j];
    }
    forall i | 0 <= i < |readings| ensures now >= readings[i] - skew {
      assert all[i] == readings[i] && all[|readings|] == now;
    }
  }

  /** A write at `now` prunes and may append; coverage survives, whether or not the
      appended stamp counts as admitted, and also when nothing is written. */
  lemma WriteKeepsCover(log: seq<real>, admitted: seq<real>, readings: seq<real>, window: real, now: real)
    requires Covers(log, admitted, readings, window)
    ensures var kept := Kept(log, now - window);
      && Covers(log, admitted, readings + [now], window)
      && Covers(kept, admitted, readings + [now], window)
      && Covers(kept + [now], admitted, readings + [now], window)
      && Covers(kept + [now], admitted + [now], readings + [now], window)
  {
    var kept := Kept(log, now - window);
    forall cutoff | Settled(cutoff, readings + [now], window)
      ensures |Kept(admitted, cutoff)| <= |Kept(log, cutoff)|
      ensures Kept(kept, cutoff) == Kept(log, cutoff)
      ensures Kept(kept + [now], cutoff) == Kept(kept, cutoff) + (if now >= cutoff then [now] else [])
      ensures Kept(admitted + [now], cutoff) == Kept(admitted, cutoff) + (if now >= cutoff then [now] else [])
    {
      SettledBefore(cutoff, readings, now, window);
      KeptTwice(log, now - window, cutoff);
      KeptSnoc(kept, now, cutoff);
      KeptSnoc(admitted, now, cutoff);
    }
  }

  /** Admitting at `now` under the limit keeps every interval of `window - skew` bounded. */
  lemma AdmissionKeepsBound(log: seq<real>, admitted: seq<real>, readings: seq<real>,
                            window: real, skew: real, limit: int, now: real)
    requires Covers(log, admitted, readings, window)
    requires Bounded(admitted, window - skew, limit) && skew >= 0.0
    requires forall i :: 0 <= i < |readings| ==> now >= readings[i] - skew
    requires |Kept(log, now - window)| < limit
    ensures Bounded(admitted + [now], window - skew, limit)
  {
    forall lo, hi | lo <= hi <= lo + (window - skew)
      ensures CountIn(admitted + [now], lo, hi) <= limit
    {
      CountSnoc(admitted, now, lo, hi);
      if lo <= now <= hi {
        assert Settled(lo, readings, window);
        CountWithinKept(admitted, lo, hi);
        KeptShrinks(log, now - window, lo);
      }
    }
  }

  // ------------------------------------------------------------------
  // A limit of one needs no clock
  // ------------------------------------------------------------------

  /** No admitted stamp is later than everything in the log. */
  ghost predicate Tops(log: seq<real>, admitted: seq<real>) {
    forall a :: a in admitted ==> exists s :: s in log && a <= s
  }

  lemma {:induction false} KeptMembers(log: seq<real>, cutoff: real)
    ensures forall s :: s in Kept(log, cutoff) <==> s in log && s >= cutoff
  {
    if log != [] {
      var front, last := log[..|log| - 1], log[|log| - 1];
      KeptMembers(front, cutoff);
      assert log == front + [last];
    }
  }

  /** A write drops only stamps earlier than the one it adds. */
  lemma WriteKeepsTops(log: seq<real>, admitted: seq<real>, window: real, now: real)
    requires Tops(log, admitted) && window >= 0.0
    ensures Tops(Kept(log, now - window) + [now], admitted + [now])
    ensures Tops(Kept(log, now - window) + [now], admitted)
  {
    var after := Kept(log, now - window) + [now];
    KeptMembers(log, now - window);
    assert now in after;
    forall a | a in admitted ensures exists s :: s in after && a <= s {
      var s :| s in log && a <= s;
      assert if s >= now - window then s in after else a <= now;
    }
  }

  /** A stamp admitted to a log that keeps nothing is a whole window later than all
      before it, whatever the clock did. */
  lemma LoneAdmissionKeepsBound(log: seq<real>, admitted: seq<real>, window: real, now: real)
    requires Tops(log, admitted) && Bounded(admitted, window, 1)
    requires Kept(log, now - window) == []
    ensures Bounded(admitted + [now], window, 1)
  {
    KeptMembers(log, now - window);
    forall a | a in admitted ensures a < now - window {
      var s :| s in log && a <= s;
      assert s !in Kept(log, now - window);
    }
    forall lo, hi | lo <= hi <= lo + window ensures CountIn(admitted + [now], lo, hi) <= 1 {
      CountSnoc(admitted, now, lo, hi);
      if lo <= now <= hi {
        forall i | 0 <= i < |admitted| ensures admitted[i] < lo {
          assert admitted[i] in admitted;
        }
        CountNone(admitted, lo, hi);
      }
    }
  }

  // ------------------------------------------------------------------
  // Entries that carry more than their time stamp
  // ------------------------------------------------------------------

  datatype Entry = Entry(time: real, device: string, id: string)

  datatype Pick = All | OfDevice(device: string) | OfId(id: string)

  predicate Picked(e: Entry, pick: Pick) {
    match pick
    case All => true
    case OfDevice(device) => e.device == device
    case OfId(id) => e.id == id
  }

  /** The stamps of the picked entries, in log order. */
  function Times(log: seq<Entry>, pick: Pick): seq<real> {
    if log == [] then []
    else
      var last := log[|log| - 1];
      Times(log[..|log| - 1], pick) + (if Picked(last, pick) then [last.time] else [])
  }

  function KeptEntries(log: seq<Entry>, cutoff: real): seq<Entry> {
    if log == [] then []
    else
      var rest := KeptEntries(log[..|log| - 1], cutoff);
      if log[|log| - 1].time >= cutoff then rest + [log[|log| - 1]] else rest
  }

  lemma TimesSnoc(log: seq<Entry>, e: Entry, pick: Pick)
    ensures Times(log + [e], pick) == Times(log, pick) + (if Picked(e, pick) then [e.time] else [])
  {
    assert (log + [e])[..|log|] == log;
  }

  lemma KeptEntriesSnoc(log: seq<Entry>, e: Entry, cutoff: real)
    ensures KeptEntries(log + [e], cutoff) == KeptEntries(log, cutoff) + (if e.time >= cutoff then [e] else [])
  {
    assert (log + [e])[..|log|] == log;
  }

  lemma {:induction false} KeptEntriesTwice(log: seq<Entry>, early: real, late: real)
    requires early <= late
    ensures KeptEntries(KeptEntries(log, early), late) == KeptEntries(log, late)
  {
    if log != [] {
      var front, last := log[..|log| - 1], log[|log| - 1];
      KeptEntriesTwice(front, early, late);
      KeptEntriesSnoc(KeptEntries(front, early), last, late);
    }
  }

  /** Pruning and projecting commute. */
  lemma {:induction false} TimesOfKept(log: seq<Entry>, pick: Pick, cutoff: real)
    ensures Times(KeptEntries(log, cutoff), pick) == Kept(Times(log, pick), cutoff)
  {
    if log != [] {
      var front, last := log[..|log| - 1], log[|log| - 1];
      TimesOfKept(front, pick, cutoff);
      TimesSnoc(KeptEntries(front, cutoff), last, pick);
      if Picked(last, pick) {
        KeptSnoc(Times(front, pick), last.time, cutoff);
      } else {
        assert Times(front, pick) + [] == Times(front, pick);
        assert Times(KeptEntries(front, cutoff), pick) + [] == Times(KeptEntries(front, cutoff), pick);
      }
    }
  }

  /** Where in the log the picked entries from `cutoff` on stand. */
  function Places(log: seq<Entry>, pick: Pick, cutoff: real): set<nat> {
    set i: nat | i < |log| && log[i].time >= cutoff && Picked(log[i], pick)
  }

  lemma PlacesSnoc(log: seq<Entry>, e: Entry, pick: Pick, cutoff: real)
    ensures Places(log + [e], pick, cutoff) ==
      Places(log, pick, cutoff) + (if e.time >= cutoff && Picked(e, pick) then {|log|} else {})
  {
    assert forall i: nat :: i < |log| ==> (log + [e])[i] == log[i];
  }

  /** As many picked entries are kept as stand in the log. */
  lemma {:induction false} KeptAreThePlaces(log: seq<Entry>, pick: Pick, cutoff: real)
    ensures |Times(KeptEntries(log, cutoff), pick)| == |Places(log, pick, cutoff)|
  {
    if log == [] {
      assert Places(log, pick, cutoff) == {};
    } else {
      var front, last := log[..|log| - 1], log[|log| - 1];
      assert log == front + [last];
      KeptAreThePlaces(front, pick, cutoff);
      PlacesSnoc(front, last, pick, cutoff);
      TimesSnoc(KeptEntries(front, cutoff), last, pick);
    }
  }

  lemma {:induction false} AllTimes(log: seq<Entry>)
    ensures |Times(log, All)| == |log|
    ensures forall i :: 0 <= i < |log| ==> Times(log, All)[i] == log[i].time
  {
    if log != [] {
      AllTimes(log[..|log| - 1]);
    }
  }
}
