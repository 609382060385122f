/** The evidence-expansion cache: an insertion-ordered dictionary with a fixed time to
    live and a fixed size, swept on every store. It should answer like a plain search
    of the recent history. */
module ExpansionCache {
  import opened Common

  const LIMIT := 32
  const TTL := 300.0

  datatype Stored<T> = Stored(id: string, context: T, expires: real)

  /** Looks an identity up among the last `depth` stores; an expired one is as good as
      never stored. */
  function Find<T>(history: seq<Stored<T>>, id: string, now: real, depth: nat): Option<T> {
    if history == [] || depth == 0 then None
    else
      var last := history[|history| - 1];
      if last.id != id then Find(history[..|history| - 1], id, now, depth - 1)
      else if last.expires > now then Some(last.context)
      else None
  }

  predicate DistinctIds<T>(history: seq<Stored<T>>) {
    forall i, j :: 0 <= i < j < |history| ==> history[i].id != history[j].id
  }

  /** Contexts expire in the order in which they were stored. */
  predicate ExpiryOrdered<T>(history: seq<Stored<T>>) {
    forall i, j :: 0 <= i <= j < |history| ==> history[i].expires <= history[j].expires
  }

  lemma {:induction false} FindHit<T>(history: seq<Stored<T>>, id: string, now: real, depth: nat, k: nat)
    requires DistinctIds(history) && k < |history| && history[k].id == id
    ensures Find(history, id, now, depth) ==
      if k + depth >= |history| && history[k].expires > now then Some(history[k].context) else None
  {
    if depth > 0 && k < |history| - 1 {
      FindHit(history[..|history| - 1], id, now, depth - 1, k);
    } else if depth == 0 {
    }
  }

  lemma {:induction false} FindMiss<T>(history: seq<Stored<T>>, id: string, now: real, depth: nat)
    requires forall k :: 0 <= k < |history| ==> history[k].id != id
    ensures Find(history, id, now, depth) == None
  {
    if history != [] && depth > 0 {
      FindMiss(history[..|history| - 1], id, now, depth - 1);
    }
  }

  /** The answer is the context of a store among the last `depth` that has not expired, or
      there is no such store. */
  ghost predicate Answers<T>(history: seq<Stored<T>>, id: string, now: real, depth: nat, r: Option<T>) {
    match r
    case None =>
      forall k :: 0 <= k < |history| && k >= |history| - depth && history[k].id == id ==> history[k].expires <= now
    case Some(c) =>
      exists k :: 0 <= k < |history| && k >= |history| - depth && history[k].id == id && history[k].expires > now
        && history[k].context == c
  }

  lemma FindAnswers<T>(history: seq<Stored<T>>, id: string, now: real, depth: nat)
    requires DistinctIds(history)
    ensures forall r :: Answers(history, id, now, depth, r) <==> r == Find(history, id, now, depth)
  {
    if k: nat :| k < |history| && history[k].id == id {
      FindHit(history, id, now, depth, k);
    } else {
      FindMiss(history, id, now, depth);
    }
  }

  lemma {:induction false} IncreasingSpread(idx: seq<nat>, i: nat, j: nat)
    requires Increasing(idx) && i <= j < |idx|
    ensures idx[j] - idx[i] >= j - i
  {
    if i < j {
      IncreasingSpread(idx, i, j - 1);
    }
  }

  /** An increasing sequence that contains a whole range is at least as long. */
  lemma {:induction false} ContainsRange(idx: seq<nat>, lo: nat, n: nat)
    requires Increasing(idx)
    requires forall k :: lo <= k < lo + n ==> k in idx
    ensures |idx| >= n
  {
    if n > 0 {
      var top := lo + n - 1;
      assert top in idx;
      var p :| 0 <= p < |idx| && idx[p] == top;
      forall k | lo <= k < top ensures k in idx[..p] {
        assert k in idx;
        var q :| 0 <= q < |idx| && idx[q] == k;
        assert q < p;
      }
      ContainsRange(idx[..p], lo, n - 1);
    }
  }

  // ------------------------------------------------------------------
  // How the entries relate to the history: `places` says where in the
  // history each entry comes from
  // ------------------------------------------------------------------

  ghost predicate Tracks<T>(entries: seq<Stored<T>>, places: seq<nat>, history: seq<Stored<T>>) {
    && |entries| == |places|
    && Increasing(places)
    && forall k :: 0 <= k < |places| ==> places[k] < |history| && entries[k] == history[places[k]]
  }

  ghost predicate KeepsRecent<T>(places: seq<nat>, history: seq<Stored<T>>, clock: real, depth: nat) {
    forall k: nat :: |history| - depth <= k < |history| && history[k].expires > clock ==> k in places
  }

  ghost predicate KeepsOnlyRecent<T>(places: seq<nat>, history: seq<Stored<T>>, clock: real, depth: nat) {
    ExpiryOrdered(history) ==>
      forall k :: k in places && k < |history| && history[k].expires > clock ==> k >= |history| - depth
  }

  ghost predicate Mirrors<T>(entries: seq<Stored<T>>, places: seq<nat>, history: seq<Stored<T>>, clock: real) {
    && DistinctIds(history)
    && Tracks(entries, places, history)
    && |entries| <= LIMIT
    && KeepsRecent(places, history, clock, LIMIT)
    && KeepsOnlyRecent(places, history, clock, LIMIT)
  }

  lemma LaterClockKeeps<T>(places: seq<nat>, history: seq<Stored<T>>, clock: real, now: real)
    requires clock <= now
    ensures KeepsRecent(places, history, clock, LIMIT) ==> KeepsRecent(places, history, now, LIMIT)
    ensures KeepsOnlyRecent(places, history, clock, LIMIT) ==> KeepsOnlyRecent(places, history, now, LIMIT)
  {
  }

  lemma WithoutKeepsTracking<T>(entries: seq<Stored<T>>, places: seq<nat>, history: seq<Stored<T>>, i: nat)
    requires Tracks(entries, places, history) && i < |entries|
    ensures var rest := places[..i] + places[i + 1..];
      && Tracks(entries[..i] + entries[i + 1..], rest, history)
      && (forall k :: k in rest ==> k in places)
      && (forall k :: k in places && k != places[i] ==> k in rest)
  {
    var rest := places[..i] + places[i + 1..];
    forall k | k in places && k != places[i] ensures k in rest {
      var p :| 0 <= p < |places| && places[p] == k;
      assert if p < i then rest[p] == k else rest[p - 1] == k;
    }
  }

  /** Dropping an expired entry changes no answer. */
  lemma PopKeepsMirror<T>(entries: seq<Stored<T>>, places: seq<nat>, history: seq<Stored<T>>, clock: real, i: nat)
    requires Mirrors(entries, places, history, clock)
    requires i < |entries| && entries[i].expires <= clock
    ensures Mirrors(entries[..i] + entries[i + 1..], places[..i] + places[i + 1..], history, clock)
  {
    WithoutKeepsTracking(entries, places, history, i);
  }

  /** A full cache's oldest entry is older than the last 31 stores. */
  lemma OldestIsPastTheLimit(survivors: seq<nat>, stores: nat)
    requires Increasing(survivors) && |survivors| >= LIMIT
    requires forall k :: 0 <= k < |survivors| ==> survivors[k] < stores
    ensures survivors[0] <= stores - LIMIT
  {
    IncreasingSpread(survivors, 0, |survivors| - 1);
  }

  /** With expiries in store order and room to spare, no survivor is as old as 32 stores. */
  lemma RoomMeansNoneTooOld<T>(places: seq<nat>, history: seq<Stored<T>>, now: real)
    requires Increasing(places) && |places| < LIMIT && ExpiryOrdered(history)
    requires forall k :: k in places ==> k < |history| && history[k].expires > now
    requires KeepsRecent(places, history, now, LIMIT)
    ensures forall k :: k in places ==> k > |history| - LIMIT
  {
    forall k | k in places ensures k > |history| - LIMIT {
      var low := |history| - LIMIT;
      if 0 <= low && forall j :: low <= j < low + LIMIT ==> j in places {
        ContainsRange(places, low, LIMIT);
      } else if 0 <= low {
        var j :| low <= j < low + LIMIT && j !in places;
        assert history[j].expires <= now;
      }
    }
  }

  lemma OrderedPrefix<T>(before: seq<Stored<T>>, stored: Stored<T>)
    ensures ExpiryOrdered(before + [stored]) ==> ExpiryOrdered(before)
  {
    if ExpiryOrdered(before + [stored]) {
      forall i, j | 0 <= i <= j < |before| ensures before[i].expires <= before[j].expires {
        assert (before + [stored])[i] == before[i] && (before + [stored])[j] == before[j];
      }
    }
  }

  lemma AppendKeepsRecent<T>(places: seq<nat>, history: seq<Stored<T>>, now: real, stored: Stored<T>)
    requires KeepsRecent(places, history, now, LIMIT)
    ensures KeepsRecent(places + [|history|], history + [stored], now, LIMIT)
  {
    var all := history + [stored];
    forall k: nat | |all| - LIMIT <= k < |all| && all[k].expires > now ensures k in places + [|history|] {
      if k < |history| {
        assert k in places;
      }
    }
  }

  /** Appending to the swept entries when there is room. */
  lemma StoreKeepsMirror<T>(entries: seq<Stored<T>>, places: seq<nat>, history: seq<Stored<T>>, now: real,
                            stored: Stored<T>)
    requires Mirrors(entries, places, history, now) && |entries| < LIMIT
    requires forall k :: 0 <= k < |entries| ==> entries[k].expires > now
    requires forall k :: 0 <= k < |history| ==> history[k].id != stored.id
    ensures Mirrors(entries + [stored], places + [|history|], history + [stored], now)
  {
    AppendKeepsRecent(places, history, now, stored);
    OrderedPrefix(history, stored);
    if ExpiryOrdered(history) {
      RoomMeansNoneTooOld(places, history, now);
    }
  }

  lemma DropFirstTracks<T>(entries: seq<Stored<T>>, places: seq<nat>, history: seq<Stored<T>>)
    requires Tracks(entries, places, history) && entries != []
    ensures Tracks(entries[1..], places[1..], history)
  {
  }

  lemma EvictKeepsRecent<T>(places: seq<nat>, history: seq<Stored<T>>, now: real, stored: Stored<T>)
    requires Increasing(places) && |places| == LIMIT
    requires forall k :: 0 <= k < |places| ==> places[k] < |history|
    requires KeepsRecent(places, history, now, LIMIT)
    ensures KeepsRecent(places[1..] + [|history|], history + [stored], now, LIMIT)
  {
    OldestIsPastTheLimit(places, |history|);
    var all, rest := history + [stored], places[1..] + [|history|];
    forall k: nat | |all| - LIMIT <= k < |all| && all[k].expires > now ensures k in rest {
      if k < |history| {
        assert k in places && k != places[0];
        var p :| 0 <= p < |places| && places[p] == k;
        assert rest[p - 1] == k;
      }
    }
  }

  lemma EvictKeepsOnlyRecent<T>(places: seq<nat>, history: seq<Stored<T>>, now: real, stored: Stored<T>)
    requires Increasing(places) && |places| == LIMIT
    requires forall k :: 0 <= k < |places| ==> places[k] < |history| && history[places[k]].expires > now
    requires KeepsOnlyRecent(places, history, now, LIMIT)
    ensures KeepsOnlyRecent(places[1..] + [|history|], history + [stored], now, LIMIT)
  {
    OrderedPrefix(history, stored);
    if ExpiryOrdered(history) {
      assert places[0] in places;
      forall k | k in places[1..] ensures k > |history| - LIMIT {
        var p :| 0 <= p < |places| - 1 && places[1..][p] == k;
        assert places[0] < places[p + 1];
      }
    }
  }

  /** Appending to a full cache and evicting its oldest entry. */
  lemma EvictKeepsMirror<T>(entries: seq<Stored<T>>, places: seq<nat>, history: seq<Stored<T>>, now: real,
                            stored: Stored<T>)
    requires Mirrors(entries, places, history, now) && |entries| == LIMIT
    requires forall k :: 0 <= k < |entries| ==> entries[k].expires > now
    requires forall k :: 0 <= k < |history| ==> history[k].id != stored.id
    ensures Mirrors(entries[1..] + [stored], places[1..] + [|history|], history + [stored], now)
  {
    DropFirstTracks(entries, places, history);
    EvictKeepsRecent(places, history, now, stored);
    EvictKeepsOnlyRecent(places, history, now, stored);
  }

  lemma SurvivorTracks<T>(entries: seq<Stored<T>>, places: seq<nat>, history: seq<Stored<T>>,
                          kept: seq<Stored<T>>, from: seq<nat>, i: nat)
    requires Tracks(entries, places, history) && i < |entries|
    requires Tracks(kept, from, history) && forall k :: k in from ==> k in places[..i]
    ensures Tracks(kept + [entries[i]], from + [places[i]], history)
  {
    forall p | 0 <= p < |from| ensures from[p] < places[i] {
      assert from[p] in places[..i];
    }
  }

  /** One sweep: the survivors come from the old entries, and everything unexpired stays. */
  lemma SweepKeepsMirror<T>(places: seq<nat>, kept: seq<Stored<T>>, from: seq<nat>, history: seq<Stored<T>>, now: real)
    requires DistinctIds(history) && Tracks(kept, from, history) && |kept| <= LIMIT
    requires KeepsRecent(places, history, now, LIMIT) && KeepsOnlyRecent(places, history, now, LIMIT)
    requires forall k :: k in from ==> k in places
    requires forall k :: k in places && k < |history| && history[k].expires > now ==> k in from
    ensures Mirrors(kept, from, history, now)
  {
  }

  /** The entries that have not expired, in their order. */
  function Unexpired<T>(entries: seq<Stored<T>>, now: real): seq<Stored<T>> {
    if entries == [] then []
    else
      var last := entries[|entries| - 1];
      Unexpired(entries[..|entries| - 1], now) + (if last.expires > now then [last] else [])
  }

  lemma UnexpiredSnoc<T>(entries: seq<Stored<T>>, i: nat, now: real)
    requires i < |entries|
    ensures Unexpired(entries[..i + 1], now) ==
      Unexpired(entries[..i], now) + (if entries[i].expires > now then [entries[i]] else [])
  {
    assert entries[..i + 1][..i] == entries[..i];
  }

  /** The sweep's loop: what survives, and where in the history it comes from. */
  method Survivors<T>(entries: seq<Stored<T>>, ghost places: seq<nat>, ghost history: seq<Stored<T>>, now: real)
    returns (kept: seq<Stored<T>>, ghost from: seq<nat>)
    requires Tracks(entries, places, history)
    ensures kept == Unexpired(entries, now) && |kept| <= |entries|
    ensures Tracks(kept, from, history)
    ensures forall k :: 0 <= k < |kept| ==> kept[k].expires > now
    ensures forall k :: k in from ==> k in places
    ensures forall k :: 0 <= k < |entries| && entries[k].expires > now ==> places[k] in from
  {
    kept, from := [], [];
    for i := 0 to |entries|
      invariant |kept| <= i && Tracks(kept, from, history)
      invariant kept == Unexpired(entries[..i], now)
      invariant forall k :: 0 <= k < |kept| ==> kept[k].expires > now
      invariant forall k :: k in from ==> k in places[..i]
      invariant forall k :: 0 <= k < i && entries[k].expires > now ==> places[k] in from
    {
      UnexpiredSnoc(entries, i, now);
      if entries[i].expires > now {
        SurvivorTracks(entries, places, history, kept, from, i);
        kept := kept + [entries[i]];
        from := from + [places[i]];
      }
    }
    assert entries[..|entries|] == entries;
  }

  class Cache<T(==)> {
    var entries: seq<Stored<T>>

    ghost var history: seq<Stored<T>> // every store, in the order of the lock
    ghost var places: seq<nat>
    ghost var clock: real             // the latest reading under the lock

    ghost predicate Valid()
      reads this
    {
      Mirrors(entries, places, history, clock)
    }

    constructor ()
      ensures Valid() && history == []
    {
      entries, history, places, clock := [], [], [], 0.0;
    }

    /** Deletes what has expired; the survivors keep their order. */
    method Sweep(now: real)
      requires Valid() && now >= clock
      modifies this
      ensures Valid() && clock == now && history == old(history)
      ensures entries == Unexpired(old(entries), now)
      ensures forall k :: 0 <= k < |entries| ==> entries[k].expires > now
    {
      var kept, from := Survivors(entries, places, history, now);
      LaterClockKeeps(places, history, clock, now);
      SweepKeepsMirror(places, kept, from, history, now);
      entries, places, clock := kept, from, now;
    }

    /** Stores a context under a fresh identity. `stamp` is the clock reading from which
        the expiry is computed, before the lock; `now` the one under the lock. A result
        without a log window or raw text has no context and stores nothing. */
    method Store(context: Option<T>, id: string, stamp: real, now: real) returns (r: Option<string>)
      requires Valid() && now >= clock
      requires forall k :: 0 <= k < |history| ==> history[k].id != id
      modifies this
      ensures Valid() && |entries| <= 32
      ensures context == None ==> r == None && history == old(history) && entries == old(entries)
      ensures context.Some? ==>
        var stored := Stored(id, context.value, stamp + 300.0);
        var all := Unexpired(old(entries), now) + [stored];
        r == Some(id) && history == old(history) + [stored] && entries == if |all| > 32 then all[1..] else all
    {
      if context.None? {
        return None;
      }
      Sweep(now);
      var stored := Stored(id, context.value, stamp + TTL);
      var all := entries + [stored];
      if |all| > LIMIT {
        // One store adds one entry, so the eviction loop runs once.
        EvictKeepsMirror(entries, places, history, now, stored);
        assert all[1..] == entries[1..] + [stored];
        entries, places := all[1..], places[1..] + [|history|];
      } else {
        StoreKeepsMirror(entries, places, history, now, stored);
        entries, places := all, places + [|history|];
      }
      history := history + [stored];
      return Some(id);
    }

    method Lookup(id: string, now: real) returns (r: Option<T>)
      requires Valid() && now >= clock
      modifies this
      ensures Valid() && history == old(history)
      ensures r.Some? ==> entries == old(entries)
      // Whatever the expiries, a recent unexpired context is found, and what is found is real.
      ensures forall c :: Answers(history, id, now, 32, Some(c)) ==> r == Some(c)
      ensures r.Some? ==> Answers(history, id, now, |history|, r)
      // With expiries in store order, the cache is the search of the last 32 stores.
      ensures ExpiryOrdered(history) ==> Answers(history, id, now, 32, r)
    {
      var i := 0;
      while i < |entries| && entries[i].id != id
        invariant i <= |entries|
        invariant forall k :: 0 <= k < i ==> entries[k].id != id
      {
        i := i + 1;
      }
      LaterClockKeeps(places, history, clock, now);
      FindAnswers(history, id, now, LIMIT);
      FindAnswers(history, id, now, |history|);
      if i == |entries| {
        AbsentMeansNotFound(entries, places, history, now, id);
        clock := now;
        return None;
      }
      PresentDecides(entries, places, history, now, i);
      clock := now;
      if entries[i].expires <= now {
        PopKeepsMirror(entries, places, history, now, i);
        entries, places := entries[..i] + entries[i + 1..], places[..i] + places[i + 1..];
        return None;
      }
      return Some(entries[i].context);
    }
  }

  lemma AbsentMeansNotFound<T>(entries: seq<Stored<T>>, places: seq<nat>, history: seq<Stored<T>>, now: real,
                               id: string)
    requires Mirrors(entries, places, history, now)
    requires forall k :: 0 <= k < |entries| ==> entries[k].id != id
    ensures Find(history, id, now, LIMIT) == None
  {
    if k: nat :| k < |history| && history[k].id == id {
      FindHit(history, id, now, LIMIT, k);
      forall p | 0 <= p < |places| ensures places[p] != k {
        assert entries[p].id != id;
      }
      assert k !in places;
    } else {
      FindMiss(history, id, now, LIMIT);
    }
  }

  lemma PresentDecides<T>(entries: seq<Stored<T>>, places: seq<nat>, history: seq<Stored<T>>, now: real, i: nat)
    requires Mirrors(entries, places, history, now) && i < |entries|
    ensures var found := if entries[i].expires > now then Some(entries[i].context) else None;
      && Find(history, entries[i].id, now, |history|) == found
      && (Find(history, entries[i].id, now, LIMIT).Some? ==> Find(history, entries[i].id, now, LIMIT) == found)
      && (ExpiryOrdered(history) ==> Find(history, entries[i].id, now, LIMIT) == found)
  {
    FindHit(history, entries[i].id, now, LIMIT, places[i]);
    FindHit(history, entries[i].id, now, |history|, places[i]);
    assert places[i] in places;
  }
}
