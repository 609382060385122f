/** Clock disagreement between devices: each device is reduced to the median offset of
    its records from the shared reference, and the spread of the medians is compared
    with a bound. */
module ClockSkew {
  import opened Common
  import opened Calendar
  import opened Medians
  import opened NearestYear
  import opened SlidingLog

  // ------------------------------------------------------------------
  // One record, one device
  // ------------------------------------------------------------------

  type ValidDateTime = d: DateTime | Valid(d)
    witness DateTime(1, Reading(1, 1, 0, 0, 0, 0))

  /** What parsing made of a record's two time stamps. */
  datatype Record = Record(timestamp: Option<Reading>, ingest: Option<ValidDateTime>)

  function Seconds(micros: int): real {
    micros as real / 1_000_000.0
  }

  function OffsetSeconds(record: Record): Option<real> {
    if record.timestamp.None? || record.ingest.None? then None
    else
      var placed := DatetimeNear(record.timestamp.value, record.ingest.value);
      if placed.None? then None
      else
        NearestOfTheThreeYears(record.timestamp.value, record.ingest.value);
        Some(Seconds(Instant(placed.value) - Instant(record.ingest.value)))
  }

  /** The offset is the true distance between the two clocks, in seconds and negative when
      the device is behind, whenever that is less than half a year. */
  lemma OffsetIsTheTrueDifference(deviceClock: ValidDateTime, ingest: ValidDateTime)
    requires 2 * Distance(deviceClock, ingest) < Days(365)
    ensures var offset := OffsetSeconds(Record(Some(deviceClock.reading), Some(ingest)));
      offset.Some? && offset.value * 1_000_000.0 == (Instant(deviceClock) - Instant(ingest)) as real
  {
    YearIsRecovered(deviceClock, ingest);
  }

  function Offsets(records: seq<Record>): seq<real> {
    if records == [] then []
    else
      var offset := OffsetSeconds(records[|records| - 1]);
      Offsets(records[..|records| - 1]) + (if offset.Some? then [offset.value] else [])
  }

  datatype DeviceClockOffset = DeviceClockOffset(
    device: string, totalRecords: nat, comparableRecords: nat,
    median: Option<real>, least: Option<real>, greatest: Option<real>)

  predicate Evaluated(d: DeviceClockOffset) {
    d.comparableRecords > 0 && d.median.Some?
  }

  function SummaryOf(device: string, total: nat, offsets: seq<real>): DeviceClockOffset {
    if offsets == [] then DeviceClockOffset(device, total, 0, None, None, None)
    else DeviceClockOffset(device, total, |offsets|, Some(Median(offsets)), Some(Least(offsets)),
                           Some(Greatest(offsets)))
  }

  method SummarizeDeviceOffsets(device: string, records: seq<Record>) returns (summary: DeviceClockOffset)
    ensures summary == SummaryOf(device, |records|, Offsets(records))
  {
    var offsets: seq<real> := [];
    for i := 0 to |records|
      invariant offsets == Offsets(records[..i])
    {
      assert records[..i + 1][..i] == records[..i];
      var offset := OffsetSeconds(records[i]);
      if offset.Some? {
        offsets := offsets + [offset.value];
      }
    }
    assert records[..|records|] == records;
    summary := SummaryOf(device, |records|, offsets);
  }

  // What a summary says

  function OffsetMarks(records: seq<Record>): seq<Option<real>> {
    seq(|records|, i requires 0 <= i < |records| => OffsetSeconds(records[i]))
  }

  /** The offsets are those of the comparable records, in their order. */
  lemma {:induction false} OffsetsInOrder(records: seq<Record>) returns (at: seq<nat>)
    ensures Picks(OffsetMarks(records), Offsets(records), at)
  {
    at := [];
    if records != [] {
      var n := |records| - 1;
      var before := OffsetsInOrder(records[..n]);
      PicksSnoc(OffsetMarks(records[..n]), Offsets(records[..n]), before, OffsetSeconds(records[n]));
      assert OffsetMarks(records[..n]) + [OffsetSeconds(records[n])] == OffsetMarks(records);
      at := if OffsetSeconds(records[n]).Some? then before + [n] else before;
      assert Offsets(records[..n]) + [] == Offsets(records[..n]);
    }
  }

  /** A summary counts the offsets and gives their middle and their two ends; with no offset
      it gives none of these. */
  lemma SummaryDescribesTheOffsets(device: string, total: nat, offsets: seq<real>, t: seq<real>)
    requires Ascending(t) && multiset(t) == multiset(offsets)
    ensures var d, n := SummaryOf(device, total, offsets), |t|;
      && d.device == device && d.totalRecords == total && d.comparableRecords == |offsets| == n
      && (n == 0 ==> d.median == None && d.least == None && d.greatest == None)
      && (n > 0 ==> d.median.Some? && d.least == Some(t[0]) && d.greatest == Some(t[n - 1]))
      && (n > 0 && n % 2 == 1 ==> d.median == Some(t[n / 2]))
      && (n > 0 && n % 2 == 0 ==> d.median.value - t[n / 2 - 1] == t[n / 2] - d.median.value)
  {
    assert |multiset(t)| == |t| && |multiset(offsets)| == |offsets|;
    if t != [] {
      MedianIsInTheMiddle(offsets, t);
      ExtremesIgnoreOrder(offsets, t);
      ExtremesOf(t);
      assert t[0] in t && t[|t| - 1] in t;
    }
  }

  // The order of the records

  lemma SummaryIgnoresOrder(device: string, total: nat, offsets: seq<real>, reordered: seq<real>)
    requires multiset(offsets) == multiset(reordered)
    ensures SummaryOf(device, total, offsets) == SummaryOf(device, total, reordered)
  {
    assert |multiset(offsets)| == |offsets| && |multiset(reordered)| == |reordered|;
    if offsets != [] {
      MedianIgnoresOrder(offsets, reordered);
      ExtremesIgnoreOrder(offsets, reordered);
    }
  }

  lemma {:induction false} OffsetsJoin(front: seq<Record>, back: seq<Record>)
    ensures Offsets(front + back) == Offsets(front) + Offsets(back)
  {
    if back == [] {
      assert front + back == front;
    } else {
      var n := |back| - 1;
      OffsetsJoin(front, back[..n]);
      assert (front + back)[..|front + back| - 1] == front + back[..n];
    }
  }

  lemma MiddleLast<T>(a: seq<T>, x: seq<T>, b: seq<T>)
    ensures multiset(a + x + b) == multiset(a + b) + multiset(x)
  {
  }

  lemma OffsetsWithout(front: seq<Record>, record: Record, back: seq<Record>)
    ensures multiset(Offsets(front + [record] + back)) ==
      multiset(Offsets(front + back)) + multiset(Offsets([record]))
  {
    OffsetsJoin(front, back);
    OffsetsJoin(front, [record]);
    OffsetsJoin(front + [record], back);
    MiddleLast(Offsets(front), Offsets([record]), Offsets(back));
  }

  lemma OffsetsOfOneMore(rest: seq<Record>, record: Record, front: seq<Record>, back: seq<Record>)
    requires multiset(Offsets(rest)) == multiset(Offsets(front + back))
    ensures multiset(Offsets(rest + [record])) == multiset(Offsets(front + [record] + back))
  {
    OffsetsJoin(rest, [record]);
    OffsetsWithout(front, record, back);
  }

  lemma {:induction false} OffsetsOfReordered(records: seq<Record>, reordered: seq<Record>)
    requires multiset(records) == multiset(reordered)
    ensures multiset(Offsets(records)) == multiset(Offsets(reordered))
  {
    if records == [] {
      assert |multiset(reordered)| == |reordered|;
    } else {
      var n := |records| - 1;
      var front, back := MatchLast(records, reordered);
      OffsetsOfReordered(records[..n], front + back);
      OffsetsOfOneMore(records[..n], records[n], front, back);
      assert records == records[..n] + [records[n]];
    }
  }

  /** Reordering a device's records leaves its summary unchanged. */
  lemma RecordOrderDoesNotMatter(device: string, records: seq<Record>, reordered: seq<Record>)
    requires multiset(records) == multiset(reordered)
    ensures SummaryOf(device, |records|, Offsets(records)) == SummaryOf(device, |reordered|, Offsets(reordered))
  {
    assert |multiset(records)| == |records| && |multiset(reordered)| == |reordered|;
    OffsetsOfReordered(records, reordered);
    SummaryIgnoresOrder(device, |records|, Offsets(records), Offsets(reordered));
  }

  // ------------------------------------------------------------------
  // The fabric
  // ------------------------------------------------------------------

  datatype Status = NotEvaluated | WithinBound | SkewDetected

  datatype Finding = Finding(perDevice: seq<DeviceClockOffset>, bound: real)

  function EvaluatedOnly(devices: seq<DeviceClockOffset>): (r: seq<DeviceClockOffset>)
    ensures forall d :: d in r ==> d in devices && Evaluated(d)
    ensures forall d :: d in devices && Evaluated(d) ==> d in r
  {
    if devices == [] then []
    else
      var last := devices[|devices| - 1];
      assert devices == devices[..|devices| - 1] + [last];
      EvaluatedOnly(devices[..|devices| - 1]) + (if Evaluated(last) then [last] else [])
  }

  function MediansOf(devices: seq<DeviceClockOffset>): seq<real>
    requires forall d :: d in devices ==> d.median.Some?
  {
    seq(|devices|, i requires 0 <= i < |devices| => devices[i].median.value)
  }

  /** The medians of the evaluated devices, in order. */
  function EvaluatedMedians(devices: seq<DeviceClockOffset>): seq<real> {
    if devices == [] then []
    else
      var last := devices[|devices| - 1];
      EvaluatedMedians(devices[..|devices| - 1]) + (if Evaluated(last) then [last.median.value] else [])
  }

  lemma MediansSnoc(devices: seq<DeviceClockOffset>, d: DeviceClockOffset)
    requires d.median.Some? && forall e :: e in devices ==> e.median.Some?
    ensures MediansOf(devices + [d]) == MediansOf(devices) + [d.median.value]
  {
  }

  lemma {:induction false} MediansOfEvaluated(devices: seq<DeviceClockOffset>)
    ensures EvaluatedMedians(devices) == MediansOf(EvaluatedOnly(devices))
  {
    if devices != [] {
      var front, last := devices[..|devices| - 1], devices[|devices| - 1];
      MediansOfEvaluated(front);
      if Evaluated(last) {
        MediansSnoc(EvaluatedOnly(front), last);
      } else {
        assert EvaluatedOnly(front) + [] == EvaluatedOnly(front);
      }
    }
  }

  function SpanSeconds(f: Finding): Option<real> {
    var medians := EvaluatedMedians(f.perDevice);
    if |medians| < 2 then None else Some(Greatest(medians) - Least(medians))
  }

  function StatusOf(f: Finding): Status {
    var span := SpanSeconds(f);
    if span.None? then NotEvaluated
    else if span.value > f.bound then SkewDetected
    else WithinBound
  }

  /** The first device with the least, respectively the greatest, median. */
  function Lowest(devices: seq<DeviceClockOffset>): (r: DeviceClockOffset)
    requires devices != [] && forall d :: d in devices ==> d.median.Some?
    ensures r in devices
  {
    if |devices| == 1 then devices[0]
    else
      var m, last := Lowest(devices[..|devices| - 1]), devices[|devices| - 1];
      if last.median.value < m.median.value then last else m
  }

  function Highest(devices: seq<DeviceClockOffset>): (r: DeviceClockOffset)
    requires devices != [] && forall d :: d in devices ==> d.median.Some?
    ensures r in devices
  {
    if |devices| == 1 then devices[0]
    else
      var m, last := Highest(devices[..|devices| - 1]), devices[|devices| - 1];
      if last.median.value > m.median.value then last else m
  }

  function FurthestPair(f: Finding): Option<(DeviceClockOffset, DeviceClockOffset)> {
    var devices := EvaluatedOnly(f.perDevice);
    if |devices| < 2 then None else Some((Lowest(devices), Highest(devices)))
  }

  lemma {:induction false} PairIsExtreme(devices: seq<DeviceClockOffset>)
    requires devices != [] && forall d :: d in devices ==> d.median.Some?
    ensures Lowest(devices).median.value == Least(MediansOf(devices))
    ensures Highest(devices).median.value == Greatest(MediansOf(devices))
  {
    if |devices| > 1 {
      var front := devices[..|devices| - 1];
      PairIsExtreme(front);
      assert MediansOf(devices)[..|devices| - 1] == MediansOf(front);
    }
  }

  /** The span is absent exactly when fewer than two devices were evaluated; otherwise
      it bounds the gap of every pair of evaluated devices, and the furthest pair is
      a pair of evaluated devices that attains it. */
  lemma SpanIsTheWidestGap(f: Finding)
    ensures SpanSeconds(f).None? <==> |EvaluatedOnly(f.perDevice)| < 2
    ensures FurthestPair(f).None? <==> SpanSeconds(f).None?
    ensures SpanSeconds(f).Some? ==> forall a, b ::
      a in f.perDevice && b in f.perDevice && Evaluated(a) && Evaluated(b) ==>
      a.median.value - b.median.value <= SpanSeconds(f).value
    ensures FurthestPair(f).Some? ==> var (lo, hi) := FurthestPair(f).value;
      && lo in f.perDevice && Evaluated(lo) && hi in f.perDevice && Evaluated(hi)
      && hi.median.value - lo.median.value == SpanSeconds(f).value
  {
    var devices := EvaluatedOnly(f.perDevice);
    MediansOfEvaluated(f.perDevice);
    if |devices| >= 2 {
      PairIsExtreme(devices);
      ExtremesOf(MediansOf(devices));
      forall d | d in f.perDevice && Evaluated(d) ensures d.median.value in MediansOf(devices) {
        assert d in devices;
        var i :| 0 <= i < |devices| && devices[i] == d;
        assert MediansOf(devices)[i] == d.median.value;
      }
    }
  }

  /** The device has a point estimate. */
  predicate HasMedian(d: DeviceClockOffset) {
    d.comparableRecords > 0 && d.median.Some?
  }

  /** The two devices have medians, further apart than the bound. */
  predicate Apart(f: Finding, i: nat, j: nat)
    requires i < |f.perDevice| && j < |f.perDevice|
  {
    && i != j && HasMedian(f.perDevice[i]) && HasMedian(f.perDevice[j])
    && f.perDevice[i].median.value - f.perDevice[j].median.value > f.bound
  }

  lemma {:induction false} FewHaveNoPair(devices: seq<DeviceClockOffset>, i: nat, j: nat)
    requires |EvaluatedOnly(devices)| < 2 && i < j < |devices|
    ensures !HasMedian(devices[i]) || !HasMedian(devices[j])
  {
    var n := |devices| - 1;
    if j < n {
      FewHaveNoPair(devices[..n], i, j);
    } else if HasMedian(devices[n]) {
      assert EvaluatedOnly(devices[..n]) == [];
      assert devices[i] in devices[..n];
    }
  }

  lemma {:induction false} ManyHaveAPair(devices: seq<DeviceClockOffset>) returns (i: nat, j: nat)
    requires |EvaluatedOnly(devices)| >= 2
    ensures i < j < |devices| && HasMedian(devices[i]) && HasMedian(devices[j])
  {
    var n := |devices| - 1;
    if Evaluated(devices[n]) {
      var d := EvaluatedOnly(devices[..n])[0];
      assert d in devices[..n];
      i :| 0 <= i < n && devices[i] == d;
      j := n;
    } else {
      i, j := ManyHaveAPair(devices[..n]);
    }
  }

  lemma FurthestAreApart(f: Finding) returns (i: nat, j: nat)
    requires StatusOf(f) == SkewDetected
    ensures i < |f.perDevice| && j < |f.perDevice| && Apart(f, i, j)
  {
    SpanIsTheWidestGap(f);
    var (lo, hi) := FurthestPair(f).value;
    if lo != hi {
      i :| 0 <= i < |f.perDevice| && f.perDevice[i] == hi;
      j :| 0 <= j < |f.perDevice| && f.perDevice[j] == lo;
    } else {
      i, j := ManyHaveAPair(f.perDevice);
      if f.perDevice[i].median.value < f.perDevice[j].median.value {
        i, j := j, i;
      }
    }
  }

  /** Nothing is evaluated exactly when no two devices have a median; otherwise skew is
      detected exactly when two of them have medians further apart than the bound. */
  lemma StatusExactly(f: Finding)
    ensures StatusOf(f) == NotEvaluated <==>
      forall i, j :: 0 <= i < j < |f.perDevice| ==> !HasMedian(f.perDevice[i]) || !HasMedian(f.perDevice[j])
    ensures StatusOf(f) == SkewDetected <==>
      exists i: nat, j: nat :: i < |f.perDevice| && j < |f.perDevice| && Apart(f, i, j)
  {
    SpanIsTheWidestGap(f);
    if StatusOf(f) == NotEvaluated {
      forall i: nat, j: nat | i < j < |f.perDevice|
        ensures !HasMedian(f.perDevice[i]) || !HasMedian(f.perDevice[j])
      {
        FewHaveNoPair(f.perDevice, i, j);
      }
    } else {
      var i, j := ManyHaveAPair(f.perDevice);
    }
    if StatusOf(f) == SkewDetected {
      var i, j := FurthestAreApart(f);
    }
  }

  /** One device's input: its name and its records. */
  datatype Source = Source(device: string, records: seq<Record>)

  function Summaries(sources: seq<Source>): seq<DeviceClockOffset> {
    seq(|sources|, i requires 0 <= i < |sources| =>
      SummaryOf(sources[i].device, |sources[i].records|, Offsets(sources[i].records)))
  }

  function Assess(sources: seq<Source>, bound: real): Finding {
    Finding(Summaries(sources), bound)
  }

  method AssessClockSkew(sources: seq<Source>, bound: real) returns (f: Finding)
    ensures f == Assess(sources, bound)
  {
    var perDevice: seq<DeviceClockOffset> := [];
    for i := 0 to |sources|
      invariant perDevice == Summaries(sources)[..i]
    {
      var summary := SummarizeDeviceOffsets(sources[i].device, sources[i].records);
      assert Summaries(sources)[i] == summary;
      perDevice := perDevice + [summary];
    }
    assert Summaries(sources)[..|sources|] == Summaries(sources);
    f := Finding(perDevice, bound);
  }

  /** Stray lines cannot cause a finding: if most comparable offsets of every device
      that has any lie in one interval no wider than the bound, no skew is detected. */
  lemma MajorityInBoundNeverDetected(sources: seq<Source>, bound: real, lo: real, hi: real)
    requires hi - lo <= bound
    requires forall s :: s in sources && Offsets(s.records) != [] ==>
      2 * CountIn(Offsets(s.records), lo, hi) > |Offsets(s.records)|
    ensures StatusOf(Assess(sources, bound)) != SkewDetected
  {
    var f := Assess(sources, bound);
    SpanIsTheWidestGap(f);
    forall d | d in f.perDevice && Evaluated(d) ensures lo <= d.median.value <= hi {
      var i :| 0 <= i < |f.perDevice| && f.perDevice[i] == d;
      assert sources[i] in sources;
      MajorityHoldsTheMedian(Offsets(sources[i].records), lo, hi);
    }
  }

  /** The second input is the first with one constant added to every offset. */
  ghost predicate ShiftedBy(sources: seq<Source>, shifted: seq<Source>, c: real) {
    && |shifted| == |sources|
    && forall i :: 0 <= i < |sources| ==>
         && shifted[i].device == sources[i].device
         && Offsets(shifted[i].records) == Shift(Offsets(sources[i].records), c)
  }

  ghost predicate ShiftedDevice(a: DeviceClockOffset, b: DeviceClockOffset, c: real) {
    && (Evaluated(a) <==> Evaluated(b))
    && (Evaluated(a) && Evaluated(b) ==> b.median.value == a.median.value + c)
  }

  lemma {:induction false} ShiftedMedians(a: seq<DeviceClockOffset>, b: seq<DeviceClockOffset>, c: real)
    requires |a| == |b|
    requires forall i :: 0 <= i < |a| ==> ShiftedDevice(a[i], b[i], c)
    ensures EvaluatedMedians(b) == Shift(EvaluatedMedians(a), c)
  {
    if a != [] {
      var n := |a| - 1;
      ShiftedMedians(a[..n], b[..n], c);
      assert ShiftedDevice(a[n], b[n], c);
      if Evaluated(a[n]) {
        ShiftSnoc(EvaluatedMedians(a[..n]), a[n].median.value, c);
      }
    }
  }

  lemma SummariesShift(sources: seq<Source>, shifted: seq<Source>, c: real)
    requires ShiftedBy(sources, shifted, c)
    ensures EvaluatedMedians(Summaries(shifted)) == Shift(EvaluatedMedians(Summaries(sources)), c)
  {
    var a, b := Summaries(sources), Summaries(shifted);
    forall i | 0 <= i < |a| ensures ShiftedDevice(a[i], b[i], c) {
      if Offsets(sources[i].records) != [] {
        MedianShift(Offsets(sources[i].records), c);
      }
    }
    ShiftedMedians(a, b, c);
  }

  lemma SpanShift(a: Finding, b: Finding, c: real)
    requires EvaluatedMedians(b.perDevice) == Shift(EvaluatedMedians(a.perDevice), c)
    ensures SpanSeconds(a) == SpanSeconds(b)
  {
    var medians := EvaluatedMedians(a.perDevice);
    if |medians| >= 2 {
      ExtremesShift(medians, c);
    }
  }

  /** A constant error of the shared reference cancels: neither the span nor the
      status sees it. */
  lemma SharedReferenceCancels(sources: seq<Source>, shifted: seq<Source>, c: real, bound: real)
    requires ShiftedBy(sources, shifted, c)
    ensures SpanSeconds(Assess(shifted, bound)) == SpanSeconds(Assess(sources, bound))
    ensures StatusOf(Assess(shifted, bound)) == StatusOf(Assess(sources, bound))
  {
    SummariesShift(sources, shifted, c);
    SpanShift(Assess(sources, bound), Assess(shifted, bound), c);
  }
}
