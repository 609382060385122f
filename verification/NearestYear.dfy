/** Placing a reading without a year near a dated reference. */
module NearestYear {
  import opened Common
  import opened Calendar

  // ------------------------------------------------------------------
  // The year of a year-less reading
  // ------------------------------------------------------------------

  function Distance(a: DateTime, b: DateTime): int
    requires Valid(a) && Valid(b)
  {
    if Instant(a) < Instant(b) then Instant(b) - Instant(a) else Instant(a) - Instant(b)
  }

  /** The best candidate so far, after one more year has been tried. */
  function Better(best: Option<DateTime>, candidate: DateTime, reference: DateTime): (r: Option<DateTime>)
    requires Valid(reference) && (best.Some? ==> Valid(best.value))
    ensures r.Some? ==> Valid(r.value)
  {
    if !Valid(candidate) then best
    else if best.None? || Distance(candidate, reference) < Distance(best.value, reference) then Some(candidate)
    else best
  }

  /** The year before the reference's, its own, and the one after, in that order. */
  function DatetimeNear(r: Reading, reference: DateTime): Option<DateTime>
    requires Valid(reference)
  {
    var y := reference.year;
    Better(Better(Better(None, DateTime(y - 1, r), reference), DateTime(y, r), reference), DateTime(y + 1, r),
           reference)
  }

  method DeviceDatetimeNear(r: Reading, reference: DateTime) returns (best: Option<DateTime>)
    requires Valid(reference)
    ensures best == DatetimeNear(r, reference)
  {
    best := None;
    var bestDelta := 0;
    var y := reference.year;
    for year := y - 1 to y + 2
      invariant best.Some? ==> Valid(best.value) && bestDelta == Distance(best.value, reference)
      invariant year == y - 1 ==> best == None
      invariant year == y ==> best == Better(None, DateTime(y - 1, r), reference)
      invariant year == y + 1 ==>
        best == Better(Better(None, DateTime(y - 1, r), reference), DateTime(y, r), reference)
      invariant year == y + 2 ==> best == DatetimeNear(r, reference)
    {
      var candidate := DateTime(year, r);
      if Valid(candidate) {
        var delta := Distance(candidate, reference);
        if best.None? || delta < bestDelta {
          best, bestDelta := Some(candidate), delta;
        }
      }
    }
  }

  /** The result is at least as close as the candidate, and closer than it when it comes
      from a later year. */
  ghost predicate Beats(best: Option<DateTime>, candidate: DateTime, reference: DateTime)
    requires Valid(reference)
  {
    Valid(candidate) ==>
      && best.Some? && Valid(best.value)
      && Distance(best.value, reference) <= Distance(candidate, reference)
      && (candidate.year < best.value.year ==> Distance(best.value, reference) < Distance(candidate, reference))
  }

  /** What the search means: a result is a candidate of one of the three years, nothing
      is found only when no tried year has the date, and the result is a closest
      candidate and the earliest of the closest. */
  lemma NearestOfTheThreeYears(r: Reading, reference: DateTime)
    requires Valid(reference)
    ensures var y, best := reference.year, DatetimeNear(r, reference);
      && (best.Some? ==> Valid(best.value) && best.value.reading == r && y - 1 <= best.value.year <= y + 1)
      && Beats(best, DateTime(y - 1, r), reference)
      && Beats(best, DateTime(y, r), reference)
      && Beats(best, DateTime(y + 1, r), reference)
  {
    var y := reference.year;
  }

  lemma SameReadingFarApart(r: Reading, early: int, late: int)
    requires early < late && Valid(DateTime(early, r)) && Valid(DateTime(late, r))
    ensures Instant(DateTime(late, r)) - Instant(DateTime(early, r)) >= Days(365)
  {
    if late == early + 1 {
      SameReadingNextYear(r, early);
    } else {
      InstantLiesInItsYear(DateTime(early, r));
      InstantLiesInItsYear(DateTime(late, r));
      YearStartsGrow(early + 1, late);
    }
  }

  lemma NearestBeats(r: Reading, reference: DateTime, year: int)
    requires Valid(reference) && Valid(DateTime(year, r))
    requires reference.year - 1 <= year <= reference.year + 1
    ensures var best := DatetimeNear(r, reference);
      && best.Some? && Valid(best.value) && best.value.reading == r
      && Distance(best.value, reference) <= Distance(DateTime(year, r), reference)
  {
    NearestOfTheThreeYears(r, reference);
    assert Beats(DatetimeNear(r, reference), DateTime(year, r), reference);
  }

  lemma OtherYearIsFurther(d: DateTime, reference: DateTime, year: int)
    requires Valid(d) && Valid(reference) && Valid(DateTime(year, d.reading)) && year != d.year
    requires 2 * Distance(d, reference) < Days(365)
    ensures Distance(d, reference) < Distance(DateTime(year, d.reading), reference)
  {
    var other := DateTime(year, d.reading);
    assert d == DateTime(d.year, d.reading);
    if year < d.year {
      SameReadingFarApart(d.reading, year, d.year);
    } else {
      SameReadingFarApart(d.reading, d.year, year);
    }
  }

  /** Dropping the year loses nothing: any instant less than 182.5 days from the
      reference is found again, across year ends and on 29 February alike. */
  lemma YearIsRecovered(d: DateTime, reference: DateTime)
    requires Valid(d) && Valid(reference)
    requires 2 * Distance(d, reference) < Days(365)
    ensures DatetimeNear(d.reading, reference) == Some(d)
  {
    NearInstantsNearYears(d, reference);
    assert d == DateTime(d.year, d.reading);
    NearestBeats(d.reading, reference, d.year);
    var found := DatetimeNear(d.reading, reference).value;
    assert found == DateTime(found.year, d.reading);
    if found.year != d.year {
      OtherYearIsFurther(d, reference, found.year);
    }
  }

  /** A date other than 29 February is always found, and at most 183 days away, while
      the reference has a year on either side of its own. */
  lemma OrdinaryDateIsFoundNearby(r: Reading, reference: DateTime, year: int)
    requires Valid(reference) && 2 <= reference.year <= 9998
    requires Valid(DateTime(year, r)) && !(r.month == 2 && r.day == 29)
    ensures DatetimeNear(r, reference).Some?
    ensures Valid(DatetimeNear(r, reference).value)
    ensures Distance(DatetimeNear(r, reference).value, reference) <= Days(183)
  {
    var y := reference.year;
    var near := NeighbourWithin183Days(r, reference);
    NearestBeats(r, reference, near);
  }

  lemma NeighbourWithin183Days(r: Reading, reference: DateTime) returns (year: int)
    requires Valid(reference) && Valid(DateTime(reference.year, r))
    requires Valid(DateTime(reference.year - 1, r)) && Valid(DateTime(reference.year + 1, r))
    ensures reference.year - 1 <= year <= reference.year + 1 && Valid(DateTime(year, r))
    ensures Distance(DateTime(year, r), reference) <= Days(183)
  {
    var y := reference.year;
    NeighboursBracket(r, reference);
    var before, own, after := Instant(DateTime(y - 1, r)), Instant(DateTime(y, r)), Instant(DateTime(y + 1, r));
    if Days(-183) <= before - Instant(reference) <= Days(183) {
      year := y - 1;
    } else if Days(-183) <= own - Instant(reference) <= Days(183) {
      year := y;
    } else {
      year := y + 1;
    }
  }

  lemma NeighboursBracket(r: Reading, reference: DateTime)
    requires Valid(reference) && Valid(DateTime(reference.year, r))
    requires Valid(DateTime(reference.year - 1, r)) && Valid(DateTime(reference.year + 1, r))
    ensures var before, own, after :=
        Instant(DateTime(reference.year - 1, r)), Instant(DateTime(reference.year, r)),
        Instant(DateTime(reference.year + 1, r));
      && before <= Instant(reference) <= after
      && 0 <= own - before <= Days(366) && 0 <= after - own <= Days(366)
  {
    var y := reference.year;
    InstantLiesInItsYear(reference);
    InstantLiesInItsYear(DateTime(y - 1, r));
    InstantLiesInItsYear(DateTime(y + 1, r));
    SameReadingNextYear(r, y - 1);
    SameReadingNextYear(r, y);
  }

  /** 29 February is found exactly when one of the three years exists and is a leap year; so
      never from year 1 or year 9999. */
  lemma LeapDayIsFoundInLeapYears(r: Reading, reference: DateTime)
    requires Valid(reference) && r.month == 2 && r.day == 29 && ClockValid(r)
    ensures DatetimeNear(r, reference).Some? <==>
      exists year :: reference.year - 1 <= year <= reference.year + 1 && 1 <= year <= 9999 && Leap(year)
    ensures reference.year == 1 || reference.year == 9999 ==> DatetimeNear(r, reference).None?
  {
    var y := reference.year;
    NearestOfTheThreeYears(r, reference);
    if DatetimeNear(r, reference).Some? {
      var found := DatetimeNear(r, reference).value;
      assert found == DateTime(found.year, r);
    }
    if year :| y - 1 <= year <= y + 1 && 1 <= year <= 9999 && Leap(year) {
      assert year == y - 1 || year == y || year == y + 1;
    }
  }

  /** In year 1 there is no earlier year to try, so an ordinary date is found within 183
      days exactly when the reference's own year does not put it further ahead. */
  lemma FirstYearHasNoYearBefore(r: Reading, reference: DateTime)
    requires Valid(reference) && reference.year == 1
    requires Valid(DateTime(1, r)) && Valid(DateTime(2, r))
    ensures var found := DatetimeNear(r, reference);
      && found.Some? && Valid(found.value)
      && (Distance(found.value, reference) <= Days(183) <==>
            Instant(DateTime(1, r)) - Instant(reference) <= Days(183))
  {
    NearestBeats(r, reference, 1);
    NearestBeats(r, reference, 2);
    NearestOfTheThreeYears(r, reference);
    var found := DatetimeNear(r, reference).value;
    assert found == DateTime(1, r) || found == DateTime(2, r) by {
      assert found == DateTime(found.year, r) && found.year in {1, 2};
    }
    InstantLiesInItsYear(reference);
    InstantLiesInItsYear(DateTime(2, r));
    SameReadingNextYear(r, 1);
  }

  /** In year 9999 there is no later year, and the same holds with the sides exchanged. */
  lemma LastYearHasNoYearAfter(r: Reading, reference: DateTime)
    requires Valid(reference) && reference.year == 9999
    requires Valid(DateTime(9998, r)) && Valid(DateTime(9999, r))
    ensures var found := DatetimeNear(r, reference);
      && found.Some? && Valid(found.value)
      && (Distance(found.value, reference) <= Days(183) <==>
            Instant(reference) - Instant(DateTime(9999, r)) <= Days(183))
  {
    NearestBeats(r, reference, 9998);
    NearestBeats(r, reference, 9999);
    NearestOfTheThreeYears(r, reference);
    var found := DatetimeNear(r, reference).value;
    assert found == DateTime(9998, r) || found == DateTime(9999, r) by {
      assert found == DateTime(found.year, r) && found.year in {9998, 9999};
    }
    InstantLiesInItsYear(reference);
    InstantLiesInItsYear(DateTime(9998, r));
    SameReadingNextYear(r, 9998);
  }

  const MIDNIGHT := DateTime(1, Reading(1, 1, 0, 0, 0, 0))
  const NEW_YEARS_EVE := Reading(12, 31, 0, 0, 0, 0)

  lemma FirstDayAndLastDay()
    ensures Valid(MIDNIGHT) && Valid(DateTime(1, NEW_YEARS_EVE)) && Valid(DateTime(2, NEW_YEARS_EVE))
    ensures Instant(DateTime(1, NEW_YEARS_EVE)) - Instant(MIDNIGHT) == Days(364)
  {
    MonthTable(1);
  }

  /** The bound does fail there: from midnight of 1 January of year 1, 31 December is placed
      in the same year, 364 days ahead. */
  lemma FirstYearFails()
    ensures Valid(MIDNIGHT)
    ensures DatetimeNear(NEW_YEARS_EVE, MIDNIGHT).Some? && Valid(DatetimeNear(NEW_YEARS_EVE, MIDNIGHT).value)
    ensures Distance(DatetimeNear(NEW_YEARS_EVE, MIDNIGHT).value, MIDNIGHT) > Days(183)
  {
    FirstDayAndLastDay();
    FirstYearHasNoYearBefore(NEW_YEARS_EVE, MIDNIGHT);
  }

  const LAST_MIDNIGHT := DateTime(9999, Reading(12, 31, 0, 0, 0, 0))
  const NEW_YEARS_DAY := Reading(1, 1, 0, 0, 0, 0)

  lemma LastDayAndFirstDay()
    ensures Valid(LAST_MIDNIGHT) && Valid(DateTime(9998, NEW_YEARS_DAY)) && Valid(DateTime(9999, NEW_YEARS_DAY))
    ensures Instant(LAST_MIDNIGHT) - Instant(DateTime(9999, NEW_YEARS_DAY)) == Days(364)
  {
    MonthTable(9999);
  }

  /** And from the last midnight of year 9999, 1 January is 364 days behind. */
  lemma LastYearFails()
    ensures Valid(LAST_MIDNIGHT)
    ensures DatetimeNear(NEW_YEARS_DAY, LAST_MIDNIGHT).Some? && Valid(DatetimeNear(NEW_YEARS_DAY, LAST_MIDNIGHT).value)
    ensures Distance(DatetimeNear(NEW_YEARS_DAY, LAST_MIDNIGHT).value, LAST_MIDNIGHT) > Days(183)
  {
    LastDayAndFirstDay();
    LastYearHasNoYearAfter(NEW_YEARS_DAY, LAST_MIDNIGHT);
  }
}
