/**
 The two epochs: Unix time counts from the first day of 1970, kdb+ time from the
 first day of 2000.  The distance is counted here by the calendar.
 */
module Calendar {
  predicate Leap(year: nat) { year % 4 == 0 && (year % 100 != 0 || year % 400 == 0) }

  function DaysOf(year: nat): nat { if Leap(year) then 366 else 365 }

  /** Days from the first day of year `from` to that of `from + years`. */
  function Days(from: nat, years: nat): nat
    decreases years, from
  {
    if years == 0 then 0 else DaysOf(from) + Days(from + 1, years - 1)
  }

  function Nanoseconds(days: nat): nat { days * (24 * 60 * 60) * 1_000_000_000 }

  /** The Unix time, in nanoseconds, at which kdb+ time is 0. */
  function KdbEpoch(): nat { Nanoseconds(Days(1970, 30)) }

  lemma FourYears(from: nat)
    requires from % 4 == 2 && from + 2 != 2000 && (from + 2) % 100 != 0
    ensures Days(from, 4) == 1461
  {
    assert Days(from + 3, 1) == DaysOf(from + 3) + Days(from + 4, 0);
    assert Days(from + 2, 2) == DaysOf(from + 2) + Days(from + 3, 1);
    assert Days(from + 1, 3) == DaysOf(from + 1) + Days(from + 2, 2);
  }

  lemma {:induction false} MoreYears(from: nat, a: nat, b: nat)
    ensures Days(from, a + b) == Days(from, a) + Days(from + a, b)
    decreases a
  {
    if a > 0 { MoreYears(from + 1, a - 1, b); }
  }

  lemma {:induction false} FourYearSpans(from: nat, spans: nat)
    requires from % 4 == 2 && from > 1900 && from + 4 * spans <= 1998
    ensures Days(from, 4 * spans) == 1461 * spans
    decreases spans
  {
    if spans > 0 {
      FourYears(from);
      FourYearSpans(from + 4, spans - 1);
      MoreYears(from, 4, 4 * (spans - 1));
    }
  }

  /** Thirty years with seven leap days: 1972 to 1996. */
  lemma DaysTo2000()
    ensures Days(1970, 30) == 10957
  {
    FourYearSpans(1970, 7);
    MoreYears(1970, 28, 2);
    var y := 1998;
    assert Days(y + 1, 1) == DaysOf(y + 1) + Days(y + 2, 0);
    assert Days(y, 2) == DaysOf(y) + Days(y + 1, 1);
  }

  lemma KdbEpochSeconds()
    ensures KdbEpoch() == 946684800 * 1_000_000_000
  {
    DaysTo2000();
  }
}
