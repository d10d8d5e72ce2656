/**
 * The scenarios of abide/test_projection_script.rb, stated as lemmas: a
 * three-month window from 2024-01-01, and what three signed rules (rent on
 * the 1st, a one-off roof repair, a gym membership that ends on 2024-03-01)
 * materialise over it.
 */
module ProjectionExamples {
  import opened Wrappers
  import opened Calendar
  import opened Frequencies
  import opened Windows
  import opened RecurringMovements
  import Projections

  /** Three months from 2024-01-01 end on 2024-03-31. */
  lemma ThreeMonthWindow()
    ensures Projections.WindowEnd(Jan1, 3) == Mar31
  {
    WindowEndBefore(Jan1, 3, Apr1);
    assert PrevDay(Apr1) == Mar31;
  }

  /** The window ends the day before the date `n` months after its start. */
  lemma WindowEndBefore(start: Date, n: int, shifted: Date)
    requires ShiftMonths(start, n) == shifted
    ensures Projections.WindowEnd(start, n) == PrevDay(shifted)
  {
  }

  /**
   * For a rule on day `k` of every month, the next occurrence after a date on
   * or after the `k`th of its month is the `k`th of the following month.
   */
  lemma MonthlyStep(f: Frequency, k: int, after: Date, next: Date)
    requires f.period == Month && f.nth.None? && f.on == Some([Num(k)])
    requires next.day == k && after.day >= k
    requires after.year * 12 + after.month + 1 == next.year * 12 + next.month
    requires Jd(next) <= Jd(after) + ScanBound
    ensures NextOccurrenceOf(f, after) == Some(next)
  {
    CalendarOrder(after, next);
    forall x: Date | Before(after, x) && Before(x, next) ensures !Includes(f, x) {
      CalendarOrder(after, x);
      CalendarOrder(x, next);
      DayOfMonthRule(f, x);
    }
    DayOfMonthRule(f, next);
    FirstMatchIsNextOccurrence(f, after, next);
  }

  const Rent := RecurringMovement(Monthly(One(Num(1))).value, -500, "Rent", Ymd(2023, 1, 1), None)
  const Repair := RecurringMovement(OnceOn(One(At(Ymd(2024, 2, 15)))).value, -200, "Roof Repair",
                                    Ymd(2024, 1, 1), None)
  const Gym := RecurringMovement(Monthly(One(Num(5))).value, -50, "Gym", Ymd(2024, 1, 1), Some(Ymd(2024, 3, 1)))

  /** Rent, started in 2023, falls on the 1st of January, February and March 2024. */
  lemma RentDates()
    ensures Matchable(Rent.frequency)
    ensures Expansion(Rent.frequency, Rent.startDate, Rent.endDate, Jan1, Mar31) == [Jan1, Feb1, Mar1]
  {
    assert PrevDay(Jan1) == Dec31;
    FirstsOfTheQuarter(Rent.frequency);
  }

  /** The rent rule moves from the 1st of one month to the 1st of the next. */
  lemma RentStepIntoJanuary(f: Frequency)
    requires f.period == Month && f.nth.None? && f.on == Some([Num(1)])
    ensures NextOccurrenceOf(f, Dec31) == Some(Jan1)
  {
    MonthlyStep(f, 1, Dec31, Jan1);
  }

  lemma RentStepIntoFebruary(f: Frequency)
    requires f.period == Month && f.nth.None? && f.on == Some([Num(1)])
    ensures NextOccurrenceOf(f, Jan1) == Some(Feb1)
  {
    MonthlyStep(f, 1, Jan1, Feb1);
  }

  lemma RentStepIntoMarch(f: Frequency)
    requires f.period == Month && f.nth.None? && f.on == Some([Num(1)])
    ensures NextOccurrenceOf(f, Feb1) == Some(Mar1)
  {
    MonthlyStep(f, 1, Feb1, Mar1);
  }

  lemma RentStepIntoApril(f: Frequency)
    requires f.period == Month && f.nth.None? && f.on == Some([Num(1)])
    ensures NextOccurrenceOf(f, Mar1) == Some(Apr1)
  {
    MonthlyStep(f, 1, Mar1, Apr1);
  }

  /** A step of the walk whose date lies in the window is kept in front of the rest of the walk. */
  lemma KeptStep(f: Frequency, head: Date, es: Date, ee: Date, next: Date, tail: seq<Date>)
    requires Matchable(f) && NextOccurrenceOf(f, head) == Some(next)
    requires InWindow(next, es, ee) && Occurrences(f, next, es, ee) == tail
    ensures Occurrences(f, head, es, ee) == [next] + tail
  {
    OccurrencesStep(f, head, es, ee, next);
  }

  /** The last step of a walk: `next` is kept, and the occurrence after it lies beyond the window. */
  lemma KeptLast(f: Frequency, head: Date, es: Date, ee: Date, next: Date, beyond: Date)
    requires Matchable(f) && NextOccurrenceOf(f, head) == Some(next) && InWindow(next, es, ee)
    requires NextOccurrenceOf(f, next) == Some(beyond) && Before(ee, beyond)
    ensures Occurrences(f, head, es, ee) == [next]
  {
    OccurrencesStop(f, next, es, ee);
    OccurrencesStep(f, head, es, ee, next);
  }

  /** The days the rent walk passes through, and the last day of the window. */
  const Dec31: Date := Ymd(2023, 12, 31)
  const Jan1: Date := Ymd(2024, 1, 1)
  const Feb1: Date := Ymd(2024, 2, 1)
  const Mar1: Date := Ymd(2024, 3, 1)
  const Mar31: Date := Ymd(2024, 3, 31)
  const Apr1: Date := Ymd(2024, 4, 1)

  /** The firsts of January to March 2024 lie in the window, and the first of April after it. */
  lemma JanuaryInQuarter()
    ensures InWindow(Jan1, Jan1, Mar31)
  {
    CalendarOrder(Jan1, Mar31);
  }

  lemma FebruaryInQuarter()
    ensures InWindow(Feb1, Jan1, Mar31)
  {
    CalendarOrder(Jan1, Feb1);
    CalendarOrder(Feb1, Mar31);
  }

  lemma MarchInQuarter()
    ensures InWindow(Mar1, Jan1, Mar31) && Before(Mar31, Apr1)
  {
    CalendarOrder(Jan1, Mar1);
    CalendarOrder(Mar1, Mar31);
    CalendarOrder(Mar31, Apr1);
  }

  /** The walk over the first quarter of 2024 from its first day of February. */
  lemma FirstsFromFebruary(f: Frequency)
    requires f.period == Month && f.nth.None? && f.on == Some([Num(1)])
    ensures Occurrences(f, Feb1, Jan1, Mar31) == [Mar1]
  {
    MarchInQuarter();
    RentStepIntoMarch(f);
    RentStepIntoApril(f);
    KeptLast(f, Feb1, Jan1, Mar31, Mar1, Apr1);
  }

  /** The same walk from its first day. */
  lemma FirstsFromJanuary(f: Frequency)
    requires f.period == Month && f.nth.None? && f.on == Some([Num(1)])
    ensures Occurrences(f, Jan1, Jan1, Mar31) == [Feb1, Mar1]
  {
    FebruaryInQuarter();
    RentStepIntoFebruary(f);
    FirstsFromFebruary(f);
    KeptStep(f, Jan1, Jan1, Mar31, Feb1, [Mar1]);
  }

  lemma FirstsOfTheQuarter(f: Frequency)
    requires f.period == Month && f.nth.None? && f.on == Some([Num(1)])
    ensures Occurrences(f, Dec31, Jan1, Mar31) == [Jan1, Feb1, Mar1]
  {
    JanuaryInQuarter();
    RentStepIntoJanuary(f);
    FirstsFromJanuary(f);
    KeptStep(f, Dec31, Jan1, Mar31, Jan1, [Feb1, Mar1]);
  }

  /** The roof repair happens once, on 2024-02-15. */
  lemma RepairDates()
    ensures Matchable(Repair.frequency)
    ensures Expansion(Repair.frequency, Repair.startDate, Repair.endDate, Ymd(2024, 1, 1), Ymd(2024, 3, 31)) ==
              [Ymd(2024, 2, 15)]
  {
    var f := Repair.frequency;
    var es: Date, ee: Date := Ymd(2024, 1, 1), Ymd(2024, 3, 31);
    var d0: Date, d1: Date := Ymd(2023, 12, 31), Ymd(2024, 2, 15);
    OnceRule(d1, d1, d0);
    OnceRule(d1, d1, d1);
    OccurrencesStop(f, d1, es, ee);
    OccurrencesStep(f, d0, es, ee, d1);
    assert PrevDay(es) == d0;
  }

  /** The gym membership ends on 2024-03-01, so only January 5 and February 5 remain. */
  lemma GymDates()
    ensures Matchable(Gym.frequency)
    ensures Expansion(Gym.frequency, Gym.startDate, Gym.endDate, Jan1, Mar31) == [Jan5, Feb5]
  {
    assert EffectiveEnd(Mar31, Gym.endDate) == Mar1;
    assert PrevDay(Jan1) == Dec31;
    FifthsUntilMarch(Gym.frequency);
  }

  /** The gym rule moves from the 5th of one month to the 5th of the next. */
  lemma GymStepIntoJanuary(f: Frequency)
    requires f.period == Month && f.nth.None? && f.on == Some([Num(5)])
    ensures NextOccurrenceOf(f, Dec31) == Some(Jan5)
  {
    MonthlyStep(f, 5, Dec31, Jan5);
  }

  lemma GymStepIntoFebruary(f: Frequency)
    requires f.period == Month && f.nth.None? && f.on == Some([Num(5)])
    ensures NextOccurrenceOf(f, Jan5) == Some(Feb5)
  {
    MonthlyStep(f, 5, Jan5, Feb5);
  }

  lemma GymStepIntoMarch(f: Frequency)
    requires f.period == Month && f.nth.None? && f.on == Some([Num(5)])
    ensures NextOccurrenceOf(f, Feb5) == Some(Mar5)
  {
    MonthlyStep(f, 5, Feb5, Mar5);
  }

  /** The days the gym walk passes through. */
  const Jan5: Date := Ymd(2024, 1, 5)
  const Feb5: Date := Ymd(2024, 2, 5)
  const Mar5: Date := Ymd(2024, 3, 5)

  /** The fifths of January and February 2024 lie in the gym's window, and March 5 after it. */
  lemma JanuaryFifthBeforeMarch()
    ensures InWindow(Jan5, Jan1, Mar1)
  {
    CalendarOrder(Jan1, Jan5);
    CalendarOrder(Jan5, Mar1);
  }

  lemma FebruaryFifthBeforeMarch()
    ensures InWindow(Feb5, Jan1, Mar1) && Before(Mar1, Mar5)
  {
    CalendarOrder(Jan1, Feb5);
    CalendarOrder(Feb5, Mar1);
    CalendarOrder(Mar1, Mar5);
  }

  /** The gym's walk from its first visit of 2024. */
  lemma FifthsFromJanuary(f: Frequency)
    requires f.period == Month && f.nth.None? && f.on == Some([Num(5)])
    ensures Occurrences(f, Jan5, Jan1, Mar1) == [Feb5]
  {
    FebruaryFifthBeforeMarch();
    GymStepIntoFebruary(f);
    GymStepIntoMarch(f);
    KeptLast(f, Jan5, Jan1, Mar1, Feb5, Mar5);
  }

  lemma FifthsUntilMarch(f: Frequency)
    requires f.period == Month && f.nth.None? && f.on == Some([Num(5)])
    ensures Occurrences(f, Dec31, Jan1, Mar1) == [Jan5, Feb5]
  {
    JanuaryFifthBeforeMarch();
    GymStepIntoJanuary(f);
    FifthsFromJanuary(f);
    KeptStep(f, Dec31, Jan1, Mar1, Jan5, [Feb5]);
  }

  /** Each rent movement carries the signed amount and is an expense. */
  lemma RentMovements()
    ensures Matchable(Rent.frequency)
    ensures var r := MovementsOn(Rent, Expansion(Rent.frequency, Rent.startDate, Rent.endDate,
                                                 Jan1, Mar31));
      |r| == 3 && forall i :: 0 <= i < 3 ==> r[i].amount == -500 && r[i].kind == "expense" && r[i].description == "Rent"
  {
    RentDates();
  }
}
