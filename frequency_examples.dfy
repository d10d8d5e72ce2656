/**
 * The recurrence cases of abide/test_frequency_script.rb, stated as lemmas
 * about the model: which dates of 2023 each rule matches, and the next
 * occurrence it reports. Each case is proved in two steps: what the factory
 * builds, and what a rule with those fields does.
 */
module FrequencyExamples {
  import opened Wrappers
  import opened Calendar
  import opened Frequencies

  /** "Monthly on the 3rd": the 3rd of each month and no other day. */
  lemma MonthlyOnThe3rd()
    ensures var f := Monthly(One(Num(3))).value;
      Includes(f, Ymd(2023, 1, 3)) && Includes(f, Ymd(2023, 2, 3)) && !Includes(f, Ymd(2023, 1, 4))
  {
  }

  /** "Monthly on the 3rd": next after 2023-01-05 is 2023-02-03. */
  lemma MonthlyOnThe3rdNext()
    ensures NextOccurrenceOf(Monthly(One(Num(3))).value, Ymd(2023, 1, 5)) == Some(Ymd(2023, 2, 3))
  {
    var f := Monthly(One(Num(3))).value;
    var after: Date, next: Date := Ymd(2023, 1, 5), Ymd(2023, 2, 3);
    forall x: Date | Before(after, x) && Before(x, next) ensures !Includes(f, x) {
      CalendarOrder(after, x);
      CalendarOrder(x, next);
    }
    FirstMatchIsNextOccurrence(f, after, next);
  }

  /** "Monthly on the second Wednesday": 2023-01-11, not 2023-01-04. */
  lemma MonthlyOnTheSecondWednesday()
    ensures var f := Monthly(One(Name("wednesday")), nth := Some(2)).value;
      Includes(f, Ymd(2023, 1, 11)) && !Includes(f, Ymd(2023, 1, 4))
  {
    NamedWeekday("wednesday", 3);
    SecondWednesdayMatches(Monthly(One(Name("wednesday")), nth := Some(2)).value, Name("wednesday"));
  }

  lemma SecondWednesdayMatches(f: Frequency, w: Item)
    requires f.period == Month && f.nth == Some(2) && f.on == Some([w]) && WeekdayOf(w) == Some(3)
    ensures Includes(f, Ymd(2023, 1, 11)) && !Includes(f, Ymd(2023, 1, 4))
  {
    SecondWednesdayOfJanuary(f, w, Ymd(2023, 1, 11));
    NotSecondWednesday(f, w, Ymd(2023, 1, 4));
  }

  /** "Monthly on the second Wednesday": next after 2023-01-01 is 2023-01-11. */
  lemma MonthlyOnTheSecondWednesdayNext()
    ensures NextOccurrenceOf(Monthly(One(Name("wednesday")), nth := Some(2)).value, Ymd(2023, 1, 1)) ==
            Some(Ymd(2023, 1, 11))
  {
    NamedWeekday("wednesday", 3);
    SecondWednesdayNext(Monthly(One(Name("wednesday")), nth := Some(2)).value, Name("wednesday"));
  }

  lemma SecondWednesdayNext(f: Frequency, w: Item)
    requires f.period == Month && f.nth == Some(2) && f.on == Some([w]) && WeekdayOf(w) == Some(3)
    ensures NextOccurrenceOf(f, Ymd(2023, 1, 1)) == Some(Ymd(2023, 1, 11))
  {
    var after: Date, next: Date := Ymd(2023, 1, 1), Ymd(2023, 1, 11);
    forall x: Date | Before(after, x) && Before(x, next) ensures !Includes(f, x) {
      CalendarOrder(after, x);
      CalendarOrder(x, next);
      NotSecondWednesday(f, w, x);
    }
    SecondWednesdayOfJanuary(f, w, next);
    FirstMatchIsNextOccurrence(f, after, next);
  }

  lemma NotSecondWednesday(f: Frequency, w: Item, x: Date)
    requires f.period == Month && f.nth == Some(2) && f.on == Some([w]) && WeekdayOf(w) == Some(3)
    requires x.year == 2023 && x.month == 1 && x.day < 11
    ensures !Includes(f, x)
  {
    JanuaryWeekday(x);
    NthRule(f, x);
  }

  lemma SecondWednesdayOfJanuary(f: Frequency, w: Item, x: Date)
    requires f.period == Month && f.nth == Some(2) && f.on == Some([w]) && WeekdayOf(w) == Some(3)
    requires x == Ymd(2023, 1, 11)
    ensures Includes(f, x)
  {
    JanuaryWeekday(x);
    NthRule(f, x);
  }

  /** 2023 began on a Sunday. */
  lemma JanuaryWeekday(d: Date)
    requires d.year == 2023 && d.month == 1
    ensures Weekday(d) == (d.day - 1) % 7
  {
    WeekdayInMonth(d);
    NewYear2023();
  }

  lemma NewYear2023()
    ensures Weekday(Ymd(2023, 1, 1)) == 0
  {
    assert Jd(Ymd(2023, 1, 1)) == 2459946;
  }

  /** "Weekly on Tuesday": 2023-01-03 and 2023-01-10, not 2023-01-04. */
  lemma WeeklyOnTuesday()
    ensures var f := Weekly(One(Name("tuesday"))).value;
      Includes(f, Ymd(2023, 1, 3)) && Includes(f, Ymd(2023, 1, 10)) && !Includes(f, Ymd(2023, 1, 4))
  {
    NamedWeekday("tuesday", 2);
    Tuesdays(Weekly(One(Name("tuesday"))).value, Name("tuesday"));
  }

  lemma Tuesdays(f: Frequency, w: Item)
    requires f.period == Week && f.on == Some([w]) && WeekdayOf(w) == Some(2)
    ensures Includes(f, Ymd(2023, 1, 3)) && Includes(f, Ymd(2023, 1, 10)) && !Includes(f, Ymd(2023, 1, 4))
  {
    TuesdayInJanuary(f, w, Ymd(2023, 1, 3));
    TuesdayInJanuary(f, w, Ymd(2023, 1, 10));
    TuesdayInJanuary(f, w, Ymd(2023, 1, 4));
  }

  /** A rule "weekly on Tuesday" matches a day of January 2023 exactly when it falls on day 3, 10, 17, ... */
  lemma TuesdayInJanuary(f: Frequency, w: Item, d: Date)
    requires f.period == Week && f.on == Some([w]) && WeekdayOf(w) == Some(2)
    requires d.year == 2023 && d.month == 1
    ensures Includes(f, d) <==> (d.day - 1) % 7 == 2
  {
    JanuaryWeekday(d);
    WeekRuleMatches(f, d);
    assert WeekdayOf(f.on.value[0]) == Some(2);
  }

  /** "Twice a month on the 5th and 20th": the 5th and 20th match, the 6th does not. */
  lemma MonthlyOnThe5thAnd20th()
    ensures var f := Monthly(Many([Num(5), Num(20)])).value;
      Includes(f, Ymd(2023, 1, 5)) && Includes(f, Ymd(2023, 1, 20)) && !Includes(f, Ymd(2023, 1, 6))
  {
  }

  /** "Twice a month on the 5th and 20th": next after 2023-01-06 is 2023-01-20. */
  lemma MonthlyOnThe5thAnd20thNext()
    ensures NextOccurrenceOf(Monthly(Many([Num(5), Num(20)])).value, Ymd(2023, 1, 6)) == Some(Ymd(2023, 1, 20))
  {
    var f := Monthly(Many([Num(5), Num(20)])).value;
    var after: Date, next: Date := Ymd(2023, 1, 6), Ymd(2023, 1, 20);
    forall x: Date | Before(after, x) && Before(x, next) ensures !Includes(f, x) {
      CalendarOrder(after, x);
      CalendarOrder(x, next);
    }
    FirstMatchIsNextOccurrence(f, after, next);
  }

  /** "Quarterly on the 1st": with the default months, January and April match, February does not. */
  lemma QuarterlyOnThe1st(f: Frequency)
    requires Quarterly(One(Num(1))) == Ok(f)
    ensures Matchable(f)
    ensures Includes(f, Ymd(2023, 1, 1)) && Includes(f, Ymd(2023, 4, 1)) && !Includes(f, Ymd(2023, 2, 1))
  {
    QuarterlyDefaultMonths(One(Num(1)));
    QuarterFirsts(f);
  }

  lemma QuarterFirsts(f: Frequency)
    requires f.period == Year && f.nth.None? && f.on == Some([Num(1)]) && f.months == Some([1, 4, 7, 10])
    ensures Includes(f, Ymd(2023, 1, 1)) && Includes(f, Ymd(2023, 4, 1)) && !Includes(f, Ymd(2023, 2, 1))
  {
  }

  /** "Quarterly on the 1st": next after 2023-01-01 is 2023-04-01. */
  lemma QuarterlyOnThe1stNext(f: Frequency)
    requires Quarterly(One(Num(1))) == Ok(f)
    ensures Matchable(f)
    ensures NextOccurrenceOf(f, Ymd(2023, 1, 1)) == Some(Ymd(2023, 4, 1))
  {
    QuarterlyDefaultMonths(One(Num(1)));
    QuarterFirstsNext(f);
  }

  lemma QuarterFirstsNext(f: Frequency)
    requires f.period == Year && f.nth.None? && f.on == Some([Num(1)]) && f.months == Some([1, 4, 7, 10])
    ensures NextOccurrenceOf(f, Ymd(2023, 1, 1)) == Some(Ymd(2023, 4, 1))
  {
    var after: Date, next: Date := Ymd(2023, 1, 1), Ymd(2023, 4, 1);
    forall x: Date | Before(after, x) && Before(x, next) ensures !Includes(f, x) {
      CalendarOrder(after, x);
      CalendarOrder(x, next);
      DayOfMonthRule(f, x);
    }
    FirstMatchIsNextOccurrence(f, after, next);
  }

  const Jan3: Date := Ymd(2023, 1, 3)
  const Jun3: Date := Ymd(2023, 6, 3)
  const Jul3: Date := Ymd(2023, 7, 3)

  /** "Twice a year on the 3rd of January and July": those two days match, 2023-06-03 does not. */
  lemma YearlyOnThe3rdOfJanuaryAndJuly(f: Frequency)
    requires Yearly(One(Num(3)), Many([Name("jan"), Name("jul")])) == Ok(f)
    ensures Matchable(f)
    ensures Includes(f, Jan3) && Includes(f, Jul3) && !Includes(f, Jun3)
  {
    JanuaryAndJulyMonths();
    assert f.on == AsArray(One(Num(3))) == Some([Num(3)]);
    assert f.months == Some([1, 7]);
    JanuaryAndJuly(f);
  }

  lemma JanuaryAndJuly(f: Frequency)
    requires f.period == Year && f.nth.None? && f.on == Some([Num(3)]) && f.months == Some([1, 7])
    ensures Includes(f, Jan3) && Includes(f, Jul3) && !Includes(f, Jun3)
  {
  }

  /** "Twice a year on the 3rd of January and July": next after 2023-01-05 is 2023-07-03. */
  lemma YearlyOnThe3rdOfJanuaryAndJulyNext()
    ensures NextOccurrenceOf(Yearly(One(Num(3)), Many([Name("jan"), Name("jul")])).value, Ymd(2023, 1, 5)) ==
            Some(Ymd(2023, 7, 3))
  {
    JanuaryAndJulyMonths();
    JanuaryAndJulyNext(Yearly(One(Num(3)), Many([Name("jan"), Name("jul")])).value);
  }

  lemma JanuaryAndJulyMonths()
    ensures NormalizeMonths(Many([Name("jan"), Name("jul")])) == Some([1, 7])
  {
    NamedMonth("jan", 1);
    NamedMonth("jul", 7);
    TwoMonthNumbers(Name("jan"), Name("jul"), 1, 7);
    SortedMonthsNormalize(Many([Name("jan"), Name("jul")]), [1, 7]);
  }

  lemma TwoMonthNumbers(a: Item, b: Item, ma: int, mb: int)
    requires MonthOf(a) == Some(ma) && MonthOf(b) == Some(mb)
    ensures MonthNumbers([a, b]) == [ma, mb]
  {
    MonthNumbersCons(b, [], mb);
    assert [b] == [b] + [];
    MonthNumbersCons(a, [b], ma);
    assert [a, b] == [a] + [b];
  }

  lemma JanuaryAndJulyNext(f: Frequency)
    requires f.period == Year && f.nth.None? && f.on == Some([Num(3)]) && f.months == Some([1, 7])
    ensures NextOccurrenceOf(f, Ymd(2023, 1, 5)) == Some(Ymd(2023, 7, 3))
  {
    var after: Date, next: Date := Ymd(2023, 1, 5), Ymd(2023, 7, 3);
    forall x: Date | Before(after, x) && Before(x, next) ensures !Includes(f, x) {
      CalendarOrder(after, x);
      CalendarOrder(x, next);
      DayOfMonthRule(f, x);
    }
    FirstMatchIsNextOccurrence(f, after, next);
  }
}
