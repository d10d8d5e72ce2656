/**
 * The windowed expansion loop shared by `RecurringFlow#projection_between`
 * and `RecurringMovement#projection_between`: intersect the queried range
 * with the rule's active window, seed a cursor the day before the window
 * opens, and follow `next_occurrence` until it runs out or leaves the window.
 * This module states which dates that loop visits; the two rule modules turn
 * each date into a Flow or a Movement.
 */
module Windows {
  import opened Wrappers
  import opened Calendar
  import opened Frequencies

  /** `[range_start, @start_date].max` */
  function EffectiveStart(rangeStart: Date, startDate: Date): (r: Date)
    ensures AtOrBefore(rangeStart, r) && AtOrBefore(startDate, r)
    ensures r == rangeStart || r == startDate
  {
    Latest(rangeStart, startDate)
  }

  /** `range_end`, capped by `@end_date` when there is one. */
  function EffectiveEnd(rangeEnd: Date, endDate: Option<Date>): (r: Date)
    ensures AtOrBefore(r, rangeEnd) && (endDate.Some? ==> AtOrBefore(r, endDate.value))
    ensures r == rangeEnd || endDate == Some(r)
  {
    if endDate.Some? then Earliest(rangeEnd, endDate.value) else rangeEnd
  }

  /** A date lies in the closed window `[es, ee]`. */
  predicate InWindow(d: Date, es: Date, ee: Date) {
    AtOrBefore(es, d) && AtOrBefore(d, ee)
  }

  /** The dates are in strictly increasing order. */
  predicate StrictlyIncreasing(s: seq<Date>) {
    forall i, j :: 0 <= i < j < |s| ==> Before(s[i], s[j])
  }

  /**
   * The dates the loop appends once its cursor stands at `head`: the next
   * occurrence after the cursor, kept when it is not before `es`, until
   * there is none or it lies after `ee`.
   */
  function Occurrences(f: Frequency, head: Date, es: Date, ee: Date): (r: seq<Date>)
    requires Matchable(f)
    ensures forall d :: d in r ==> Before(head, d) && InWindow(d, es, ee) && Includes(f, d)
    ensures StrictlyIncreasing(r)
    decreases Jd(ee) - Jd(head)
  {
    match NextOccurrenceOf(f, head)
    case None => []
    case Some(next) =>
      if Before(ee, next) then []
      else if AtOrBefore(es, next) then
        var rest := Occurrences(f, next, es, ee);
        KeptInFront(f, head, next, es, ee, rest);
        [next] + rest
      else Occurrences(f, next, es, ee)
  }

  /** A kept date in front of the later occurrences keeps the walk in the window and increasing. */
  lemma KeptInFront(f: Frequency, head: Date, next: Date, es: Date, ee: Date, rest: seq<Date>)
    requires Matchable(f) && Before(head, next) && InWindow(next, es, ee) && Includes(f, next)
    requires forall d :: d in rest ==> Before(next, d) && InWindow(d, es, ee) && Includes(f, d)
    requires StrictlyIncreasing(rest)
    ensures forall d :: d in [next] + rest ==> Before(head, d) && InWindow(d, es, ee) && Includes(f, d)
    ensures StrictlyIncreasing([next] + rest)
  {
    forall i, j | 0 <= i < j < |[next] + rest| ensures Before(([next] + rest)[i], ([next] + rest)[j]) {
      if i == 0 {
        assert rest[j - 1] in rest;
      }
    }
  }

  /** The dates `projection_between(rangeStart, rangeEnd)` materialises for a rule. */
  function Expansion(f: Frequency, startDate: Date, endDate: Option<Date>,
                     rangeStart: Date, rangeEnd: Date): (r: seq<Date>)
    requires Matchable(f)
    ensures Before(EffectiveEnd(rangeEnd, endDate), EffectiveStart(rangeStart, startDate)) ==> r == []
    ensures forall d :: d in r ==>
              InWindow(d, EffectiveStart(rangeStart, startDate), EffectiveEnd(rangeEnd, endDate)) &&
              Includes(f, d)
    ensures StrictlyIncreasing(r)
  {
    var es := EffectiveStart(rangeStart, startDate);
    var ee := EffectiveEnd(rangeEnd, endDate);
    if Before(ee, es) then [] else Occurrences(f, PrevDay(es), es, ee)
  }

  /** The window really is the intersection of the range with the rule's active period. */
  lemma EffectiveWindow(startDate: Date, endDate: Option<Date>, rangeStart: Date, rangeEnd: Date, d: Date)
    ensures InWindow(d, EffectiveStart(rangeStart, startDate), EffectiveEnd(rangeEnd, endDate)) <==>
              AtOrBefore(rangeStart, d) && AtOrBefore(startDate, d) && AtOrBefore(d, rangeEnd) &&
              (endDate.Some? ==> AtOrBefore(d, endDate.value))
  {
  }

  /** One step of the loop: the cursor moves to the next occurrence, which is kept when in the window. */
  lemma OccurrencesStep(f: Frequency, head: Date, es: Date, ee: Date, next: Date)
    requires Matchable(f) && NextOccurrenceOf(f, head) == Some(next) && AtOrBefore(next, ee)
    ensures Occurrences(f, head, es, ee) ==
              (if AtOrBefore(es, next) then [next] else []) + Occurrences(f, next, es, ee)
  {
  }

  /** The loop stops when there is no next occurrence or it lies after the window. */
  lemma OccurrencesStop(f: Frequency, head: Date, es: Date, ee: Date)
    requires Matchable(f)
    requires NextOccurrenceOf(f, head).None? || Before(ee, NextOccurrenceOf(f, head).value)
    ensures Occurrences(f, head, es, ee) == []
  {
  }

  /**
   * A matching date of the window that lies after the cursor and within the
   * scan bound of `next_occurrence` from it is visited.
   */
  lemma {:induction false} OccurrencesComplete(f: Frequency, head: Date, es: Date, ee: Date, x: Date)
    requires Matchable(f) && Includes(f, x)
    requires Before(head, x) && InWindow(x, es, ee)
    requires f.period != Once ==> Jd(x) <= Jd(head) + ScanBound
    ensures x in Occurrences(f, head, es, ee)
    decreases Jd(ee) - Jd(head)
  {
    NextOccurrenceIsFirst(f, head);
    var r := NextOccurrenceOf(f, head);
    if r.None? {
      assert false;
    }
    var next := r.value;
    assert AtOrBefore(next, x);
    OccurrencesStep(f, head, es, ee, next);
    if Before(next, x) {
      OccurrencesComplete(f, next, es, ee, x);
    } else {
      JdInjective(next, x);
    }
  }

  /**
   * Once a date has been visited, every matching date of the window that
   * follows it within the scan bound is visited too.
   */
  lemma {:induction false} OccurrencesCompleteAfter(f: Frequency, head: Date, es: Date, ee: Date, y: Date, x: Date)
    requires Matchable(f) && Includes(f, x)
    requires y in Occurrences(f, head, es, ee)
    requires Before(y, x) && AtOrBefore(x, ee)
    requires f.period != Once ==> Jd(x) <= Jd(y) + ScanBound
    ensures x in Occurrences(f, head, es, ee)
    decreases Jd(ee) - Jd(head)
  {
    var r := NextOccurrenceOf(f, head);
    if r.None? || Before(ee, r.value) {
      assert false;
    }
    var next := r.value;
    OccurrencesStep(f, head, es, ee, next);
    if AtOrBefore(es, next) && y == next {
      OccurrencesComplete(f, next, es, ee, x);
    } else {
      OccurrencesCompleteAfter(f, next, es, ee, y, x);
    }
  }

  /**
   * Every matching date of the window is materialised, provided it lies
   * within the scan bound of the day before the window or of an earlier
   * materialised date.
   */
  lemma ExpansionComplete(f: Frequency, startDate: Date, endDate: Option<Date>,
                          rangeStart: Date, rangeEnd: Date, x: Date)
    requires Matchable(f) && Includes(f, x)
    requires InWindow(x, EffectiveStart(rangeStart, startDate), EffectiveEnd(rangeEnd, endDate))
    requires f.period != Once ==>
               Jd(x) < Jd(EffectiveStart(rangeStart, startDate)) + ScanBound ||
               exists y :: y in Expansion(f, startDate, endDate, rangeStart, rangeEnd) &&
                           Before(y, x) && Jd(x) <= Jd(y) + ScanBound
    ensures x in Expansion(f, startDate, endDate, rangeStart, rangeEnd)
  {
    var es := EffectiveStart(rangeStart, startDate);
    var ee := EffectiveEnd(rangeEnd, endDate);
    if f.period != Once && Jd(x) >= Jd(es) + ScanBound {
      var y :| y in Expansion(f, startDate, endDate, rangeStart, rangeEnd) && Before(y, x) && Jd(x) <= Jd(y) + ScanBound;
      OccurrencesCompleteAfter(f, PrevDay(es), es, ee, y, x);
    } else {
      OccurrencesComplete(f, PrevDay(es), es, ee, x);
    }
  }

  /** A `once` rule materialises at most one date, and only its own. */
  lemma OnceExpandsToAtMostOne(f: Frequency, startDate: Date, endDate: Option<Date>,
                               rangeStart: Date, rangeEnd: Date)
    requires Matchable(f) && f.period == Once
    ensures var r := Expansion(f, startDate, endDate, rangeStart, rangeEnd);
      |r| <= 1 && forall d :: d in r ==> f.on.value[0] == At(d)
  {
    var r := Expansion(f, startDate, endDate, rangeStart, rangeEnd);
    if |r| > 1 {
      assert At(r[0]) == At(r[1]) by {
        assert r[0] in r && r[1] in r;
      }
      assert false;
    }
  }
}
