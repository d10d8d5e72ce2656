/**
 * `RecurringMovement`: a frequency rule that predicts Movements of a fixed,
 * signed amount over the rule's active period.
 */
module RecurringMovements {
  import opened Wrappers
  import opened Calendar
  import opened Frequencies
  import opened Windows
  import Movements

  datatype RecurringMovement = RecurringMovement(frequency: Frequency, baseAmount: int, description: string,
                                                 startDate: Date, endDate: Option<Date>)

  /** The Movement the loop appends for an occurrence date. */
  function MovementOn(rule: RecurringMovement, date: Date): (r: Movements.Movement)
    ensures r.date == date && r.amount == rule.baseAmount && r.description == rule.description
    ensures r.id.None? && r.taxInfo == map[]
    ensures r.kind == "income" <==> rule.baseAmount >= 0
    ensures r.kind == "expense" <==> rule.baseAmount < 0
  {
    Movements.New(amount := rule.baseAmount, date := date, description := rule.description)
  }

  /** The Movements for a list of occurrence dates, in the same order. */
  function MovementsOn(rule: RecurringMovement, dates: seq<Date>): (r: seq<Movements.Movement>)
    ensures |r| == |dates|
    ensures forall i :: 0 <= i < |r| ==>
              r[i].date == dates[i] && r[i].amount == rule.baseAmount && r[i].id.None? &&
              r[i].description == rule.description && r[i].taxInfo == map[] &&
              (r[i].kind == "income" <==> rule.baseAmount >= 0) &&
              (r[i].kind == "expense" <==> rule.baseAmount < 0)
  {
    if dates == [] then [] else [MovementOn(rule, dates[0])] + MovementsOn(rule, dates[1..])
  }

  lemma MovementsOnAppend(rule: RecurringMovement, a: seq<Date>, b: seq<Date>)
    ensures MovementsOn(rule, a + b) == MovementsOn(rule, a) + MovementsOn(rule, b)
  {
  }

  /** A pass of the loop that keeps `next`: the collected Movements plus those still to come are unchanged. */
  lemma AdvanceKept(rule: RecurringMovement, results: seq<Movements.Movement>, head: Date, es: Date, ee: Date, next: Date)
    requires Matchable(rule.frequency)
    requires NextOccurrenceOf(rule.frequency, head) == Some(next) && InWindow(next, es, ee)
    ensures results + MovementsOn(rule, Occurrences(rule.frequency, head, es, ee)) ==
              (results + [MovementOn(rule, next)]) + MovementsOn(rule, Occurrences(rule.frequency, next, es, ee))
  {
    var rest := Occurrences(rule.frequency, next, es, ee);
    OccurrencesStep(rule.frequency, head, es, ee, next);
    assert Occurrences(rule.frequency, head, es, ee) == [next] + rest;
    MovementsOnAppend(rule, [next], rest);
    assert MovementsOn(rule, [next]) == [MovementOn(rule, next)];
  }

  /** A pass of the loop that skips `next`, which lies before the window. */
  lemma AdvanceSkipped(rule: RecurringMovement, results: seq<Movements.Movement>, head: Date, es: Date, ee: Date, next: Date)
    requires Matchable(rule.frequency)
    requires NextOccurrenceOf(rule.frequency, head) == Some(next) && Before(next, es) && AtOrBefore(next, ee)
    ensures results + MovementsOn(rule, Occurrences(rule.frequency, head, es, ee)) ==
              results + MovementsOn(rule, Occurrences(rule.frequency, next, es, ee))
  {
    OccurrencesStep(rule.frequency, head, es, ee, next);
  }

  /**
   * `projection_between(range_start, range_end)`: the same loop as for a
   * RecurringFlow, producing signed Movements.
   */
  method ProjectionBetween(rule: RecurringMovement, rangeStart: Date, rangeEnd: Date)
    returns (results: seq<Movements.Movement>)
    requires Matchable(rule.frequency)
    ensures results ==
              MovementsOn(rule, Expansion(rule.frequency, rule.startDate, rule.endDate, rangeStart, rangeEnd))
  {
    var f := rule.frequency;
    var effectiveStart := Latest(rangeStart, rule.startDate);
    var effectiveEnd := rangeEnd;
    if rule.endDate.Some? {
      effectiveEnd := Earliest(effectiveEnd, rule.endDate.value);
    }
    if Before(effectiveEnd, effectiveStart) {
      return [];
    }
    results := [];
    var searchHead := PrevDay(effectiveStart);
    ghost var all := Occurrences(f, searchHead, effectiveStart, effectiveEnd);
    assert all == Expansion(f, rule.startDate, rule.endDate, rangeStart, rangeEnd);
    while true
      invariant Jd(searchHead) <= Jd(effectiveEnd)
      invariant results + MovementsOn(rule, Occurrences(f, searchHead, effectiveStart, effectiveEnd)) == MovementsOn(rule, all)
      decreases Jd(effectiveEnd) - Jd(searchHead)
    {
      var nextDate := NextOccurrence(f, searchHead);
      if nextDate.None? || Before(effectiveEnd, nextDate.value) {
        OccurrencesStop(f, searchHead, effectiveStart, effectiveEnd);
        break;
      }
      var next := nextDate.value;
      if AtOrBefore(effectiveStart, next) {
        AdvanceKept(rule, results, searchHead, effectiveStart, effectiveEnd, next);
        results := results + [MovementOn(rule, next)];
      } else {
        AdvanceSkipped(rule, results, searchHead, effectiveStart, effectiveEnd, next);
      }
      searchHead := next;
    }
  }

  /**
   * What the projection promises: nothing when the window is empty; otherwise
   * dates strictly increasing, inside the effective window and matched by the
   * rule, and every Movement carrying the rule's signed amount and description.
   */
  lemma ProjectionFacts(rule: RecurringMovement, rangeStart: Date, rangeEnd: Date)
    requires Matchable(rule.frequency)
    ensures var es := EffectiveStart(rangeStart, rule.startDate);
      var ee := EffectiveEnd(rangeEnd, rule.endDate);
      var r := MovementsOn(rule, Expansion(rule.frequency, rule.startDate, rule.endDate, rangeStart, rangeEnd));
      (Before(ee, es) ==> r == []) &&
      (forall i :: 0 <= i < |r| ==>
         InWindow(r[i].date, es, ee) && Includes(rule.frequency, r[i].date) &&
         r[i].amount == rule.baseAmount && r[i].description == rule.description) &&
      (forall i, j :: 0 <= i < j < |r| ==> Before(r[i].date, r[j].date))
  {
    var dates := Expansion(rule.frequency, rule.startDate, rule.endDate, rangeStart, rangeEnd);
    var r := MovementsOn(rule, dates);
    forall i | 0 <= i < |r|
      ensures InWindow(r[i].date, EffectiveStart(rangeStart, rule.startDate), EffectiveEnd(rangeEnd, rule.endDate))
      ensures Includes(rule.frequency, r[i].date)
    {
      assert dates[i] in dates;
    }
  }
}
