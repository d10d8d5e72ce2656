/**
 * `RecurringFlow`: a frequency rule that predicts Flows of a fixed unsigned
 * amount between two accounts, over the rule's active period.
 */
module RecurringFlows {
  import opened Wrappers
  import opened Calendar
  import opened Values
  import opened Frequencies
  import opened Windows
  import Flows

  datatype RecurringFlow = RecurringFlow(frequency: Frequency, baseAmount: nat, description: string,
                                         startDate: Date, endDate: Option<Date>,
                                         sourceId: AccountId, destinationId: AccountId)

  /** `RecurringFlow.new(...)`: the base amount is kept as a magnitude. */
  function New(frequency: Frequency, baseAmount: int, description: string, startDate: Date,
               sourceId: AccountId, destinationId: AccountId, endDate: Option<Date> := None): (r: RecurringFlow)
    ensures r.baseAmount >= 0 && (r.baseAmount == baseAmount || r.baseAmount == -baseAmount)
    ensures r.frequency == frequency && r.description == description && r.startDate == startDate
    ensures r.endDate == endDate && r.sourceId == sourceId && r.destinationId == destinationId
  {
    RecurringFlow(frequency, Abs(baseAmount), description, startDate, endDate, sourceId, destinationId)
  }

  /** The Flow the loop appends for an occurrence date. */
  function FlowOn(rule: RecurringFlow, date: Date): (r: Flows.Flow)
    ensures r.date == date && r.amount == rule.baseAmount && r.description == rule.description
    ensures r.sourceId == rule.sourceId && r.destinationId == rule.destinationId
    ensures r.id.None? && r.taxInfo == map[]
  {
    Flows.New(amount := rule.baseAmount, date := date, description := rule.description,
              sourceId := rule.sourceId, destinationId := rule.destinationId)
  }

  /** The Flows for a list of occurrence dates, in the same order. */
  function FlowsOn(rule: RecurringFlow, dates: seq<Date>): (r: seq<Flows.Flow>)
    ensures |r| == |dates|
    ensures forall i :: 0 <= i < |r| ==>
              r[i].date == dates[i] && r[i].amount == rule.baseAmount && r[i].id.None? &&
              r[i].description == rule.description && r[i].taxInfo == map[] &&
              r[i].sourceId == rule.sourceId && r[i].destinationId == rule.destinationId
  {
    if dates == [] then [] else [FlowOn(rule, dates[0])] + FlowsOn(rule, dates[1..])
  }

  lemma FlowsOnAppend(rule: RecurringFlow, a: seq<Date>, b: seq<Date>)
    ensures FlowsOn(rule, a + b) == FlowsOn(rule, a) + FlowsOn(rule, b)
  {
  }

  /** A pass of the loop that keeps `next`: the collected Flows plus those still to come are unchanged. */
  lemma AdvanceKept(rule: RecurringFlow, results: seq<Flows.Flow>, head: Date, es: Date, ee: Date, next: Date)
    requires Matchable(rule.frequency)
    requires NextOccurrenceOf(rule.frequency, head) == Some(next) && InWindow(next, es, ee)
    ensures results + FlowsOn(rule, Occurrences(rule.frequency, head, es, ee)) ==
              (results + [FlowOn(rule, next)]) + FlowsOn(rule, Occurrences(rule.frequency, next, es, ee))
  {
    var rest := Occurrences(rule.frequency, next, es, ee);
    OccurrencesStep(rule.frequency, head, es, ee, next);
    assert Occurrences(rule.frequency, head, es, ee) == [next] + rest;
    FlowsOnAppend(rule, [next], rest);
    assert FlowsOn(rule, [next]) == [FlowOn(rule, next)];
  }

  /** A pass of the loop that skips `next`, which lies before the window. */
  lemma AdvanceSkipped(rule: RecurringFlow, results: seq<Flows.Flow>, head: Date, es: Date, ee: Date, next: Date)
    requires Matchable(rule.frequency)
    requires NextOccurrenceOf(rule.frequency, head) == Some(next) && Before(next, es) && AtOrBefore(next, ee)
    ensures results + FlowsOn(rule, Occurrences(rule.frequency, head, es, ee)) ==
              results + FlowsOn(rule, Occurrences(rule.frequency, next, es, ee))
  {
    OccurrencesStep(rule.frequency, head, es, ee, next);
  }

  /**
   * `projection_between(range_start, range_end)`: follows `next_occurrence`
   * from the day before the effective window and collects a Flow for every
   * occurrence inside it.
   */
  method ProjectionBetween(rule: RecurringFlow, rangeStart: Date, rangeEnd: Date) returns (results: seq<Flows.Flow>)
    requires Matchable(rule.frequency)
    ensures results == FlowsOn(rule, Expansion(rule.frequency, rule.startDate, rule.endDate, rangeStart, rangeEnd))
  {
    var f := rule.frequency;
    var effectiveStart := Latest(rangeStart, rule.startDate);
    var effectiveEnd := rangeEnd;
    if rule.endDate.Some? {
      effectiveEnd := Earliest(effectiveEnd, rule.endDate.value);
    }
    if Before(effectiveEnd, effectiveStart) {
      return [];
    }
    results := [];
    var searchHead := PrevDay(effectiveStart);
    ghost var all := Occurrences(f, searchHead, effectiveStart, effectiveEnd);
    assert all == Expansion(f, rule.startDate, rule.endDate, rangeStart, rangeEnd);
    while true
      invariant Jd(searchHead) <= Jd(effectiveEnd)
      invariant results + FlowsOn(rule, Occurrences(f, searchHead, effectiveStart, effectiveEnd)) == FlowsOn(rule, all)
      decreases Jd(effectiveEnd) - Jd(searchHead)
    {
      var nextDate := NextOccurrence(f, searchHead);
      if nextDate.None? || Before(effectiveEnd, nextDate.value) {
        OccurrencesStop(f, searchHead, effectiveStart, effectiveEnd);
        break;
      }
      var next := nextDate.value;
      if AtOrBefore(effectiveStart, next) {
        AdvanceKept(rule, results, searchHead, effectiveStart, effectiveEnd, next);
        results := results + [FlowOn(rule, next)];
      } else {
        AdvanceSkipped(rule, results, searchHead, effectiveStart, effectiveEnd, next);
      }
      searchHead := next;
    }
  }

  /**
   * What the projection promises: nothing when the window is empty; otherwise
   * one Flow per date, in strictly increasing date order, each date inside the
   * effective window and matched by the rule, each Flow carrying the rule's
   * amount, description and accounts and no id.
   */
  lemma ProjectionFacts(rule: RecurringFlow, rangeStart: Date, rangeEnd: Date)
    requires Matchable(rule.frequency)
    ensures var es := EffectiveStart(rangeStart, rule.startDate);
      var ee := EffectiveEnd(rangeEnd, rule.endDate);
      var r := FlowsOn(rule, Expansion(rule.frequency, rule.startDate, rule.endDate, rangeStart, rangeEnd));
      (Before(ee, es) ==> r == []) &&
      (forall i :: 0 <= i < |r| ==>
         InWindow(r[i].date, es, ee) && Includes(rule.frequency, r[i].date) &&
         r[i].amount == rule.baseAmount && r[i].description == rule.description && r[i].id.None? &&
         r[i].sourceId == rule.sourceId && r[i].destinationId == rule.destinationId) &&
      (forall i, j :: 0 <= i < j < |r| ==> Before(r[i].date, r[j].date))
  {
    var dates := Expansion(rule.frequency, rule.startDate, rule.endDate, rangeStart, rangeEnd);
    var r := FlowsOn(rule, dates);
    forall i | 0 <= i < |r|
      ensures InWindow(r[i].date, EffectiveStart(rangeStart, rule.startDate), EffectiveEnd(rangeEnd, rule.endDate))
      ensures Includes(rule.frequency, r[i].date)
    {
      assert dates[i] in dates;
    }
  }
}
