/**
 * `Projection`: expands every recurring flow over the projection window,
 * orders the predicted flows by date and walks them into a running-balance
 * timeline for a group of tracked accounts (a portfolio).
 */
module Projections {
  import opened Wrappers
  import opened Calendar
  import opened Values
  import opened Frequencies
  import opened Windows
  import opened Flows
  import RecurringFlows

  /** `ledger.balance(id)`: the ledger's current balance of each account. */
  type Ledger = AccountId -> int

  /** One timeline row: `{date:, amount:, balance:, description:, type:}`. */
  datatype Entry = Entry(date: Date, amount: int, balance: int, description: string, kind: FlowType)

  datatype Projection = Projection(ledger: Ledger, recurringFlows: seq<RecurringFlows.RecurringFlow>,
                                   accountIds: seq<AccountId>, startDate: Date, startBalance: int)

  /** `account_ids.sum { |id| ledger.balance(id) }` */
  function SumBalances(ledger: Ledger, ids: seq<AccountId>): int {
    if ids == [] then 0 else ledger(ids[0]) + SumBalances(ledger, ids[1..])
  }

  /** The count of `id` in `ids`. */
  function Count(ids: seq<AccountId>, id: AccountId): nat {
    if ids == [] then 0 else (if ids[0] == id then 1 else 0) + Count(ids[1..], id)
  }

  /**
   * `Projection.new(ledger:, recurring_flows:, account_ids: [1], start_date:)`:
   * the start balance is taken from the ledger once, here.
   */
  function New(ledger: Ledger, recurringFlows: seq<RecurringFlows.RecurringFlow>, startDate: Date,
               accountIds: seq<AccountId> := [1]): (p: Projection)
    ensures p.recurringFlows == recurringFlows && p.accountIds == accountIds && p.startDate == startDate
    ensures p.startBalance == SumBalances(ledger, accountIds)
  {
    Projection(ledger, recurringFlows, accountIds, startDate, SumBalances(ledger, accountIds))
  }

  lemma {:induction false} SumBalancesAppend(ledger: Ledger, a: seq<AccountId>, b: seq<AccountId>)
    ensures SumBalances(ledger, a + b) == SumBalances(ledger, a) + SumBalances(ledger, b)
  {
    if a == [] {
      assert a + b == b;
    } else {
      assert (a + b)[1..] == a[1..] + b;
      SumBalancesAppend(ledger, a[1..], b);
    }
  }

  /** The default portfolio is account 1 alone; a portfolio's balance is the sum of its parts. */
  lemma StartBalanceOfPortfolio(ledger: Ledger, rules: seq<RecurringFlows.RecurringFlow>, startDate: Date,
                                a: seq<AccountId>, b: seq<AccountId>)
    ensures New(ledger, rules, startDate).startBalance == ledger(1)
    ensures New(ledger, rules, startDate, a + b).startBalance ==
              New(ledger, rules, startDate, a).startBalance + New(ledger, rules, startDate, b).startBalance
  {
    SumBalancesAppend(ledger, a, b);
  }

  /** `(start_date >> period_in_months) - 1` */
  function WindowEnd(startDate: Date, periodInMonths: int): (r: Date)
    ensures NextDay(r) == ShiftMonths(startDate, periodInMonths)
    ensures r.year * 12 + r.month == startDate.year * 12 + startDate.month + periodInMonths ||
            (r.year * 12 + r.month == startDate.year * 12 + startDate.month + periodInMonths - 1 &&
             r.day == DaysInMonth(r.year, r.month))
  {
    var shifted := ShiftMonths(startDate, periodInMonths);
    var r := PrevDay(shifted);
    assert shifted.day == 1 ==>
             r.day == DaysInMonth(r.year, r.month) &&
             r.year * 12 + r.month == shifted.year * 12 + shifted.month - 1 by {
      if shifted.day == 1 && shifted.month == 1 {
        assert r == Ymd(shifted.year - 1, 12, 31);
      }
    }
    r
  }

  /** `@account_ids.sum { |id| flow.value_for(id) }`: the flow's net effect on the portfolio. */
  function Impact(ids: seq<AccountId>, flow: Flow): int {
    if ids == [] then 0 else ValueFor(flow, ids[0]) + Impact(ids[1..], flow)
  }

  /**
   * The impact counts how often the source and the destination occur among
   * the tracked accounts: each source debits the amount, each destination
   * (other than the source) credits it.
   */
  lemma {:induction false} ImpactCounts(ids: seq<AccountId>, flow: Flow)
    ensures Impact(ids, flow) ==
              (if flow.sourceId == flow.destinationId then 0 else flow.amount * Count(ids, flow.destinationId)) -
              flow.amount * Count(ids, flow.sourceId)
  {
    if ids != [] {
      ImpactCounts(ids[1..], flow);
      var a: int := flow.amount;
      var src, dst := flow.sourceId, flow.destinationId;
      var s0: int := if ids[0] == src then 1 else 0;
      var d0: int := if ids[0] == dst then 1 else 0;
      var sr: int := Count(ids[1..], src);
      var dr: int := Count(ids[1..], dst);
      assert a * (s0 + sr) == a * s0 + a * sr;
      assert a * (d0 + dr) == a * d0 + a * dr;
    }
  }

  /** A flow between two different tracked accounts, each tracked once, nets to zero. */
  lemma InternalTransferHasNoImpact(ids: seq<AccountId>, flow: Flow)
    requires flow.sourceId != flow.destinationId
    requires Count(ids, flow.sourceId) == 1 && Count(ids, flow.destinationId) == 1
    ensures Impact(ids, flow) == 0
  {
    ImpactCounts(ids, flow);
  }

  /** A flow out of a tracked account to an untracked one reduces the portfolio by its amount, and conversely. */
  lemma ExternalFlowImpact(ids: seq<AccountId>, flow: Flow)
    requires flow.sourceId != flow.destinationId
    ensures Count(ids, flow.sourceId) == 1 && Count(ids, flow.destinationId) == 0 ==>
              Impact(ids, flow) == -(flow.amount as int)
    ensures Count(ids, flow.sourceId) == 0 && Count(ids, flow.destinationId) == 1 ==>
              Impact(ids, flow) == flow.amount
  {
    ImpactCounts(ids, flow);
  }

  /** The type of a non-zero impact: `:inflow` when positive, `:outflow` when negative. */
  function Classify(impact: int): (t: FlowType)
    ensures t == Inflow <==> impact > 0
    ensures t == Outflow <==> impact < 0
  {
    if impact > 0 then Inflow else if impact < 0 then Outflow else Neutral
  }

  /**
   * The timeline the walk builds from a running balance: flows with zero
   * impact are skipped, every other flow adds its impact to the balance and
   * records the new balance.
   */
  function Walk(balance: int, ids: seq<AccountId>, flows: seq<Flow>): (r: seq<Entry>)
    ensures forall e :: e in r ==>
              e.amount != 0 && e.kind != Neutral &&
              (e.kind == Inflow <==> e.amount > 0) && (e.kind == Outflow <==> e.amount < 0)
    decreases |flows|
  {
    if flows == [] then []
    else
      var flow := flows[0];
      var impact := Impact(ids, flow);
      if impact == 0 then Walk(balance, ids, flows[1..])
      else [Entry(flow.date, impact, balance + impact, flow.description, Classify(impact))] +
           Walk(balance + impact, ids, flows[1..])
  }

  /** One pass of the walk loop: the recorded entries plus those still to come stay the same. */
  lemma WalkStep(timeline: seq<Entry>, balance: int, ids: seq<AccountId>, flows: seq<Flow>, i: int)
    requires 0 <= i < |flows|
    ensures var impact := Impact(ids, flows[i]);
      timeline + Walk(balance, ids, flows[i..]) ==
        if impact == 0 then timeline + Walk(balance, ids, flows[i + 1..])
        else (timeline + [Entry(flows[i].date, impact, balance + impact, flows[i].description, Classify(impact))]) +
             Walk(balance + impact, ids, flows[i + 1..])
  {
    assert flows[i..][1..] == flows[i + 1..];
  }

  /** Every entry records the date, description and impact of one of the walked flows. */
  lemma {:induction false} WalkEntriesFromFlows(balance: int, ids: seq<AccountId>, flows: seq<Flow>)
    ensures forall e :: e in Walk(balance, ids, flows) ==>
              exists k :: 0 <= k < |flows| && e.date == flows[k].date &&
                          e.description == flows[k].description && e.amount == Impact(ids, flows[k])
    decreases |flows|
  {
    if flows != [] {
      var impact := Impact(ids, flows[0]);
      var b' := if impact == 0 then balance else balance + impact;
      WalkEntriesFromFlows(b', ids, flows[1..]);
      forall e | e in Walk(balance, ids, flows)
        ensures exists k :: 0 <= k < |flows| && e.date == flows[k].date &&
                  e.description == flows[k].description && e.amount == Impact(ids, flows[k])
      {
        if e in Walk(b', ids, flows[1..]) {
          var k :| 0 <= k < |flows[1..]| && e.date == flows[1..][k].date &&
                   e.description == flows[1..][k].description && e.amount == Impact(ids, flows[1..][k]);
          assert flows[1..][k] == flows[k + 1];
        } else {
          assert e.date == flows[0].date;
        }
      }
    }
  }

  /** The flows the walk records, in their order: those whose impact is not zero. */
  function NonZero(ids: seq<AccountId>, flows: seq<Flow>): (r: seq<Flow>)
    ensures |r| <= |flows|
    ensures forall fl :: multiset(r)[fl] == if Impact(ids, fl) == 0 then 0 else multiset(flows)[fl]
  {
    if flows == [] then []
    else
      assert flows == [flows[0]] + flows[1..];
      if Impact(ids, flows[0]) == 0 then NonZero(ids, flows[1..])
      else [flows[0]] + NonZero(ids, flows[1..])
  }

  /** Entry `j` of the timeline carries the date, description and impact of flow `j`, for every `j`. */
  predicate EntriesFollow(timeline: seq<Entry>, ids: seq<AccountId>, flows: seq<Flow>) {
    |timeline| == |flows| &&
    forall j :: 0 <= j < |timeline| ==>
      timeline[j].date == flows[j].date && timeline[j].description == flows[j].description &&
      timeline[j].amount == Impact(ids, flows[j])
  }

  lemma EntriesFollowCons(e: Entry, rest: seq<Entry>, ids: seq<AccountId>, fl: Flow, kept: seq<Flow>)
    requires EntriesFollow(rest, ids, kept)
    requires e.date == fl.date && e.description == fl.description && e.amount == Impact(ids, fl)
    ensures EntriesFollow([e] + rest, ids, [fl] + kept)
  {
    forall j | 0 < j < |[e] + rest|
      ensures ([e] + rest)[j].date == ([fl] + kept)[j].date &&
              ([e] + rest)[j].description == ([fl] + kept)[j].description &&
              ([e] + rest)[j].amount == Impact(ids, ([fl] + kept)[j])
    {
      assert ([e] + rest)[j] == rest[j - 1];
      assert ([fl] + kept)[j] == kept[j - 1];
    }
  }

  /**
   * The walk records exactly one entry per flow with non-zero impact, in
   * flow order: entry `j` carries the date, description and impact of the
   * `j`-th such flow.
   */
  lemma {:induction false} WalkFollowsNonZero(balance: int, ids: seq<AccountId>, flows: seq<Flow>)
    ensures EntriesFollow(Walk(balance, ids, flows), ids, NonZero(ids, flows))
    decreases |flows|
  {
    if flows != [] {
      var impact := Impact(ids, flows[0]);
      if impact == 0 {
        WalkFollowsNonZero(balance, ids, flows[1..]);
      } else {
        WalkFollowsNonZero(balance + impact, ids, flows[1..]);
        var rest := Walk(balance + impact, ids, flows[1..]);
        var e := Entry(flows[0].date, impact, balance + impact, flows[0].description, Classify(impact));
        assert Walk(balance, ids, flows) == [e] + rest;
        EntriesFollowCons(e, rest, ids, flows[0], NonZero(ids, flows[1..]));
      }
    }
  }

  /** The sum of the impacts of a list of flows. */
  function SumImpacts(ids: seq<AccountId>, flows: seq<Flow>): int {
    if flows == [] then 0 else Impact(ids, flows[0]) + SumImpacts(ids, flows[1..])
  }

  /** The balance after the walk: the last entry's, or the starting one when nothing was recorded. */
  function FinalBalance(balance: int, timeline: seq<Entry>): int {
    if timeline == [] then balance else timeline[|timeline| - 1].balance
  }

  /**
   * The balance column is a running sum: the first entry adds its amount to
   * the starting balance and every later one to the entry before it; the
   * final balance is the starting one plus the impacts of all flows, skipped
   * ones included (they add zero).
   */
  lemma {:induction false} WalkBalances(balance: int, ids: seq<AccountId>, flows: seq<Flow>)
    ensures var r := Walk(balance, ids, flows);
      (r != [] ==> r[0].balance == balance + r[0].amount) &&
      (forall i :: 0 < i < |r| ==> r[i].balance == r[i - 1].balance + r[i].amount) &&
      FinalBalance(balance, r) == balance + SumImpacts(ids, flows)
    decreases |flows|
  {
    if flows != [] {
      var flow := flows[0];
      var impact := Impact(ids, flow);
      assert SumImpacts(ids, flows) == impact + SumImpacts(ids, flows[1..]);
      if impact == 0 {
        WalkBalances(balance, ids, flows[1..]);
        assert Walk(balance, ids, flows) == Walk(balance, ids, flows[1..]);
      } else {
        WalkBalances(balance + impact, ids, flows[1..]);
        var rest := Walk(balance + impact, ids, flows[1..]);
        var e := Entry(flow.date, impact, balance + impact, flow.description, Classify(impact));
        assert Walk(balance, ids, flows) == [e] + rest;
        RunningSumCons(balance, e, rest);
      }
    }
  }

  /** An entry in front of a running sum that starts from its balance extends the running sum. */
  lemma RunningSumCons(balance: int, e: Entry, rest: seq<Entry>)
    requires rest != [] ==> rest[0].balance == e.balance + rest[0].amount
    requires forall i :: 0 < i < |rest| ==> rest[i].balance == rest[i - 1].balance + rest[i].amount
    ensures forall i :: 0 < i < |[e] + rest| ==> ([e] + rest)[i].balance == ([e] + rest)[i - 1].balance + ([e] + rest)[i].amount
    ensures FinalBalance(balance, [e] + rest) == FinalBalance(e.balance, rest)
  {
    var r := [e] + rest;
    assert r[|r| - 1] == if rest == [] then e else rest[|rest| - 1];
    forall i | 0 < i < |r| ensures r[i].balance == r[i - 1].balance + r[i].amount {
      assert r[i] == rest[i - 1];
      if i > 1 {
        assert r[i - 1] == rest[i - 2];
      }
    }
  }

  /** The flows are in date order (later flows never come before earlier ones). */
  predicate SortedByDate(flows: seq<Flow>) {
    forall i, j :: 0 <= i < j < |flows| ==> AtOrBefore(flows[i].date, flows[j].date)
  }

  /** The tail of a date-ordered list is date-ordered and starts no earlier than the head. */
  lemma SortedTail(flows: seq<Flow>)
    requires flows != [] && SortedByDate(flows)
    ensures SortedByDate(flows[1..])
    ensures forall k :: 0 <= k < |flows[1..]| ==> AtOrBefore(flows[0].date, flows[1..][k].date)
  {
    forall k | 0 <= k < |flows[1..]| ensures AtOrBefore(flows[0].date, flows[1..][k].date) {
      assert flows[1..][k] == flows[k + 1];
    }
  }

  /** No entry is dated before a date that no walked flow is dated before. */
  lemma {:induction false} WalkNotBefore(balance: int, ids: seq<AccountId>, flows: seq<Flow>, d: Date)
    requires forall k :: 0 <= k < |flows| ==> AtOrBefore(d, flows[k].date)
    ensures forall e :: e in Walk(balance, ids, flows) ==> AtOrBefore(d, e.date)
    decreases |flows|
  {
    if flows != [] {
      var impact := Impact(ids, flows[0]);
      assert forall k :: 0 <= k < |flows[1..]| ==> flows[1..][k] == flows[k + 1];
      if impact == 0 {
        WalkNotBefore(balance, ids, flows[1..], d);
      } else {
        WalkNotBefore(balance + impact, ids, flows[1..], d);
      }
    }
  }

  /** The entries are in date order. */
  predicate EntriesByDate(r: seq<Entry>) {
    forall i, j :: 0 <= i < j < |r| ==> AtOrBefore(r[i].date, r[j].date)
  }

  /** Walking flows in date order yields entries in date order. */
  lemma {:induction false} WalkKeepsDateOrder(balance: int, ids: seq<AccountId>, flows: seq<Flow>)
    requires SortedByDate(flows)
    ensures EntriesByDate(Walk(balance, ids, flows))
    decreases |flows|
  {
    if flows != [] {
      var flow := flows[0];
      var impact := Impact(ids, flow);
      SortedTail(flows);
      if impact == 0 {
        WalkKeepsDateOrder(balance, ids, flows[1..]);
      } else {
        WalkKeepsDateOrder(balance + impact, ids, flows[1..]);
        WalkNotBefore(balance + impact, ids, flows[1..], flow.date);
        var rest := Walk(balance + impact, ids, flows[1..]);
        var e := Entry(flow.date, impact, balance + impact, flow.description, Classify(impact));
        assert Walk(balance, ids, flows) == [e] + rest;
        EntriesByDateCons(e, rest);
      }
    }
  }

  /** An entry dated no later than any entry of a date-ordered timeline keeps it date-ordered in front. */
  lemma EntriesByDateCons(e: Entry, rest: seq<Entry>)
    requires EntriesByDate(rest) && forall x :: x in rest ==> AtOrBefore(e.date, x.date)
    ensures EntriesByDate([e] + rest)
  {
    var r := [e] + rest;
    forall i, j | 0 <= i < j < |r| ensures AtOrBefore(r[i].date, r[j].date) {
      assert r[j] == rest[j - 1];
      if i == 0 {
        assert r[j] in rest;
      } else {
        assert r[i] == rest[i - 1];
      }
    }
  }

  /** A flow with zero impact, such as a transfer inside the portfolio, leaves no trace in the timeline. */
  lemma SkipsZeroImpact(balance: int, ids: seq<AccountId>, flow: Flow, rest: seq<Flow>)
    requires Impact(ids, flow) == 0
    ensures Walk(balance, ids, [flow] + rest) == Walk(balance, ids, rest)
  {
    assert ([flow] + rest)[1..] == rest;
  }

  lemma {:induction false} SumImpactsAppend(ids: seq<AccountId>, a: seq<Flow>, b: seq<Flow>)
    ensures SumImpacts(ids, a + b) == SumImpacts(ids, a) + SumImpacts(ids, b)
  {
    if a == [] {
      assert a + b == b;
    } else {
      assert (a + b)[1..] == a[1..] + b;
      SumImpactsAppend(ids, a[1..], b);
    }
  }

  /** Taking one flow out of a list takes its impact out of the total. */
  lemma SumImpactsRemove(ids: seq<AccountId>, b: seq<Flow>, k: int)
    requires 0 <= k < |b|
    ensures SumImpacts(ids, b) == Impact(ids, b[k]) + SumImpacts(ids, b[..k] + b[k + 1..])
  {
    assert b == b[..k] + ([b[k]] + b[k + 1..]);
    SumImpactsAppend(ids, b[..k], [b[k]] + b[k + 1..]);
    assert ([b[k]] + b[k + 1..])[1..] == b[k + 1..];
    SumImpactsAppend(ids, b[..k], b[k + 1..]);
  }

  /** The total impact does not depend on the order of the flows. */
  lemma {:induction false} SumImpactsPermutation(ids: seq<AccountId>, a: seq<Flow>, b: seq<Flow>)
    requires multiset(a) == multiset(b)
    ensures SumImpacts(ids, a) == SumImpacts(ids, b)
    decreases |a|
  {
    if a == [] {
      assert |b| == |multiset(b)| == 0;
    } else {
      var x := a[0];
      assert x in multiset(b);
      var k :| 0 <= k < |b| && b[k] == x;
      var rest := b[..k] + b[k + 1..];
      assert b == b[..k] + [x] + b[k + 1..];
      assert a == [x] + a[1..];
      assert multiset(a[1..]) == multiset(rest) by {
        assert multiset(a) == multiset{x} + multiset(a[1..]);
        assert multiset(b) == multiset(b[..k]) + multiset{x} + multiset(b[k + 1..]);
        assert multiset(rest) == multiset(b[..k]) + multiset(b[k + 1..]);
        assert multiset(a[1..]) == multiset(a) - multiset{x};
        assert multiset(rest) == multiset(b) - multiset{x};
      }
      SumImpactsPermutation(ids, a[1..], rest);
      SumImpactsRemove(ids, b, k);
    }
  }

  /** Inserts a flow before the first flow that is not earlier than it. */
  function InsertByDate(x: Flow, s: seq<Flow>): (r: seq<Flow>)
    requires SortedByDate(s)
    ensures SortedByDate(r)
    ensures multiset(r) == multiset(s) + multiset{x}
  {
    if s == [] || !Before(s[0].date, x.date) then [x] + s
    else
      SortedTail(s);
      var rest := InsertByDate(x, s[1..]);
      assert s == [s[0]] + s[1..];
      HeadBeforeInserted(s[0], x, s[1..], rest);
      SortedByDateCons(s[0], rest);
      [s[0]] + rest
  }

  /** A flow dated before `x` and no later than every flow of `tail` is no later than any of them with `x` added. */
  lemma HeadBeforeInserted(a: Flow, x: Flow, tail: seq<Flow>, rest: seq<Flow>)
    requires Before(a.date, x.date) && forall k :: 0 <= k < |tail| ==> AtOrBefore(a.date, tail[k].date)
    requires multiset(rest) == multiset(tail) + multiset{x}
    ensures forall i :: 0 <= i < |rest| ==> AtOrBefore(a.date, rest[i].date)
  {
    forall i | 0 <= i < |rest| ensures AtOrBefore(a.date, rest[i].date) {
      assert rest[i] in multiset(rest);
      if rest[i] != x {
        assert rest[i] in multiset(tail);
        var k :| 0 <= k < |tail| && tail[k] == rest[i];
      }
    }
  }

  lemma SortedByDateCons(a: Flow, s: seq<Flow>)
    requires SortedByDate(s) && forall i :: 0 <= i < |s| ==> AtOrBefore(a.date, s[i].date)
    ensures SortedByDate([a] + s)
  {
  }

  /**
   * `sort_by(&:date)`, with flows of the same date kept in their gathered
   * order (an insertion sort): a date-ordered permutation of its input.
   */
  function SortByDate(flows: seq<Flow>): (r: seq<Flow>)
    ensures SortedByDate(r)
    ensures multiset(r) == multiset(flows)
  {
    if flows == [] then []
    else
      assert flows == [flows[0]] + flows[1..];
      InsertByDate(flows[0], SortByDate(flows[1..]))
  }

  /** Every rule of the projection can be matched against dates. */
  predicate RulesMatchable(rules: seq<RecurringFlows.RecurringFlow>) {
    forall i :: 0 <= i < |rules| ==> Matchable(rules[i].frequency)
  }

  /** Every flow is dated inside the window. */
  predicate AllInWindow(flows: seq<Flow>, startDate: Date, endDate: Date) {
    forall fl :: fl in flows ==> InWindow(fl.date, startDate, endDate)
  }

  /** `recurring_flows.flat_map { |rule| rule.projection_between(start, end) }` */
  function Gathered(rules: seq<RecurringFlows.RecurringFlow>, startDate: Date, endDate: Date): (r: seq<Flow>)
    requires RulesMatchable(rules)
    ensures AllInWindow(r, startDate, endDate)
  {
    if rules == [] then []
    else
      var last := rules[|rules| - 1];
      var mine := RecurringFlows.FlowsOn(last,
        Expansion(last.frequency, last.startDate, last.endDate, startDate, endDate));
      RecurringFlows.ProjectionFacts(last, startDate, endDate);
      assert AllInWindow(mine, startDate, endDate) by {
        forall fl | fl in mine ensures InWindow(fl.date, startDate, endDate) {
          var k :| 0 <= k < |mine| && mine[k] == fl;
        }
      }
      Gathered(rules[..|rules| - 1], startDate, endDate) + mine
  }

  /** The flows `build` walks, in order. */
  function Candidates(p: Projection, periodInMonths: int): (r: seq<Flow>)
    requires RulesMatchable(p.recurringFlows)
    ensures SortedByDate(r)
    ensures multiset(r) == multiset(Gathered(p.recurringFlows, p.startDate, WindowEnd(p.startDate, periodInMonths)))
  {
    SortByDate(Gathered(p.recurringFlows, p.startDate, WindowEnd(p.startDate, periodInMonths)))
  }

  /** Gathering one more rule appends that rule's flows. */
  lemma GatheredStep(rules: seq<RecurringFlows.RecurringFlow>, i: int, startDate: Date, endDate: Date)
    requires RulesMatchable(rules) && 0 <= i < |rules|
    ensures RulesMatchable(rules[..i]) && RulesMatchable(rules[..i + 1])
    ensures Gathered(rules[..i + 1], startDate, endDate) ==
              Gathered(rules[..i], startDate, endDate) +
              RecurringFlows.FlowsOn(rules[i],
                Expansion(rules[i].frequency, rules[i].startDate, rules[i].endDate, startDate, endDate))
  {
    assert rules[..i + 1][..i] == rules[..i];
  }

  /**
   * `build(period_in_months: 12)`: gathers every rule's flows over the window,
   * sorts them by date and walks them from the start balance.
   */
  method Build(p: Projection, periodInMonths: int := 12) returns (timeline: seq<Entry>)
    requires RulesMatchable(p.recurringFlows)
    ensures timeline == Walk(p.startBalance, p.accountIds, Candidates(p, periodInMonths))
  {
    var endDate := PrevDay(ShiftMonths(p.startDate, periodInMonths));
    assert endDate == WindowEnd(p.startDate, periodInMonths);
    var rules := p.recurringFlows;
    var gathered: seq<Flow> := [];
    for i := 0 to |rules|
      invariant gathered == Gathered(rules[..i], p.startDate, endDate)
    {
      var flows := RecurringFlows.ProjectionBetween(rules[i], p.startDate, endDate);
      GatheredStep(rules, i, p.startDate, endDate);
      gathered := gathered + flows;
    }
    assert rules[..|rules|] == rules;
    var allFutureFlows := SortByDate(gathered);
    timeline := RunningBalance(p.startBalance, p.accountIds, allFutureFlows);
  }

  /**
   * The second half of `build`: walks the date-ordered flows, skipping those
   * with zero impact and recording the running balance after each other one.
   */
  method RunningBalance(startBalance: int, ids: seq<AccountId>, allFutureFlows: seq<Flow>)
    returns (timeline: seq<Entry>)
    ensures timeline == Walk(startBalance, ids, allFutureFlows)
  {
    var runningBalance := startBalance;
    timeline := [];
    for i := 0 to |allFutureFlows|
      invariant timeline + Walk(runningBalance, ids, allFutureFlows[i..]) == Walk(startBalance, ids, allFutureFlows)
    {
      var flow := allFutureFlows[i];
      var impact := Impact(ids, flow);
      WalkStep(timeline, runningBalance, ids, allFutureFlows, i);
      if impact == 0 {
        continue;
      }
      runningBalance := runningBalance + impact;
      var kind := Neutral;
      if impact > 0 {
        kind := Inflow;
      } else if impact < 0 {
        kind := Outflow;
      }
      timeline := timeline + [Entry(flow.date, impact, runningBalance, flow.description, kind)];
    }
  }

  /** Every entry has a non-zero amount and is an inflow exactly when it is positive, an outflow exactly when negative. */
  lemma BuildClassifiesEntries(p: Projection, periodInMonths: int)
    requires RulesMatchable(p.recurringFlows)
    ensures var r := Walk(p.startBalance, p.accountIds, Candidates(p, periodInMonths));
      forall i :: 0 <= i < |r| ==>
        r[i].amount != 0 && r[i].kind != Neutral &&
        (r[i].kind == Inflow <==> r[i].amount > 0) && (r[i].kind == Outflow <==> r[i].amount < 0)
  {
    var r := Walk(p.startBalance, p.accountIds, Candidates(p, periodInMonths));
    forall i | 0 <= i < |r|
      ensures r[i].amount != 0 && r[i].kind != Neutral
      ensures (r[i].kind == Inflow <==> r[i].amount > 0) && (r[i].kind == Outflow <==> r[i].amount < 0)
    {
      assert r[i] in r;
    }
  }

  /**
   * The balances are a running sum from the start balance, and the last one
   * is the start balance plus the total impact of all gathered flows, in
   * whatever order the rules produced them.
   */
  lemma BuildBalances(p: Projection, periodInMonths: int)
    requires RulesMatchable(p.recurringFlows)
    ensures var r := Walk(p.startBalance, p.accountIds, Candidates(p, periodInMonths));
      (r != [] ==> r[0].balance == p.startBalance + r[0].amount) &&
      (forall i :: 0 < i < |r| ==> r[i].balance == r[i - 1].balance + r[i].amount) &&
      FinalBalance(p.startBalance, r) == p.startBalance +
        SumImpacts(p.accountIds, Gathered(p.recurringFlows, p.startDate, WindowEnd(p.startDate, periodInMonths)))
  {
    var gathered := Gathered(p.recurringFlows, p.startDate, WindowEnd(p.startDate, periodInMonths));
    WalkBalances(p.startBalance, p.accountIds, Candidates(p, periodInMonths));
    SumImpactsPermutation(p.accountIds, Candidates(p, periodInMonths), gathered);
  }

  /** The entries are in date order and dated inside the projection window. */
  lemma BuildDates(p: Projection, periodInMonths: int)
    requires RulesMatchable(p.recurringFlows)
    ensures var r := Walk(p.startBalance, p.accountIds, Candidates(p, periodInMonths));
      EntriesByDate(r) &&
      forall i :: 0 <= i < |r| ==> InWindow(r[i].date, p.startDate, WindowEnd(p.startDate, periodInMonths))
  {
    var endDate := WindowEnd(p.startDate, periodInMonths);
    var gathered := Gathered(p.recurringFlows, p.startDate, endDate);
    var sorted := Candidates(p, periodInMonths);
    var r := Walk(p.startBalance, p.accountIds, sorted);
    WalkKeepsDateOrder(p.startBalance, p.accountIds, sorted);
    WalkEntriesFromFlows(p.startBalance, p.accountIds, sorted);
    forall i | 0 <= i < |r| ensures InWindow(r[i].date, p.startDate, endDate) {
      assert r[i] in r;
      var k :| 0 <= k < |sorted| && r[i].date == sorted[k].date;
      assert sorted[k] in multiset(gathered);
    }
  }
}
