/**
 * Calendar recurrence rules (`Frequency`): which dates a rule matches, and the
 * first match after a given date, found by a bounded day-by-day scan.
 */
module Frequencies {
  import opened Wrappers
  import opened Calendar
  import opened Text

  /** The recognised period kinds (`PERIODS`). */
  datatype Period = Day | Week | Month | Year | Once

  /** One element of an `on:` or `months:` list: an Integer, a name (Symbol or String) or a Date. */
  datatype Item = Num(n: int) | Name(name: string) | At(date: Date)

  /** A keyword argument as the caller passes it: nil, a single value, or an Array. */
  datatype Arg = Absent | One(item: Item) | Many(items: seq<Item>)

  datatype RuleError =
    | InvalidPeriod   // "Invalid period"
    | OnceNeedsDate   // "Frequency.once requires a Date object for 'on'"

  /**
   * A rule as the constructor stores it. `interval` is kept but never consulted
   * by matching; `on` and `months` are nil (None) or arrays.
   */
  datatype Frequency = Frequency(
    period: Period,
    interval: int,
    on: Option<seq<Item>>,
    months: Option<seq<int>>,
    nth: Option<int>)

  /** `Array(x) if x`: nil stays nil, a single value becomes a one-element array. */
  function AsArray(a: Arg): (r: Option<seq<Item>>)
    ensures r.None? <==> a.Absent?
    ensures a.One? ==> r == Some([a.item])
    ensures a.Many? ==> r == Some(a.items)
  {
    match a
    case Absent => None
    case One(x) => Some([x])
    case Many(xs) => Some(xs)
  }

  /** `period.to_sym`, accepted only when it is one of `PERIODS`. */
  function PeriodNamed(name: string): (r: Option<Period>)
    ensures r.Some? <==> name in {"day", "week", "month", "year", "once"}
  {
    match name
    case "day" => Some(Day)
    case "week" => Some(Week)
    case "month" => Some(Month)
    case "year" => Some(Year)
    case "once" => Some(Once)
    case _ => None
  }

  /** `MONTHS`, keyed by lower-case abbreviation. */
  const MonthsByName: map<string, int> := map[
    "jan" := 1, "feb" := 2, "mar" := 3, "apr" := 4, "may" := 5, "jun" := 6,
    "jul" := 7, "aug" := 8, "sep" := 9, "oct" := 10, "nov" := 11, "dec" := 12]

  /** `DAYS`, keyed by lower-case full name, Sunday = 0. */
  const DaysByName: map<string, int> := map[
    "sunday" := 0, "monday" := 1, "tuesday" := 2, "wednesday" := 3,
    "thursday" := 4, "friday" := 5, "saturday" := 6]

  /**
   * `m.is_a?(Integer) ? m : MONTHS[m.to_s.downcase.to_sym]`. A Date's text is
   * "yyyy-mm-dd", which is never a month name.
   */
  function MonthOf(m: Item): (r: Option<int>)
    ensures m.Num? ==> r == Some(m.n)
    ensures m.Name? ==> (r.Some? <==> Lower(m.name) in MonthsByName)
    ensures r.Some? && !m.Num? ==> 1 <= r.value <= 12
  {
    match m
    case Num(n) => Some(n)
    case Name(s) => if Lower(s) in MonthsByName then Some(MonthsByName[Lower(s)]) else None
    case At(_) => None
  }

  /** `d.is_a?(Integer) ? d : DAYS[d.to_s.downcase.to_sym]` */
  function WeekdayOf(d: Item): (r: Option<int>)
    ensures d.Num? ==> r == Some(d.n)
    ensures d.Name? ==> (r.Some? <==> Lower(d.name) in DaysByName)
    ensures r.Some? && !d.Num? ==> 0 <= r.value < 7
  {
    match d
    case Num(n) => Some(n)
    case Name(s) => if Lower(s) in DaysByName then Some(DaysByName[Lower(s)]) else None
    case At(_) => None
  }

  /** `.map { ... }.compact`: the month numbers of the items, unknown names dropped. */
  function MonthNumbers(items: seq<Item>): seq<int> {
    if items == [] then []
    else
      match MonthOf(items[0])
      case Some(m) => [m] + MonthNumbers(items[1..])
      case None => MonthNumbers(items[1..])
  }

  /** Each month number comes from an item, and every item that names a month contributes it. */
  lemma {:induction false} MonthNumbersMembers(items: seq<Item>)
    ensures forall m :: m in MonthNumbers(items) <==> exists i :: 0 <= i < |items| && MonthOf(items[i]) == Some(m)
  {
    if items != [] {
      MonthNumbersMembers(items[1..]);
      assert forall i :: 0 < i < |items| ==> items[i] == items[1..][i - 1];
      forall m | exists i :: 0 <= i < |items| && MonthOf(items[i]) == Some(m)
        ensures m in MonthNumbers(items)
      {
        var i :| 0 <= i < |items| && MonthOf(items[i]) == Some(m);
        if i > 0 {
          assert MonthOf(items[1..][i - 1]) == Some(m);
        }
      }
    }
  }

  predicate IsSorted(s: seq<int>) {
    forall i, j :: 0 <= i < j < |s| ==> s[i] <= s[j]
  }

  function Insert(x: int, s: seq<int>): (r: seq<int>)
    requires IsSorted(s)
    ensures IsSorted(r)
    ensures multiset(r) == multiset(s) + multiset{x}
    ensures forall y :: y in r ==> y == x || y in s
  {
    if s == [] || x <= s[0] then
      SortedCons(x, s);
      [x] + s
    else
      var rest := Insert(x, s[1..]);
      assert s == [s[0]] + s[1..];
      FirstBelowAll(s[0], x, s[1..], rest);
      SortedCons(s[0], rest);
      [s[0]] + rest
  }

  /** Every element of `rest`, which holds `x` and elements of `tail`, is at least `a`. */
  lemma FirstBelowAll(a: int, x: int, tail: seq<int>, rest: seq<int>)
    requires a < x && forall i :: 0 <= i < |tail| ==> a <= tail[i]
    requires forall y :: y in rest ==> y == x || y in tail
    ensures forall i :: 0 <= i < |rest| ==> a <= rest[i]
  {
    forall i | 0 <= i < |rest| ensures a <= rest[i] {
      assert rest[i] in rest;
    }
  }

  lemma SortedCons(a: int, s: seq<int>)
    requires IsSorted(s) && forall i :: 0 <= i < |s| ==> a <= s[i]
    ensures IsSorted([a] + s)
  {
  }

  /** `.sort` on integers. */
  function SortInts(s: seq<int>): (r: seq<int>)
    ensures IsSorted(r)
    ensures multiset(r) == multiset(s)
  {
    if s == [] then []
    else
      assert s == [s[0]] + s[1..];
      Insert(s[0], SortInts(s[1..]))
  }

  /** A sorted list is determined by its elements. */
  lemma {:induction false} SortedPermutationUnique(a: seq<int>, b: seq<int>)
    requires IsSorted(a) && IsSorted(b) && multiset(a) == multiset(b)
    ensures a == b
    decreases |a|
  {
    assert |multiset(b)| == |b| && |multiset(a)| == |a|;
    if a != [] {
      var x, y := a[0], b[0];
      assert y in multiset(a) by { assert y in multiset(b); }
      assert x in multiset(b) by { assert x in multiset(a); }
      HeadIsLeast(a, y);
      HeadIsLeast(b, x);
      assert x == y;
      TailOfSorted(a);
      TailOfSorted(b);
      SortedPermutationUnique(a[1..], b[1..]);
      assert a == [x] + a[1..];
      assert b == [y] + b[1..];
    }
  }

  lemma HeadIsLeast(s: seq<int>, x: int)
    requires IsSorted(s) && x in multiset(s)
    ensures s[0] <= x
  {
    var i :| 0 <= i < |s| && s[i] == x;
  }

  lemma TailOfSorted(s: seq<int>)
    requires IsSorted(s) && s != []
    ensures IsSorted(s[1..])
    ensures multiset(s[1..]) == multiset(s) - multiset{s[0]}
  {
    assert s == [s[0]] + s[1..];
  }

  /**
   * `normalize_months`: nil stays nil; otherwise the month numbers of the items
   * (Integers kept as they are, names looked up, unknown names dropped), sorted.
   */
  function NormalizeMonths(input: Arg): (r: Option<seq<int>>)
    ensures r.None? <==> input.Absent?
    ensures r.Some? ==> IsSorted(r.value)
    ensures r.Some? ==> var items := AsArray(input).value;
      multiset(r.value) == multiset(MonthNumbers(items)) &&
      forall m :: m in r.value <==> exists i :: 0 <= i < |items| && MonthOf(items[i]) == Some(m)
  {
    match AsArray(input)
    case None => None
    case Some(items) =>
      var numbers := MonthNumbers(items);
      MonthNumbersMembers(items);
      var sorted := SortInts(numbers);
      assert forall m :: m in sorted <==> m in numbers by {
        forall m ensures m in sorted <==> m in numbers {
          assert m in sorted <==> m in multiset(sorted);
          assert m in numbers <==> m in multiset(numbers);
        }
      }
      Some(sorted)
  }

  /** `@on&.first.is_a?(Date)`, the test `validate!` makes of a `once` rule. */
  predicate FirstIsDate(on: Option<seq<Item>>) {
    on.Some? && |on.value| > 0 && on.value[0].At?
  }

  /** `Frequency.new(period:, interval: 1, on: nil, months: nil, nth: nil)` followed by `validate!`. */
  function New(period: string, interval: int := 1, on: Arg := Absent, months: Arg := Absent,
               nth: Option<int> := None): (r: Result<Frequency, RuleError>)
    ensures PeriodNamed(period).None? ==> r == Err(InvalidPeriod)
    ensures PeriodNamed(period) == Some(Once) && !FirstIsDate(AsArray(on)) ==> r == Err(OnceNeedsDate)
    ensures r.Ok? <==>
      PeriodNamed(period).Some? && (PeriodNamed(period) == Some(Once) ==> FirstIsDate(AsArray(on)))
    ensures r.Ok? ==>
              r.value.period == PeriodNamed(period).value && r.value.interval == interval &&
              r.value.on == AsArray(on) && r.value.months == NormalizeMonths(months) && r.value.nth == nth
  {
    match PeriodNamed(period)
    case None => Err(InvalidPeriod)
    case Some(p) =>
      if p == Once && !FirstIsDate(AsArray(on)) then Err(OnceNeedsDate)
      else Ok(Frequency(p, interval, AsArray(on), NormalizeMonths(months), nth))
  }

  /** `Frequency.once(on:)` */
  function OnceOn(on: Arg): (r: Result<Frequency, RuleError>)
    ensures r.Ok? <==> FirstIsDate(AsArray(on))
    ensures r.Ok? ==> r.value.period == Once && r.value.on == AsArray(on)
  {
    New("once", on := on)
  }

  /** `Frequency.daily(interval: 1)` */
  function Daily(interval: int := 1): (r: Result<Frequency, RuleError>)
    ensures r.Ok? && r.value.period == Day && r.value.interval == interval
    ensures r.value.on.None? && r.value.months.None? && r.value.nth.None?
  {
    New("day", interval := interval)
  }

  /** `Frequency.weekly(on: nil, interval: 1)` */
  function Weekly(on: Arg := Absent, interval: int := 1): (r: Result<Frequency, RuleError>)
    ensures r.Ok? && r.value.period == Week && r.value.interval == interval
    ensures r.value.on == AsArray(on) && r.value.months.None? && r.value.nth.None?
  {
    New("week", interval := interval, on := on)
  }

  /** `Frequency.monthly(on:, interval: 1, nth: nil)` */
  function Monthly(on: Arg, interval: int := 1, nth: Option<int> := None): (r: Result<Frequency, RuleError>)
    ensures r.Ok? && r.value.period == Month && r.value.interval == interval
    ensures r.value.on == AsArray(on) && r.value.months.None? && r.value.nth == nth
  {
    New("month", interval := interval, on := on, nth := nth)
  }

  /** The default `months:` of `Frequency.quarterly`. */
  const QuarterStarts: Arg := Many([Name("jan"), Name("apr"), Name("jul"), Name("oct")])

  /** `Frequency.quarterly(on:, months: [:jan, :apr, :jul, :oct])` */
  function Quarterly(on: Arg, months: Arg := QuarterStarts): (r: Result<Frequency, RuleError>)
    ensures r.Ok? && r.value.period == Year && r.value.interval == 1
    ensures r.value.on == AsArray(on) && r.value.months == NormalizeMonths(months) && r.value.nth.None?
  {
    New("year", interval := 1, on := on, months := months)
  }

  /** The default quarter months normalise to January, April, July and October. */
  lemma QuarterlyDefaultMonths(on: Arg)
    ensures Quarterly(on).value.months == Some([1, 4, 7, 10])
  {
    QuarterStartNumbers();
    SortedFour(1, 4, 7, 10);
    SortedMonthsNormalize(QuarterStarts, [1, 4, 7, 10]);
  }

  lemma SortedFour(a: int, b: int, c: int, d: int)
    requires a <= b <= c <= d
    ensures IsSorted([a, b, c, d])
  {
  }

  lemma QuarterStartNumbers()
    ensures MonthNumbers(QuarterStarts.items) == [1, 4, 7, 10]
  {
    NamedMonth("jan", 1);
    NamedMonth("apr", 4);
    NamedMonth("jul", 7);
    NamedMonth("oct", 10);
    FourMonthNumbers(Name("jan"), Name("apr"), Name("jul"), Name("oct"), 1, 4, 7, 10);
  }

  lemma FourMonthNumbers(a: Item, b: Item, c: Item, d: Item, ma: int, mb: int, mc: int, md: int)
    requires MonthOf(a) == Some(ma) && MonthOf(b) == Some(mb) && MonthOf(c) == Some(mc) && MonthOf(d) == Some(md)
    ensures MonthNumbers([a, b, c, d]) == [ma, mb, mc, md]
  {
    MonthNumbersCons(d, [], md);
    assert [d] == [d] + [];
    MonthNumbersCons(c, [d], mc);
    assert [c, d] == [c] + [d];
    MonthNumbersCons(b, [c, d], mb);
    assert [b, c, d] == [b] + [c, d];
    MonthNumbersCons(a, [b, c, d], ma);
    assert [a, b, c, d] == [a] + [b, c, d];
  }

  /** A month list whose numbers are already in order normalises to those numbers. */
  lemma SortedMonthsNormalize(input: Arg, ms: seq<int>)
    requires input.Many? && MonthNumbers(input.items) == ms && IsSorted(ms)
    ensures NormalizeMonths(input) == Some(ms)
  {
    SortingSortedIsIdentity(ms);
  }

  lemma SortingSortedIsIdentity(s: seq<int>)
    requires IsSorted(s)
    ensures SortInts(s) == s
  {
    SortedPermutationUnique(SortInts(s), s);
  }

  /** A lower-case month abbreviation maps to its number. */
  lemma NamedMonth(s: string, m: int)
    requires forall i :: 0 <= i < |s| ==> 'a' <= s[i] <= 'z'
    requires s in MonthsByName && MonthsByName[s] == m
    ensures MonthOf(Name(s)) == Some(m)
  {
    LowerOfLowercase(s);
  }

  /** A lower-case day name maps to its number. */
  lemma NamedWeekday(s: string, w: int)
    requires forall i :: 0 <= i < |s| ==> 'a' <= s[i] <= 'z'
    requires s in DaysByName && DaysByName[s] == w
    ensures WeekdayOf(Name(s)) == Some(w)
  {
    LowerOfLowercase(s);
  }

  lemma {:induction false} MonthNumbersCons(item: Item, rest: seq<Item>, m: int)
    requires MonthOf(item) == Some(m)
    ensures MonthNumbers([item] + rest) == [m] + MonthNumbers(rest)
  {
    assert ([item] + rest)[0] == item;
    assert ([item] + rest)[1..] == rest;
  }

  /** `Frequency.yearly(on:, months: nil)` */
  function Yearly(on: Arg, months: Arg := Absent): (r: Result<Frequency, RuleError>)
    ensures r.Ok? && r.value.period == Year && r.value.interval == 1
    ensures r.value.on == AsArray(on) && r.value.months == NormalizeMonths(months) && r.value.nth.None?
  {
    New("year", interval := 1, on := on, months := months)
  }

  /**
   * The rules `include?` can be asked about: a validated `once` rule, and month
   * and year rules that carry an `on` array (with `on: nil` the source fails
   * calling `include?` on nil).
   */
  predicate Matchable(f: Frequency) {
    (f.period == Once ==> FirstIsDate(f.on)) &&
    (f.period == Month || f.period == Year ==> f.on.Some?)
  }

  /** `month_matches?` */
  predicate MonthMatches(f: Frequency, date: Date)
    ensures !MonthMatches(f, date) <==> f.period == Year && f.months.Some? && date.month !in f.months.value
  {
    if f.period == Day || f.period == Week then true
    else if f.period == Year then f.months.None? || date.month in f.months.value
    else true
  }

  /** `nth_wday_of_month?`: the date is the `n`-th (or, for -1, the last) of its weekday in its month. */
  predicate NthWeekdayOfMonth(date: Date, n: int)
    ensures n > 0 ==> (NthWeekdayOfMonth(date, n) <==> 7 * (n - 1) < date.day <= 7 * n)
    ensures n == -1 ==> (NthWeekdayOfMonth(date, n) <==> date.day > DaysInMonth(date.year, date.month) - 7)
    ensures n == 0 || n < -1 ==> !NthWeekdayOfMonth(date, n)
  {
    if n > 0 then (date.day - 1) / 7 + 1 == n
    else if n == -1 then date.day + 7 > DaysInMonth(date.year, date.month)
    else false
  }

  /** The weekday `@on.first` names; an empty array gives nil. */
  function TargetWeekday(on: seq<Item>): Option<int> {
    if on == [] then None else WeekdayOf(on[0])
  }

  /** `day_matches?` */
  predicate DayMatches(f: Frequency, date: Date)
    requires Matchable(f)
  {
    if f.period == Week then
      if f.on.None? || f.on.value == [] then true
      else
        var weekdays := seq(|f.on.value|, i requires 0 <= i < |f.on.value| => WeekdayOf(f.on.value[i]));
        Some(Weekday(date)) in weekdays
    else if f.period == Month || f.period == Year then
      if f.nth.None? then Num(date.day) in f.on.value
      else
        TargetWeekday(f.on.value) == Some(Weekday(date)) && NthWeekdayOfMonth(date, f.nth.value)
    else true
  }

  /** `include?` */
  predicate Includes(f: Frequency, date: Date)
    requires Matchable(f)
  {
    if f.period == Once then f.on.value[0] == At(date)
    else MonthMatches(f, date) && DayMatches(f, date)
  }

  /** Number of candidate days `next_occurrence` tries: offsets 0 .. 365 * 5. */
  const ScanBound := 365 * 5 + 1

  /** The first of `count` consecutive days from `candidate` that the rule includes. */
  function Scan(f: Frequency, candidate: Date, count: nat): (r: Option<Date>)
    requires Matchable(f)
    ensures r.Some? ==> Jd(candidate) <= Jd(r.value) < Jd(candidate) + count && Includes(f, r.value)
    decreases count
  {
    if count == 0 then None
    else if Includes(f, candidate) then Some(candidate)
    else Scan(f, NextDay(candidate), count - 1)
  }

  /** `next_occurrence(after:)`, as a value. */
  function NextOccurrenceOf(f: Frequency, after: Date): (r: Option<Date>)
    requires Matchable(f)
    ensures r.Some? ==> Before(after, r.value) && Includes(f, r.value)
  {
    if f.period == Once then
      var target := f.on.value[0].date;
      if Before(after, target) then Some(target) else None
    else
      Scan(f, NextDay(after), ScanBound)
  }

  /** A scan that passes over a day has found that the day does not match. */
  lemma {:induction false} ScanSkips(f: Frequency, candidate: Date, count: nat, x: Date)
    requires Matchable(f)
    requires Jd(candidate) <= Jd(x)
    requires var r := Scan(f, candidate, count);
      Jd(x) < if r.Some? then Jd(r.value) else Jd(candidate) + count
    ensures !Includes(f, x)
    decreases count
  {
    ScanUnfold(f, candidate, count);
    if Jd(x) == Jd(candidate) {
      JdInjective(x, candidate);
    } else {
      ScanSkips(f, NextDay(candidate), count - 1, x);
    }
  }

  /** The three ways a scan can go from its first candidate. */
  lemma ScanUnfold(f: Frequency, candidate: Date, count: nat)
    requires Matchable(f)
    ensures count == 0 ==> Scan(f, candidate, count) == None
    ensures count != 0 && Includes(f, candidate) ==> Scan(f, candidate, count) == Some(candidate)
    ensures count != 0 && !Includes(f, candidate) ==>
              Scan(f, candidate, count) == Scan(f, NextDay(candidate), count - 1)
  {
  }

  /**
   * What `next_occurrence` promises: a result lies after `after`, matches, and
   * no date in between matches; a non-`once` result lies within the scan bound,
   * and nil means that no date of the bound matches.
   */
  lemma NextOccurrenceIsFirst(f: Frequency, after: Date)
    requires Matchable(f)
    ensures var r := NextOccurrenceOf(f, after);
      r.Some? ==> forall x: Date :: Before(after, x) && Before(x, r.value) ==> !Includes(f, x)
    ensures var r := NextOccurrenceOf(f, after);
      r.None? ==> forall x: Date :: Before(after, x) && Jd(x) <= Jd(after) + ScanBound ==> !Includes(f, x)
    ensures f.period != Once ==> var r := NextOccurrenceOf(f, after);
      r.Some? ==> Jd(r.value) <= Jd(after) + ScanBound
  {
    if f.period != Once {
      forall x: Date | Before(after, x) && Jd(x) <= Jd(after) + ScanBound &&
          (NextOccurrenceOf(f, after).Some? ==> Before(x, NextOccurrenceOf(f, after).value))
        ensures !Includes(f, x)
      {
        ScanSkips(f, NextDay(after), ScanBound, x);
      }
      forall x: Date | Before(after, x) && NextOccurrenceOf(f, after).Some? && Before(x, NextOccurrenceOf(f, after).value)
        ensures !Includes(f, x)
      {
        ScanSkips(f, NextDay(after), ScanBound, x);
      }
    } else {
      forall x: Date | Includes(f, x) ensures x == f.on.value[0].date { }
    }
  }

  /**
   * Conversely, the first date after `after` that the rule matches, when it
   * lies within the scan bound, is the next occurrence.
   */
  lemma FirstMatchIsNextOccurrence(f: Frequency, after: Date, d: Date)
    requires Matchable(f) && Before(after, d) && Includes(f, d)
    requires f.period != Once ==> Jd(d) <= Jd(after) + ScanBound
    requires forall x: Date :: Before(after, x) && Before(x, d) ==> !Includes(f, x)
    ensures NextOccurrenceOf(f, after) == Some(d)
  {
    NextOccurrenceIsFirst(f, after);
    var r := NextOccurrenceOf(f, after);
    if r.Some? {
      assert !Before(r.value, d) && !Before(d, r.value);
      JdInjective(r.value, d);
    }
  }

  /** `next_occurrence(after:)`: the `once` shortcut, else the bounded forward scan. */
  method NextOccurrence(f: Frequency, after: Date) returns (r: Option<Date>)
    requires Matchable(f)
    ensures r == NextOccurrenceOf(f, after)
    ensures r.Some? ==> Before(after, r.value) && Includes(f, r.value)
    ensures r.Some? ==> forall x: Date :: Before(after, x) && Before(x, r.value) ==> !Includes(f, x)
    ensures r.None? ==> forall x: Date :: Before(after, x) && Jd(x) <= Jd(after) + ScanBound ==> !Includes(f, x)
  {
    NextOccurrenceIsFirst(f, after);
    if f.period == Once {
      var target := f.on.value[0].date;
      if Before(after, target) {
        return Some(target);
      }
      return None;
    }
    var date := NextDay(after);
    for dayOffset := 0 to 365 * 5 + 1
      invariant Scan(f, date, ScanBound) == Scan(f, AddDays(date, dayOffset), ScanBound - dayOffset)
    {
      var candidate := AddDays(date, dayOffset);
      if Includes(f, candidate) {
        ScanHit(f, date, dayOffset);
        return Some(candidate);
      }
      ScanAdvance(f, date, dayOffset);
    }
    return None;
  }

  /** The scan from day `k` of the window stops there when that day matches... */
  lemma ScanHit(f: Frequency, date: Date, k: nat)
    requires Matchable(f) && k < ScanBound && Includes(f, AddDays(date, k))
    ensures Scan(f, AddDays(date, k), ScanBound - k) == Some(AddDays(date, k))
  {
  }

  /** ... and otherwise goes on from day `k + 1`. */
  lemma ScanAdvance(f: Frequency, date: Date, k: nat)
    requires Matchable(f) && k < ScanBound && !Includes(f, AddDays(date, k))
    ensures Scan(f, AddDays(date, k), ScanBound - k) == Scan(f, AddDays(date, k + 1), ScanBound - (k + 1))
  {
    AddDaysStep(date, k);
  }

  lemma AddDaysStep(d: Date, n: nat)
    ensures AddDays(d, n + 1) == NextDay(AddDays(d, n))
  {
    JdInjective(AddDays(d, n + 1), NextDay(AddDays(d, n)));
  }

  /** A `day` rule matches every date. */
  lemma DayRuleMatchesEveryDate(f: Frequency, d: Date)
    requires f.period == Day
    ensures Includes(f, d)
  {
  }

  /** A `week` rule matches every date when `on` is nil or empty, otherwise exactly on the listed weekdays. */
  lemma WeekRuleMatches(f: Frequency, d: Date)
    requires f.period == Week
    ensures Includes(f, d) <==>
              f.on.None? || f.on.value == [] ||
              exists i :: 0 <= i < |f.on.value| && WeekdayOf(f.on.value[i]) == Some(Weekday(d))
  {
    if f.on.Some? && f.on.value != [] {
      var weekdays := seq(|f.on.value|, i requires 0 <= i < |f.on.value| => WeekdayOf(f.on.value[i]));
      if Some(Weekday(d)) in weekdays {
        var i :| 0 <= i < |weekdays| && weekdays[i] == Some(Weekday(d));
        assert WeekdayOf(f.on.value[i]) == Some(Weekday(d));
      }
      if i :| 0 <= i < |f.on.value| && WeekdayOf(f.on.value[i]) == Some(Weekday(d)) {
        assert weekdays[i] == Some(Weekday(d));
      }
    }
  }

  /** A `year` rule with a month list never matches outside those months. */
  lemma YearRuleMonthFilter(f: Frequency, d: Date)
    requires Matchable(f) && f.period == Year && f.months.Some?
    requires d.month !in f.months.value
    ensures !Includes(f, d)
  {
  }

  /** A `month` rule never filters by month: its month list is ignored. */
  lemma MonthRuleIgnoresMonths(f: Frequency, d: Date, months: Option<seq<int>>)
    requires Matchable(f) && f.period == Month
    ensures Includes(f.(months := months), d) == Includes(f, d)
  {
  }

  /** Without `nth`, a month or year rule matches (within its months) exactly the listed days of the month. */
  lemma DayOfMonthRule(f: Frequency, d: Date)
    requires Matchable(f) && (f.period == Month || f.period == Year) && f.nth.None?
    ensures Includes(f, d) <==> MonthMatches(f, d) && Num(d.day) in f.on.value
  {
  }

  /**
   * With `nth`, a month or year rule matches (within its months) a date on the
   * target weekday that is the nth such weekday of its month (for nth >= 1), or
   * one of the last seven days of the month (for nth = -1); any other nth never matches.
   */
  lemma NthRule(f: Frequency, d: Date)
    requires Matchable(f) && (f.period == Month || f.period == Year) && f.nth.Some?
    ensures Includes(f, d) <==>
              MonthMatches(f, d) && TargetWeekday(f.on.value) == Some(Weekday(d)) &&
              ((f.nth.value >= 1 && (d.day - 1) / 7 + 1 == f.nth.value) ||
               (f.nth.value == -1 && d.day + 7 > DaysInMonth(d.year, d.month)))
  {
  }

  /** An `nth` the matcher can satisfy in every month: the first to fourth, or the last. */
  predicate IsRegularNth(n: int) {
    1 <= n <= 4 || n == -1
  }

  /**
   * The day of month `m` of year `y` that is the `n`-th weekday `w` (the last
   * one for n = -1), computed from the weekday of the first or last day.
   */
  function NthWeekdayDate(y: int, m: int, w: int, n: int): (d: Date)
    requires 1 <= m <= 12 && 0 <= w < 7 && IsRegularNth(n)
    ensures d.year == y && d.month == m
  {
    if n >= 1 then
      Ymd(y, m, 1 + (w - Weekday(Ymd(y, m, 1))) % 7 + 7 * (n - 1))
    else
      var last := DaysInMonth(y, m);
      Ymd(y, m, last - (Weekday(Ymd(y, m, last)) - w) % 7)
  }

  /**
   * A monthly rule "the n-th weekday w" (first to fourth, or last) matches a
   * date exactly when the date is that month's n-th weekday w: one date in
   * every month.
   */
  lemma NthWeekdayExactlyOncePerMonth(f: Frequency, d: Date, w: int)
    requires Matchable(f) && f.period == Month && f.nth.Some? && IsRegularNth(f.nth.value)
    requires 0 <= w < 7 && TargetWeekday(f.on.value) == Some(w)
    ensures Includes(f, d) <==> d == NthWeekdayDate(d.year, d.month, w, f.nth.value)
  {
    var n := f.nth.value;
    assert Includes(f, d) <==> Weekday(d) == w && NthWeekdayOfMonth(d, n);
    if n >= 1 {
      NthFromFirst(d, w, n);
    } else {
      NthFromLast(d, w);
    }
  }

  /** The n-th weekday `w` of a month (n from 1 to 4) is found from the weekday of its first day. */
  lemma NthFromFirst(d: Date, w: int, n: int)
    requires 0 <= w < 7 && 1 <= n <= 4
    ensures Weekday(d) == w && NthWeekdayOfMonth(d, n) <==> d == NthWeekdayDate(d.year, d.month, w, n)
  {
    var w1 := Weekday(Ymd(d.year, d.month, 1));
    var t := NthWeekdayDate(d.year, d.month, w, n);
    WeekdayInMonth(d);
    FirstDayRule(d.day, n, w1, w, Weekday(d), t.day);
    assert d == t <==> d.day == t.day;
  }

  /** `NthInBlock` for a day number, given its weekday and that of the month's first day. */
  lemma FirstDayRule(day: int, n: int, w1: int, w: int, wd: int, tday: int)
    requires 0 <= w1 < 7 && 0 <= w < 7 && 1 <= day && 1 <= n
    requires wd == (w1 + day - 1) % 7 && tday == 1 + (w - w1) % 7 + 7 * (n - 1)
    ensures (wd == w && (day - 1) / 7 + 1 == n) <==> day == tday
  {
    NthInBlock(w1, w, day - 1, n);
  }

  /** The last weekday `w` of a month is found from the weekday of its last day. */
  lemma NthFromLast(d: Date, w: int)
    requires 0 <= w < 7
    ensures Weekday(d) == w && NthWeekdayOfMonth(d, -1) <==> d == NthWeekdayDate(d.year, d.month, w, -1)
  {
    var w1 := Weekday(Ymd(d.year, d.month, 1));
    var len := DaysInMonth(d.year, d.month);
    var last: Date := Ymd(d.year, d.month, len);
    var t := NthWeekdayDate(d.year, d.month, w, -1);
    WeekdayInMonth(d);
    WeekdayInMonth(last);
    LastDayRule(d.day, len, w1, w, Weekday(d), Weekday(last), t.day);
    assert d == t <==> d.day == t.day;
  }

  /** `LastInBlock` for a day number, given the weekdays of that day and of the month's last day. */
  lemma LastDayRule(day: int, len: int, w1: int, w: int, wd: int, wl: int, tday: int)
    requires 0 <= w1 < 7 && 0 <= w < 7 && 1 <= day <= len
    requires wd == (w1 + day - 1) % 7 && wl == (w1 + len - 1) % 7 && tday == len - (wl - w) % 7
    ensures (wd == w && day + 7 > len) <==> day == tday
  {
    LastInBlock(w1, w, day - 1, len);
  }

  /** Day index `k` (from 0) of a month whose first day has weekday `w1` is the n-th weekday `w`. */
  lemma NthInBlock(w1: int, w: int, k: int, n: int)
    requires 0 <= w1 < 7 && 0 <= w < 7 && 0 <= k && 1 <= n
    ensures ((w1 + k) % 7 == w && k / 7 + 1 == n) <==> k == (w - w1) % 7 + 7 * (n - 1)
  {
  }

  /** Day index `k` of a `len`-day month is the last weekday `w`. */
  lemma LastInBlock(w1: int, w: int, k: int, len: int)
    requires 0 <= w1 < 7 && 0 <= w < 7 && 0 <= k < len
    ensures ((w1 + k) % 7 == w && k + 1 + 7 > len) <==> k + 1 == len - ((w1 + len - 1) % 7 - w) % 7
  {
    var t := len - 1 - ((w1 + len - 1) % 7 - w) % 7;
    LastOfWeekday(w1, w, len);
    if (w1 + k) % 7 == w && k + 1 + 7 > len {
      SameResidueNear(w1 + k, w1 + t);
    }
  }

  /** The day index `t` found from the last day's weekday is weekday `w`, and within a week of the end. */
  lemma LastOfWeekday(w1: int, w: int, len: int)
    requires 0 <= w1 < 7 && 0 <= w < 7
    ensures var t := len - 1 - ((w1 + len - 1) % 7 - w) % 7;
      (w1 + t) % 7 == w && len - 7 <= t < len
  {
    var a := w1 + len - 1;
    var b := a % 7 - w;
    assert a == 7 * (a / 7) + a % 7;
    assert b == 7 * (b / 7) + b % 7;
    assert w1 + len - 1 - b % 7 == 7 * (a / 7 + b / 7) + w;
  }

  /** Two numbers less than a week apart with the same remainder modulo 7 are equal. */
  lemma SameResidueNear(x: int, y: int)
    requires x % 7 == y % 7 && -7 < x - y < 7
    ensures x == y
  {
    assert x == 7 * (x / 7) + x % 7;
    assert y == 7 * (y / 7) + y % 7;
    assert x - y == 7 * (x / 7 - y / 7);
  }

  /** A `once` rule matches its date alone, and its next occurrence is that date exactly when it lies ahead. */
  lemma OnceRule(day: Date, x: Date, after: Date)
    ensures OnceOn(One(At(day))).Ok?
    ensures var f := OnceOn(One(At(day))).value;
      Matchable(f) && (Includes(f, x) <==> x == day) &&
      NextOccurrenceOf(f, after) == (if Before(after, day) then Some(day) else None)
  {
  }
}
