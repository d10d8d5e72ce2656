# Abide cash-flow projection and the example Todo table, in Dafny

This project models the scheduling and projection core of the Abide
personal-finance app, plus the in-memory Todo table of the example
application.

- **Recurrence rules** (`Frequency`): a rule is daily, weekly, monthly,
  yearly or once. It can be narrowed by days of the month, weekday names,
  month names and an "nth weekday" index. `include?` decides whether a date
  matches. `next_occurrence` scans forward at most five years for the next
  match.
- **Flows and movements**: `Flow` is an unsigned transfer between two
  accounts. `value_for` and `type_for` give its signed effect on one
  account. `Movement` is a signed income or expense.
- **Recurring rules**: `RecurringFlow` and `RecurringMovement` expand into
  dated flows or movements over a date range. The range is intersected with
  the rule's active window, and `next_occurrence` is followed from the day
  before that window opens.
- **Projection**: gathers the flows of every rule over `period_in_months`
  months, sorts them by date, and walks them with a running balance for a
  group of accounts. Flows whose net impact on the group is zero are
  skipped.
- **Todo table**: class-level state holding the todos and an id counter,
  with create, delete, find, filtered views and case-insensitive search.

## Module layout

| file | module | models |
|---|---|---|
| `calendar.dfy` | `Calendar` | Ruby `Date`: validity, Julian Day Number, weekday, ordering, `+ 1`, `- 1`, `>>` |
| `text.dfy` | `Text` | `String#downcase` and `String#include?` |
| `values.dfy` | `Values` | the values stored in `to_h` hashes |
| `frequency.dfy` | `Frequencies` | `abide/lib/frequency.rb` |
| `frequency_examples.dfy` | `FrequencyExamples` | the scenarios of `abide/test_frequency_script.rb` |
| `flow.dfy` | `Flows` | `abide/lib/flow.rb` |
| `movement.dfy` | `Movements` | `abide/lib/movement.rb` |
| `window.dfy` | `Windows` | the expansion loop shared by both `projection_between` methods |
| `recurring_flow.dfy` | `RecurringFlows` | `abide/lib/recurring_flow.rb` |
| `recurring_movement.dfy` | `RecurringMovements` | `abide/lib/recurring_movement.rb` |
| `projection.dfy` | `Projections` | `abide/lib/projection.rb` |
| `projection_examples.dfy` | `ProjectionExamples` | the scenarios of `abide/test_projection_script.rb` |
| `todo.dfy` | `Todos` | `example_app/models/todo.rb` |

## How the model is built

- **Dates.** A date is a valid proleptic Gregorian `Ymd`. Dates are ordered
  by their Julian Day Number. The lemma `CalendarOrder` shows this order is
  the calendar's lexicographic order. `Weekday` uses Ruby's `wday`
  numbering, where Sunday is 0.
- **Rules.** `Frequency.new` returns a `Result`. It fails with
  `InvalidPeriod` or `OnceNeedsDate` where the source raises
  `ArgumentError`. The `on:` and `months:` arguments are an `Arg`: absent,
  one item, or an array. This mirrors Ruby's `Array(on) if on`.
- **Next occurrence.** `next_occurrence` is a method with the source's
  bounded `for` loop. It is proved equal to the function `NextOccurrenceOf`.
  That function's lemmas state what the scan promises: the result is the
  first match after the given date, and `None` means no match within
  1826 days.
- **Expansion.** Both `projection_between` methods are `while` loops. Each
  is proved to return one flow or movement per date of `Windows.Expansion`.
  Separate lemmas show that those dates lie in the effective window, match
  the rule, are strictly increasing, and include every match within the
  scan bound.
- **Projection.** `Build` is a method whose gathering loop and walk loop
  follow the source. It is proved equal to the walk over the sorted
  gathered flows. Lemmas then state:
  - one entry per flow with non-zero impact, in flow order;
  - entry signs and kinds;
  - the running balances;
  - the final balance, which does not depend on the order of the flows;
  - the date order of the entries;
  - that every entry falls inside the window.
- **Todos.** `Todo` and `TodoStore` are classes. `completed` is a mutable
  field. The class-level `@@todos` array and `@@next_id` counter are fields
  of one store object, and the store's invariant is that ids increase in
  creation order.

## Model

| member | source | states |
|---|---|---|
| Calendar.Latest | abide/lib/recurring_flow.rb:20 | `[a, b].max` on dates: the result is one of the two and neither is after it |
| Calendar.Earliest | abide/lib/recurring_flow.rb:22 | `[a, b].min` on dates: the result is one of the two and neither is before it |
| Calendar.PrevDay | abide/lib/recurring_flow.rb:28 | `date - 1` is the day whose Julian Day Number is one less, and the next day after it is the original date |
| Calendar.ShiftMonths | abide/lib/projection.rb:19 | `date >> n` moves `n` months on the year-month counter and keeps the day, clamped to the end of a shorter month |
| Calendar.CalendarOrder | abide/lib/recurring_flow.rb:24 | comparing dates by day number is the calendar order (year, then month, then day) |
| Calendar.JdInjective | abide/lib/frequency.rb:69 | two dates with the same day number are the same date, so `>` and `==` on dates agree with day numbers |
| Calendar.WeekdayInMonth | abide/lib/frequency.rb:136 | within a month, `wday` advances by one per day, modulo 7 |
| Calendar.NextDay | abide/lib/frequency.rb:73 | `date + 1` is the day whose Julian Day Number is one more |
| Calendar.AddDays | abide/lib/frequency.rb:76 | `date + day_offset` is the day whose Julian Day Number is larger by the offset |
| Calendar.Weekday | abide/lib/frequency.rb:122 | `date.wday` lies in 0..6 (Sunday is 0); `WeekdayInMonth` shows it advances by one per day |
| Calendar.DaysInMonth | abide/lib/frequency.rb:157 | `Date.new(y, m, -1).day` is between 28 and 31, and is 29 exactly for February of a leap year |
| Text.Contains | example_app/models/todo.rb:49-50 | `include?` holds exactly when the needle occurs at some start position |
| Text.Lower | example_app/models/todo.rb:49-50 | `downcase` keeps the length and lower-cases each character |
| Frequencies.AsArray | abide/lib/frequency.rb:20 | `Array(on) if on`: absent stays nil, one item becomes a one-element array, an array is kept |
| Frequencies.PeriodNamed | abide/lib/frequency.rb:5 | a period name is accepted exactly when it is one of day, week, month, year, once |
| Frequencies.MonthOf | abide/lib/frequency.rb:6-9 | an integer month is kept; a name is looked up lower-cased in the month table and, when found, is in 1..12 |
| Frequencies.WeekdayOf | abide/lib/frequency.rb:10-13 | an integer weekday is kept; a name is looked up lower-cased in the day table and, when found, is in 0..6 |
| Frequencies.MonthNumbersMembers | abide/lib/frequency.rb:86-88 | after `compact`, a month number is present exactly when some item resolves to it |
| Frequencies.SortInts | abide/lib/frequency.rb:88 | `sort` returns an ascending permutation of its input |
| Frequencies.SortedPermutationUnique | abide/lib/frequency.rb:88 | two ascending permutations of the same numbers are equal, so `sort` has a single answer |
| Frequencies.NormalizeMonths | abide/lib/frequency.rb:84-89 | nil stays nil; otherwise the result is sorted and holds exactly the resolvable months, with multiplicity |
| Frequencies.New | abide/lib/frequency.rb:17-100 | an unknown period fails with InvalidPeriod; `once` without a leading date fails with OnceNeedsDate; otherwise the fields are the normalised arguments |
| Frequencies.OnceOn | abide/lib/frequency.rb:28-31 | succeeds exactly when `on` leads with a date, giving a `once` rule on that array |
| Frequencies.Daily | abide/lib/frequency.rb:33-35 | always succeeds with a `day` rule, the given interval and no `on`, months or nth |
| Frequencies.Weekly | abide/lib/frequency.rb:37-39 | always succeeds with a `week` rule carrying `Array(on)` and the interval |
| Frequencies.Monthly | abide/lib/frequency.rb:41-43 | always succeeds with a `month` rule carrying `Array(on)`, the interval and nth |
| Frequencies.Quarterly | abide/lib/frequency.rb:45-47 | always succeeds with a `year` rule, interval 1, and normalised months |
| Frequencies.QuarterlyDefaultMonths | abide/lib/frequency.rb:45 | the default months of `quarterly` normalise to 1, 4, 7 and 10 |
| Frequencies.Yearly | abide/lib/frequency.rb:49-51 | always succeeds with a `year` rule, interval 1, and normalised months |
| Frequencies.NextOccurrenceOf | abide/lib/frequency.rb:66-80 | a returned date is after `after` and matches the rule |
| Frequencies.NextOccurrenceIsFirst | abide/lib/frequency.rb:66-80 | nothing between `after` and the result matches; `None` means no match in the scanned 1826 days (or a `once` date not after `after`) |
| Frequencies.FirstMatchIsNextOccurrence | abide/lib/frequency.rb:66-80 | the first matching date after `after`, within the scan bound, is the next occurrence |
| Frequencies.NextOccurrence | abide/lib/frequency.rb:66-80 | the loop returns the first matching date among the 1826 days after `after`, or nil; `once` returns its date only when it is after `after` |
| Frequencies.DayRuleMatchesEveryDate | abide/lib/frequency.rb:53-64 | a daily rule matches every date |
| Frequencies.WeekRuleMatches | abide/lib/frequency.rb:119-123 | a weekly rule with no days matches every date; otherwise it matches exactly the listed weekdays |
| Frequencies.YearRuleMonthFilter | abide/lib/frequency.rb:110-113 | a yearly rule with months never matches a date outside them |
| Frequencies.MonthRuleIgnoresMonths | abide/lib/frequency.rb:102-116 | a monthly rule matches the same dates whatever its months field holds |
| Frequencies.DayOfMonthRule | abide/lib/frequency.rb:125-129 | without nth, a month or year rule matches exactly the dates whose month passes and whose day number is listed in `on` |
| Frequencies.NthRule | abide/lib/frequency.rb:131-161 | with nth, a month or year rule matches exactly the dates on the first listed weekday that are that weekday's nth (or, for -1, last) in the month |
| Frequencies.NthWeekdayExactlyOncePerMonth | abide/lib/frequency.rb:143-161 | a monthly nth-weekday rule (n in 1..4 or -1) matches exactly one date in every month |
| Frequencies.OnceRule | abide/lib/frequency.rb:28-71 | a `once` rule matches only its date, and its next occurrence is that date exactly when it is after `after` |
| Frequencies.Includes | abide/lib/frequency.rb:53-64 | `include?`, stated rule by rule in `DayRuleMatchesEveryDate`, `WeekRuleMatches`, `YearRuleMonthFilter`, `DayOfMonthRule`, `NthRule` and `OnceRule`, and tied to `next_occurrence` by `NextOccurrenceIsFirst` |
| Frequencies.MonthMatches | abide/lib/frequency.rb:102-116 | a date fails the month test exactly when the rule is yearly with a month list that lacks the date's month |
| Frequencies.DayMatches | abide/lib/frequency.rb:118-141 | `day_matches?`, stated per period in `WeekRuleMatches`, `DayOfMonthRule` and `NthRule` |
| Frequencies.NthWeekdayOfMonth | abide/lib/frequency.rb:143-161 | for n > 0 the day lies in the n-th block of seven (days 7(n-1)+1 to 7n); for -1 it lies in the month's last seven days; any other n never matches |
| Frequencies.Scan | abide/lib/frequency.rb:73-79 | a found day lies within `count` days from the first candidate and matches the rule |
| FrequencyExamples.MonthlyOnThe3rd | abide/test_frequency_script.rb:13-16 | monthly on the 3rd matches 2023-01-03 and 2023-02-03, not 2023-01-04 |
| FrequencyExamples.MonthlyOnThe3rdNext | abide/test_frequency_script.rb:17 | the next occurrence after 2023-01-05 is 2023-02-03 |
| FrequencyExamples.MonthlyOnTheSecondWednesday | abide/test_frequency_script.rb:20-23 | the second Wednesday matches 2023-01-11, not 2023-01-04 |
| FrequencyExamples.MonthlyOnTheSecondWednesdayNext | abide/test_frequency_script.rb:24 | the next occurrence after 2023-01-01 is 2023-01-11 |
| FrequencyExamples.WeeklyOnTuesday | abide/test_frequency_script.rb:27-31 | weekly on Tuesday matches 2023-01-03 and 2023-01-10, not 2023-01-04 |
| FrequencyExamples.MonthlyOnThe5thAnd20th | abide/test_frequency_script.rb:34-37 | the 5th and 20th match and the 6th does not |
| FrequencyExamples.MonthlyOnThe5thAnd20thNext | abide/test_frequency_script.rb:38 | the next occurrence after 2023-01-06 is 2023-01-20 |
| FrequencyExamples.QuarterlyOnThe1st | abide/test_frequency_script.rb:41-45 | quarterly on the 1st defaults to January, April, July and October: it matches the 1st of January and of April, not of February |
| FrequencyExamples.QuarterlyOnThe1stNext | abide/test_frequency_script.rb:46 | the next occurrence after 2023-01-01 is 2023-04-01 |
| FrequencyExamples.YearlyOnThe3rdOfJanuaryAndJuly | abide/test_frequency_script.rb:49-52 | the rule built from `yearly(on: 3, months: [:jan, :jul])` matches the 3rd of January and of July, not of June |
| FrequencyExamples.YearlyOnThe3rdOfJanuaryAndJulyNext | abide/test_frequency_script.rb:53 | the next occurrence after 2023-01-05 is 2023-07-03 |
| Values.Abs | abide/lib/flow.rb:7 | `amount.abs` is non-negative and equals the amount or its negation |
| Flows.New | abide/lib/flow.rb:5-13 | the stored amount is the magnitude of the given one; every other field is kept |
| Flows.ToH | abide/lib/flow.rb:15-25 | the hash has exactly the seven keys of `to_h` |
| Flows.ToHRoundTrip | abide/lib/flow.rb:15-25 | reading a flow back from its hash gives the same flow |
| Flows.ToHInjective | abide/lib/flow.rb:15-25 | two flows with the same hash are equal |
| Flows.ValueMatchesType | abide/lib/flow.rb:28-40 | `value_for` is minus the amount for the source, the amount for a destination that is not the source, else 0; `type_for` is outflow and inflow for the same cases |
| Flows.SignDecidesType | abide/lib/flow.rb:28-40 | for a positive amount, the sign of `value_for` decides `type_for`, in both directions |
| Flows.SelfTransferDebits | abide/lib/flow.rb:29 | a flow from an account to itself debits it, because the source test comes first |
| Flows.TransferNetsToZero | abide/lib/flow.rb:28-32 | the source loses what the destination gains |
| Flows.BystanderUntouched | abide/lib/flow.rb:28-40 | any other account sees 0 and `neutral` |
| Flows.ValueFor | abide/lib/flow.rb:28-32 | the value is 0 or plus or minus the amount; it is non-zero only for the source or the destination, and negative only for the source |
| Flows.TypeFor | abide/lib/flow.rb:36-40 | `neutral` exactly for an account that is neither the source nor the destination |
| Movements.New | abide/lib/movement.rb:4-13 | fields are kept; without a type, the type is income exactly when the amount is not negative, and expense exactly when it is negative |
| Movements.ToH | abide/lib/movement.rb:15-24 | the hash has exactly the six keys of `to_h` |
| Movements.ToHRoundTrip | abide/lib/movement.rb:15-24 | reading a movement back from its hash gives the same movement |
| Movements.ToHInjective | abide/lib/movement.rb:15-24 | two movements with the same hash are equal |
| Movements.InferredKind | abide/lib/movement.rb:11 | a movement created without a type is income or expense by its sign |
| Windows.Occurrences | abide/lib/recurring_flow.rb:30-44 | every date the loop keeps after a cursor is after it, in the window and matching, in strictly increasing order |
| Windows.Expansion | abide/lib/recurring_flow.rb:19-28 | an empty window gives nothing; every kept date is in the intersected window and matches the rule, in strictly increasing order |
| Windows.EffectiveWindow | abide/lib/recurring_flow.rb:20-22 | a date is in the effective window exactly when it is in the range and in the rule's active period |
| Windows.OccurrencesStep | abide/lib/recurring_flow.rb:31-43 | one pass of the loop keeps the next occurrence when it is not before the window, then moves the cursor to it |
| Windows.OccurrencesStop | abide/lib/recurring_flow.rb:32 | the loop stops when there is no next occurrence or it is after the window |
| Windows.OccurrencesComplete | abide/lib/recurring_flow.rb:30-44 | every matching window date after the cursor, within the scan bound, is kept |
| Windows.OccurrencesCompleteAfter | abide/lib/recurring_flow.rb:30-44 | every matching window date within the scan bound of a kept date is kept |
| Windows.ExpansionComplete | abide/lib/recurring_flow.rb:19-47 | every matching date of the window is materialised, given that scan-bound condition |
| Windows.OnceExpandsToAtMostOne | abide/lib/recurring_flow.rb:19-47 | a `once` rule yields at most one date, its own |
| Windows.EffectiveStart | abide/lib/recurring_flow.rb:20 | the later of the range start and the rule's start: one of the two, and not before either |
| Windows.EffectiveEnd | abide/lib/recurring_flow.rb:21-22 | the range end capped by the rule's end date when there is one: one of them, and not after either |
| RecurringFlows.New | abide/lib/recurring_flow.rb:8-16 | the base amount is stored as a magnitude and the other fields are kept |
| RecurringFlows.FlowsOn | abide/lib/recurring_flow.rb:35-41 | one flow per date, carrying the rule's amount, description and accounts, dated as given |
| RecurringFlows.ProjectionBetween | abide/lib/recurring_flow.rb:19-47 | the loop returns exactly one flow for each date of the expansion, in order |
| RecurringFlows.ProjectionFacts | abide/lib/recurring_flow.rb:18-47 | an empty window gives no flows; each flow is in the window, matches the rule and carries its fields; dates strictly increase |
| RecurringFlows.FlowOn | abide/lib/recurring_flow.rb:35-41 | the Flow for one date carries the rule's amount, description and accounts, no id and no tax info |
| RecurringMovements.MovementsOn | abide/lib/recurring_movement.rb:38-42 | one movement per date with the signed base amount, the description, and type income or expense by sign |
| RecurringMovements.ProjectionBetween | abide/lib/recurring_movement.rb:16-48 | the loop returns exactly one movement for each date of the expansion, in order |
| RecurringMovements.ProjectionFacts | abide/lib/recurring_movement.rb:15-48 | an empty window gives no movements; each movement is in the window, matches the rule and carries its fields; dates strictly increase |
| RecurringMovements.MovementOn | abide/lib/recurring_movement.rb:38-42 | the Movement for one date carries the signed base amount and description, and is income exactly when the amount is at least 0 |
| Projections.New | abide/lib/projection.rb:8-16 | the start balance is the sum of the ledger balances of the tracked accounts |
| Projections.SumBalances | abide/lib/projection.rb:15 | the portfolio's start balance; `StartBalanceOfPortfolio` shows it adds up over the accounts |
| Projections.StartBalanceOfPortfolio | abide/lib/projection.rb:8-15 | by default only account 1 is tracked; start balances add up over a split account list |
| Projections.WindowEnd | abide/lib/projection.rb:19 | the end date is the day before `start_date >> period_in_months`: its next day is the shifted start, so it lies in the shifted month, or is the last day of the month before when the shift lands on the 1st |
| Projections.ImpactCounts | abide/lib/projection.rb:34 | the group impact is the flow amount times (destination count minus source count) when source and destination differ, and minus the amount times the source count otherwise |
| Projections.InternalTransferHasNoImpact | abide/lib/projection.rb:32 | a transfer between two tracked accounts has zero impact |
| Projections.ExternalFlowImpact | abide/lib/projection.rb:33 | a flow leaving the group has impact minus its amount, one entering it plus its amount |
| Projections.Classify | abide/lib/projection.rb:42-47 | inflow exactly for positive impact, outflow exactly for negative |
| Projections.Walk | abide/lib/projection.rb:30-56 | every entry has a non-zero amount and a non-neutral type that matches its sign |
| Projections.WalkEntriesFromFlows | abide/lib/projection.rb:49-55 | every entry carries the date, description and impact of one walked flow |
| Projections.NonZero | abide/lib/projection.rb:37 | the flows the walk keeps: each flow with a non-zero impact, as often as it occurs, and no other |
| Projections.WalkFollowsNonZero | abide/lib/projection.rb:30-56 | one entry per kept flow, in flow order: entry `j` carries the date, description and impact of the `j`-th flow with non-zero impact |
| Projections.Impact | abide/lib/projection.rb:34 | the flow's net effect on the portfolio; `ImpactCounts` gives it in closed form |
| Projections.WalkBalances | abide/lib/projection.rb:27-52 | each balance is the previous one plus the entry's amount; the last is the start plus the sum of all impacts |
| Projections.WalkKeepsDateOrder | abide/lib/projection.rb:24-30 | walking date-sorted flows gives date-ordered entries |
| Projections.SkipsZeroImpact | abide/lib/projection.rb:37 | a zero-impact flow adds no entry and leaves the balance alone |
| Projections.SumImpactsPermutation | abide/lib/projection.rb:24 | reordering the flows does not change their total impact |
| Projections.SortByDate | abide/lib/projection.rb:24 | `sort_by(&:date)` returns a date-ordered permutation of the flows |
| Projections.Gathered | abide/lib/projection.rb:22-23 | every gathered flow is dated inside the window |
| Projections.Candidates | abide/lib/projection.rb:22-24 | the flows `build` walks are the gathered flows, permuted into date order |
| Projections.Build | abide/lib/projection.rb:18-59 | the method returns the walk of the date-sorted flows gathered from every rule over the window |
| Projections.RunningBalance | abide/lib/projection.rb:27-58 | the loop returns the walk of the given flows from the start balance |
| Projections.BuildClassifiesEntries | abide/lib/projection.rb:37-54 | every timeline entry has a non-zero amount and is inflow exactly when positive, outflow exactly when negative |
| Projections.BuildBalances | abide/lib/projection.rb:27-52 | balances run from the start balance, and the last is the start plus the total impact of all gathered flows |
| Projections.BuildDates | abide/lib/projection.rb:19-50 | timeline entries are in date order and dated within the window |
| ProjectionExamples.ThreeMonthWindow | abide/test_projection_script.rb:20-53 | three months from 2024-01-01 end on 2024-03-31 |
| ProjectionExamples.RentDates | abide/test_projection_script.rb:25-73 | rent on the 1st falls on 1 January, 1 February and 1 March 2024 |
| ProjectionExamples.RepairDates | abide/test_projection_script.rb:33-82 | the roof repair falls only on 2024-02-15 |
| ProjectionExamples.GymDates | abide/test_projection_script.rb:41-92 | the gym, ending 2024-03-01, falls on 5 January and 5 February only |
| ProjectionExamples.RentMovements | abide/test_projection_script.rb:25-73 | three rent movements of -500, each an expense described "Rent" |
| Todos.Todo.constructor | example_app/models/todo.rb:10-16 | the new todo carries the given id, title, description and completion state |
| Todos.Todo.ToggleComplete | example_app/models/todo.rb:54-60 | `completed?` flips |
| Todos.ToggleTwice | example_app/models/todo.rb:54-56 | toggling twice restores `completed?` |
| Todos.Todo.IsCompleted | example_app/models/todo.rb:58-60 | `completed?`; `ToggleComplete` flips it |
| Todos.SortByKey | example_app/models/todo.rb:30 | `sort_by` on `[completed ? 1 : 0, -id]` returns a permutation sorted by that key |
| Todos.SortGroupsNewestFirst | example_app/models/todo.rb:30 | with ids increasing, the sort lists incomplete todos newest first, then completed ones newest first |
| Todos.Incomplete | example_app/models/todo.rb:34 | exactly the incomplete todos, keeping increasing ids in increasing order |
| Todos.WithoutId | example_app/models/todo.rb:42 | exactly the todos with another id, keeping increasing ids; nothing is removed exactly when no todo has the id |
| Todos.FindIn | example_app/models/todo.rb:38 | a found todo is stored and has the id; none is found exactly when no todo has it |
| Todos.FindUnique | example_app/models/todo.rb:38 | with unique ids, the todo found under a stored todo's id is that todo |
| Todos.Matching | example_app/models/todo.rb:48-51 | exactly the todos whose lower-cased title or description contains the query, keeping increasing ids |
| Todos.RemovesOne | example_app/models/todo.rb:42 | with unique ids, deleting a present id removes exactly one todo |
| Todos.TodoStore.constructor | example_app/models/todo.rb:7-8 | the store starts empty with the counter at 1, and valid |
| Todos.TodoStore.Create | example_app/models/todo.rb:18-27 | a fresh incomplete todo with the old counter as id is appended, the counter grows by one, it is found under its id, and ids stay increasing |
| Todos.TodoStore.All | example_app/models/todo.rb:29-31 | a permutation of the store sorted by the key `[completed ? 1 : 0, -id]` |
| Todos.TodoStore.AllGroupsNewestFirst | example_app/models/todo.rb:29-31 | `all` is the reversed active todos followed by the reversed completed todos |
| Todos.TodoStore.Active | example_app/models/todo.rb:33-35 | exactly the incomplete todos, in creation order |
| Todos.TodoStore.Find | example_app/models/todo.rb:37-39 | a found todo is stored with the id; nil exactly when no todo has it |
| Todos.TodoStore.FindStored | example_app/models/todo.rb:37-39 | every stored todo is found under its own id |
| Todos.TodoStore.Delete | example_app/models/todo.rb:41-43 | exactly the todos with the id are removed, the rest keep their order, the counter is unchanged, and the result says whether anything was removed |
| Todos.TodoStore.Search | example_app/models/todo.rb:45-52 | nil or empty gives `all`; otherwise exactly the todos whose title or description contains the query ignoring case, in creation order |
| Todos.TodoStore.SearchIgnoresQueryCase | example_app/models/todo.rb:49-50 | a query and its lower-cased form find the same todos |

## Left out

- `Frequencies.Includes`: month and year rules need an `on` array, stated as the precondition `Matchable`. Without one, the source raises `NoMethodError` on nil for every date that passes `month_matches?`. A yearly rule with a month list returns false, without raising, for dates outside its months, so a yearly rule with `months: []` never raises and `projection_between` returns `[]` for it. `Matchable`, and with it `Projections.Build`'s precondition `RulesMatchable`, also excludes these rules; the model says nothing about them.
- `Projections.New`: the default `start_date: Date.today` is not modelled. Callers pass the start date.
- Ruby's `Date` switches to the Julian calendar before 1582-10-15. The model uses the proleptic Gregorian calendar throughout.
- `downcase` is modelled for ASCII letters only. Ruby also folds other Unicode letters.
- The `interval` field is stored but never consulted, as in the source.
- `Frequencies.NextOccurrence`: `Date.today`, the default for `after:`, is not modelled. Callers pass the date.
- `Todos.Todo.constructor`: the `created_at: Time.now` timestamp is not modelled.
- The seed calls at the end of `todo.rb` are not modelled. They run at load time.
- Amounts and balances are integers. The source uses Ruby numbers, and `value_for` returns the float `0.0` for a bystander; the model uses `0`.
- `tax_info` is a map from strings to strings. The source allows any hash.
- The ledger is a function from account id to balance. The SQLite-backed `abide/lib/ledger.rb` is not part of this model.
- `Projections.SortByDate`: Ruby's `sort_by` is not stable. The model uses a stable insertion sort. `BuildBalances` shows the final balance does not depend on this choice. Entries with equal dates may come out in a different order than in Ruby.
- `Projections.Build`: the walk over the sorted flows is a separate method, `RunningBalance`.
- `Windows.ExpansionComplete`: a matching date counts as materialised only when it lies within 1826 days of the window start or of an earlier materialised date. This is the scan bound of `next_occurrence`; a sparser rule may be missed by the source too.
- `abide/test_projection_script.rb` passes `recurring_movements:` to `Projection.new`, which accepts only `recurring_flows:`, and `Projection#build` calls `value_for`, which `Movement` lacks. The model proves the script's per-rule date and count expectations on `RecurringMovement#projection_between`, not through `build`.
- `Todos.TodoStore.Delete`: `reject!` returns nil or the array. The model returns whether anything was removed.
- `Todos.TodoStore.All`: Ruby's unstable `sort_by` is pinned to one order. With unique ids the key never ties, so the result is the same.
