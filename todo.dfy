/**
 * The example application's in-memory Todo table. Each `Todo` is an object
 * whose `completed` flag is toggled in place; the class-level `@@todos`
 * array and `@@next_id` counter become the fields of one `TodoStore`
 * object, whose methods append to and filter that array.
 */
module Todos {
  import opened Wrappers
  import opened Text

  class Todo {
    const id: int
    const title: string
    const description: Option<string>
    var completed: bool

    /** `Todo.new`; the creation timestamp is not modelled. */
    constructor (id: int, title: string, description: Option<string> := None, completed: bool := false)
      ensures this.id == id && this.title == title && this.description == description
      ensures this.completed == completed
    {
      this.id := id;
      this.title := title;
      this.description := description;
      this.completed := completed;
    }

    /** `completed?` */
    predicate IsCompleted()
      reads this
    {
      completed
    }

    /** `toggle_complete!` flips the flag and touches nothing else. */
    method ToggleComplete()
      modifies this
      ensures IsCompleted() == !old(IsCompleted())
    {
      completed := !completed;
    }
  }

  /** Toggling a todo twice restores its completion state. */
  method ToggleTwice(t: Todo)
    modifies t
    ensures t.IsCompleted() == old(t.IsCompleted())
  {
    t.ToggleComplete();
    t.ToggleComplete();
  }

  /** The ids increase strictly along the sequence, as they do in creation order. */
  predicate IdsIncreasing(s: seq<Todo>) {
    forall i, j :: 0 <= i < j < |s| ==> s[i].id < s[j].id
  }

  /** The first part of the sort key of `all`: incomplete todos rank 0, completed ones 1. */
  function Rank(t: Todo): int
    reads t
  {
    if t.completed then 1 else 0
  }

  /** `[rank(a), -a.id] <= [rank(b), -b.id]`, the order `all` sorts by. */
  predicate KeyAtMost(a: Todo, b: Todo)
    reads a, b
  {
    Rank(a) < Rank(b) || (Rank(a) == Rank(b) && a.id >= b.id)
  }

  predicate SortedByKey(s: seq<Todo>)
    reads s
  {
    forall i, j :: 0 <= i < j < |s| ==> KeyAtMost(s[i], s[j])
  }

  function InsertByKey(x: Todo, s: seq<Todo>): (r: seq<Todo>)
    reads x, s
    requires SortedByKey(s)
    ensures SortedByKey(r)
    ensures forall i :: 0 <= i < |r| ==> r[i] == x || r[i] in s
  {
    if s == [] || KeyAtMost(x, s[0]) then [x] + s
    else
      var rest := InsertByKey(x, s[1..]);
      assert s == [s[0]] + s[1..];
      assert forall i :: 0 <= i < |rest| ==> KeyAtMost(s[0], rest[i]) by {
        forall i | 0 <= i < |rest| ensures KeyAtMost(s[0], rest[i]) {
          if rest[i] != x {
            var k :| 0 <= k < |s[1..]| && s[1..][k] == rest[i];
            assert s[k + 1] == rest[i];
          }
        }
      }
      TailMembers(s);
      [s[0]] + rest
  }

  /** Insertion adds `x` to the todos and loses none. */
  lemma {:induction false} InsertByKeyPermutes(x: Todo, s: seq<Todo>)
    requires SortedByKey(s)
    ensures multiset(InsertByKey(x, s)) == multiset(s) + multiset{x}
  {
    if s != [] && !KeyAtMost(x, s[0]) {
      assert SortedByKey(s[1..]);
      InsertByKeyPermutes(x, s[1..]);
      assert s == [s[0]] + s[1..];
    }
  }

  /** `sort_by { |t| [t.completed ? 1 : 0, -t.id] }` */
  function SortByKey(s: seq<Todo>): (r: seq<Todo>)
    reads s
    ensures SortedByKey(r)
    ensures multiset(r) == multiset(s)
    ensures forall i :: 0 <= i < |r| ==> r[i] in s
  {
    if s == [] then []
    else
      assert s == [s[0]] + s[1..];
      TailMembers(s);
      InsertByKeyPermutes(s[0], SortByKey(s[1..]));
      InsertByKey(s[0], SortByKey(s[1..]))
  }

  function Reverse(s: seq<Todo>): (r: seq<Todo>)
    ensures |r| == |s|
    ensures forall i :: 0 <= i < |s| ==> r[i] == s[|s| - 1 - i]
  {
    if s == [] then [] else Reverse(s[1..]) + [s[0]]
  }

  /** `reject(&:completed)`: the incomplete todos, in their order. */
  function Incomplete(s: seq<Todo>): (r: seq<Todo>)
    reads s
    ensures forall i :: 0 <= i < |r| ==> r[i] in s && !r[i].completed
    ensures forall i :: 0 <= i < |s| && !s[i].completed ==> s[i] in r
    ensures IdsIncreasing(s) ==> IdsIncreasing(r)
  {
    if s == [] then []
    else
      var rest := Incomplete(s[1..]);
      TailMembers(s);
      if s[0].completed then rest
      else
        FirstBelowRest(s, rest);
        [s[0]] + rest
  }

  /** The completed todos, in their order. */
  function Complete(s: seq<Todo>): (r: seq<Todo>)
    reads s
    ensures forall i :: 0 <= i < |r| ==> r[i] in s && r[i].completed
    ensures forall i :: 0 <= i < |s| && s[i].completed ==> s[i] in r
  {
    if s == [] then []
    else
      var rest := Complete(s[1..]);
      TailMembers(s);
      if s[0].completed then [s[0]] + rest else rest
  }

  /** `reject { |t| t.id == id }`: every todo but those with that id, in their order. */
  function WithoutId(s: seq<Todo>, id: int): (r: seq<Todo>)
    ensures forall i :: 0 <= i < |r| ==> r[i] in s && r[i].id != id
    ensures forall i :: 0 <= i < |s| && s[i].id != id ==> s[i] in r
    ensures |r| <= |s|
    ensures |r| == |s| <==> forall i :: 0 <= i < |s| ==> s[i].id != id
    ensures IdsIncreasing(s) ==> IdsIncreasing(r)
  {
    if s == [] then []
    else
      var rest := WithoutId(s[1..], id);
      TailMembers(s);
      TailShift(s);
      if s[0].id == id then rest
      else
        FirstBelowRest(s, rest);
        [s[0]] + rest
  }

  /** `find { |t| t.id == id }`: the first todo with that id, if any. */
  function FindIn(s: seq<Todo>, id: int): (r: Option<Todo>)
    ensures r.Some? ==> r.value in s && r.value.id == id
    ensures r.None? <==> forall i :: 0 <= i < |s| ==> s[i].id != id
  {
    if s == [] then None
    else if s[0].id == id then Some(s[0])
    else
      TailMembers(s);
      FindIn(s[1..], id)
  }

  /** Every element of a non-empty sequence is its head or an element of its tail. */
  lemma TailMembers(s: seq<Todo>)
    requires s != []
    ensures forall i :: 0 <= i < |s[1..]| ==> s[1..][i] in s
    ensures forall i :: 0 < i < |s| ==> s[i] in s[1..]
  {
    forall i | 0 < i < |s| ensures s[i] in s[1..] {
      assert s[1..][i - 1] == s[i];
    }
  }

  /** In a sequence with increasing ids, the head's id is below those of a sub-selection of the tail. */
  lemma FirstBelowRest(s: seq<Todo>, rest: seq<Todo>)
    requires s != [] && forall i :: 0 <= i < |rest| ==> rest[i] in s[1..]
    requires IdsIncreasing(s[1..]) ==> IdsIncreasing(rest)
    ensures IdsIncreasing(s) ==> IdsIncreasing([s[0]] + rest)
  {
    if IdsIncreasing(s) {
      assert IdsIncreasing(s[1..]) by {
        forall i, j | 0 <= i < j < |s[1..]| ensures s[1..][i].id < s[1..][j].id {
          assert s[1..][i] == s[i + 1] && s[1..][j] == s[j + 1];
        }
      }
      forall k | 0 <= k < |rest| ensures s[0].id < rest[k].id {
        var j :| 0 <= j < |s[1..]| && s[1..][j] == rest[k];
        assert s[j + 1] == rest[k];
      }
    }
  }

  /** With unique ids, `find` returns the one todo carrying the id. */
  lemma FindUnique(s: seq<Todo>, t: Todo)
    requires IdsIncreasing(s) && t in s
    ensures FindIn(s, t.id) == Some(t)
  {
    var r := FindIn(s, t.id);
    var i :| 0 <= i < |s| && s[i] == r.value;
    var k :| 0 <= k < |s| && s[k] == t;
    assert i == k;
  }

  /** A todo matches a lower-cased query through its title or its description. */
  predicate MatchesQuery(t: Todo, q: string) {
    Contains(Lower(t.title), q) || (t.description.Some? && Contains(Lower(t.description.value), q))
  }

  /** The `select` of `search`: the matching todos, in their order. */
  function Matching(s: seq<Todo>, q: string): (r: seq<Todo>)
    ensures forall i :: 0 <= i < |r| ==> r[i] in s && MatchesQuery(r[i], q)
    ensures forall i :: 0 <= i < |s| && MatchesQuery(s[i], q) ==> s[i] in r
    ensures IdsIncreasing(s) ==> IdsIncreasing(r)
  {
    if s == [] then []
    else
      var rest := Matching(s[1..], q);
      TailMembers(s);
      if MatchesQuery(s[0], q) then
        FirstBelowRest(s, rest);
        [s[0]] + rest
      else rest
  }

  /** Inserting a todo that sorts after every element of `a` and before `b` places it between them. */
  lemma InsertBetween(x: Todo, a: seq<Todo>, b: seq<Todo>)
    requires SortedByKey(a + b)
    requires forall i :: 0 <= i < |a| ==> !KeyAtMost(x, a[i])
    requires b == [] || KeyAtMost(x, b[0])
    ensures InsertByKey(x, a + b) == a + [x] + b
  {
    var s := a + b;
    assert s[..|a|] == a && s[|a|..] == b;
    InsertAt(x, s, |a|);
  }

  /** The same, with the place given as an index into the sorted sequence. */
  lemma {:induction false} InsertAt(x: Todo, s: seq<Todo>, k: nat)
    requires SortedByKey(s) && k <= |s|
    requires forall i :: 0 <= i < k ==> !KeyAtMost(x, s[i])
    requires k == |s| || KeyAtMost(x, s[k])
    ensures InsertByKey(x, s) == s[..k] + [x] + s[k..]
    decreases k
  {
    if k == 0 {
      assert s[..0] + [x] + s[0..] == [x] + s;
    } else {
      InsertByKeyStep(x, s);
      TailShift(s);
      InsertAt(x, s[1..], k - 1);
      SliceSplit(s, x, k);
    }
  }

  lemma SliceSplit(s: seq<Todo>, x: Todo, k: nat)
    requires 0 < k <= |s|
    ensures s[..k] + [x] + s[k..] == [s[0]] + (s[1..][..k - 1] + [x] + s[1..][k - 1..])
  {
    assert s[..k] == [s[0]] + s[1..][..k - 1];
    assert s[k..] == s[1..][k - 1..];
  }

  /** Insertion passes over a head that sorts before the inserted todo. */
  lemma InsertByKeyStep(x: Todo, s: seq<Todo>)
    requires s != [] && SortedByKey(s) && !KeyAtMost(x, s[0])
    ensures SortedByKey(s[1..])
    ensures InsertByKey(x, s) == [s[0]] + InsertByKey(x, s[1..])
  {
    SortedTail(s);
  }

  lemma SortedTail(s: seq<Todo>)
    requires s != [] && SortedByKey(s)
    ensures SortedByKey(s[1..])
  {
    forall i, j | 0 <= i < j < |s[1..]| ensures KeyAtMost(s[1..][i], s[1..][j]) {
      assert s[1..][i] == s[i + 1] && s[1..][j] == s[j + 1];
    }
  }

  /** The members of both groups of a tail whose ids all exceed that of `x`. */
  lemma GroupMembers(x: Todo, rest: seq<Todo>)
    requires forall i :: 0 <= i < |rest| ==> x.id < rest[i].id
    ensures var a := Reverse(Incomplete(rest));
      forall i :: 0 <= i < |a| ==> !a[i].completed && x.id < a[i].id
    ensures var b := Reverse(Complete(rest));
      forall i :: 0 <= i < |b| ==> b[i].completed && x.id < b[i].id
  {
    var inc, com := Incomplete(rest), Complete(rest);
    MembersAbove(x, rest, inc);
    ReversedAbove(x, inc, false);
    MembersAbove(x, rest, com);
    ReversedAbove(x, com, true);
  }

  /** Elements drawn from `rest` have ids above that of `x` when all of `rest` does. */
  lemma MembersAbove(x: Todo, rest: seq<Todo>, sub: seq<Todo>)
    requires forall i :: 0 <= i < |rest| ==> x.id < rest[i].id
    requires forall i :: 0 <= i < |sub| ==> sub[i] in rest
    ensures forall i :: 0 <= i < |sub| ==> x.id < sub[i].id
  {
    forall i | 0 <= i < |sub| ensures x.id < sub[i].id {
      var j :| 0 <= j < |rest| && rest[j] == sub[i];
    }
  }

  /** Reversal keeps a property every element has. */
  lemma ReversedAbove(x: Todo, s: seq<Todo>, done: bool)
    requires forall i :: 0 <= i < |s| ==> s[i].completed == done && x.id < s[i].id
    ensures var r := Reverse(s);
      forall i :: 0 <= i < |r| ==> r[i].completed == done && x.id < r[i].id
  {
    var r := Reverse(s);
    forall i | 0 <= i < |r| ensures r[i].completed == done && x.id < r[i].id {
      assert r[i] == s[|s| - 1 - i];
    }
  }

  /** An incomplete todo older than the rest goes last among the incomplete ones. */
  lemma {:induction false} IncompleteHeadStep(x: Todo, rest: seq<Todo>)
    requires !x.completed && forall i :: 0 <= i < |rest| ==> x.id < rest[i].id
    requires SortByKey(rest) == Reverse(Incomplete(rest)) + Reverse(Complete(rest))
    ensures SortByKey([x] + rest) == Reverse(Incomplete([x] + rest)) + Reverse(Complete([x] + rest))
  {
    var a, b := Reverse(Incomplete(rest)), Reverse(Complete(rest));
    assert SortedByKey(a + b);
    GroupMembers(x, rest);
    InsertBetween(x, a, b);
    GroupsCons(x, rest);
    SortByKeyCons(x, rest);
    ReverseCons(x, Incomplete(rest));
  }

  /** Putting a todo in front adds it to the front of its own group and leaves the other group alone. */
  lemma GroupsCons(x: Todo, rest: seq<Todo>)
    ensures Incomplete([x] + rest) == if x.completed then Incomplete(rest) else [x] + Incomplete(rest)
    ensures Complete([x] + rest) == if x.completed then [x] + Complete(rest) else Complete(rest)
  {
    assert ([x] + rest)[0] == x && ([x] + rest)[1..] == rest;
  }

  /** Sorting a todo in front of others inserts it into the sorted others. */
  lemma SortByKeyCons(x: Todo, rest: seq<Todo>)
    ensures SortByKey([x] + rest) == InsertByKey(x, SortByKey(rest))
  {
    assert ([x] + rest)[0] == x && ([x] + rest)[1..] == rest;
  }

  lemma ReverseCons(x: Todo, t: seq<Todo>)
    ensures Reverse([x] + t) == Reverse(t) + [x]
  {
    assert ([x] + t)[0] == x && ([x] + t)[1..] == t;
  }

  /** A completed todo older than all others is inserted last. */
  lemma CompletedSortsLast(x: Todo, a: seq<Todo>, b: seq<Todo>)
    requires x.completed
    requires forall i :: 0 <= i < |a| ==> !a[i].completed
    requires forall i :: 0 <= i < |b| ==> b[i].completed && x.id < b[i].id
    requires SortedByKey(a + b)
    ensures InsertByKey(x, a + b) == a + (b + [x])
  {
    forall i | 0 <= i < |a + b| ensures !KeyAtMost(x, (a + b)[i]) {
      if i < |a| {
        assert (a + b)[i] == a[i];
      } else {
        assert (a + b)[i] == b[i - |a|];
      }
    }
    InsertBetween(x, a + b, []);
    assert a + b + [] == a + b;
    assert a + b + [x] + [] == a + (b + [x]);
  }

  /** A completed todo older than the rest goes last of all. */
  lemma {:induction false} CompleteHeadStep(x: Todo, rest: seq<Todo>)
    requires x.completed && forall i :: 0 <= i < |rest| ==> x.id < rest[i].id
    requires SortByKey(rest) == Reverse(Incomplete(rest)) + Reverse(Complete(rest))
    ensures SortByKey([x] + rest) == Reverse(Incomplete([x] + rest)) + Reverse(Complete([x] + rest))
  {
    var a, b := Reverse(Incomplete(rest)), Reverse(Complete(rest));
    GroupMembers(x, rest);
    GroupsCons(x, rest);
    SortByKeyCons(x, rest);
    ReverseCons(x, Complete(rest));
    CompletedSortsLast(x, a, b);
  }

  /**
   * In a store whose ids grow in creation order, `all` lists the incomplete
   * todos newest first, then the completed ones newest first.
   */
  lemma {:induction false} SortGroupsNewestFirst(s: seq<Todo>)
    requires IdsIncreasing(s)
    ensures SortByKey(s) == Reverse(Incomplete(s)) + Reverse(Complete(s))
  {
    if s != [] {
      var x, rest := s[0], s[1..];
      assert s == [x] + rest;
      TailIdsIncreasing(s);
      SortGroupsNewestFirst(rest);
      if x.completed {
        CompleteHeadStep(x, rest);
      } else {
        IncompleteHeadStep(x, rest);
      }
    }
  }

  /** The tail of a sequence with increasing ids has increasing ids, all above the head's. */
  lemma TailIdsIncreasing(s: seq<Todo>)
    requires s != [] && IdsIncreasing(s)
    ensures IdsIncreasing(s[1..])
    ensures forall i :: 0 <= i < |s[1..]| ==> s[0].id < s[1..][i].id
  {
    TailShift(s);
  }

  /** The class-level `@@todos` array and `@@next_id` counter. */
  class TodoStore {
    var todos: seq<Todo>
    var nextId: int

    /** Ids are positive, below the counter, and increase in creation order. */
    predicate Valid()
      reads this
    {
      1 <= nextId && IdsIncreasing(todos) && forall i :: 0 <= i < |todos| ==> 1 <= todos[i].id < nextId
    }

    /** The state at load time: no todos, and the counter at 1. */
    constructor ()
      ensures Valid() && todos == [] && nextId == 1
    {
      todos := [];
      nextId := 1;
    }

    /** `Todo.create`: a fresh, incomplete todo under the next id, appended to the store. */
    method Create(title: string, description: Option<string> := None) returns (todo: Todo)
      requires Valid()
      modifies this
      ensures Valid()
      ensures fresh(todo) && todo.id == old(nextId) && !todo.completed
      ensures todo.title == title && todo.description == description
      ensures todos == old(todos) + [todo] && nextId == old(nextId) + 1
      ensures Find(todo.id) == Some(todo)
    {
      todo := new Todo(nextId, title, description);
      nextId := nextId + 1;
      todos := todos + [todo];
      FindUnique(todos, todo);
    }

    /** `Todo.all`: every todo, incomplete before completed, newest first within each group. */
    function All(): (r: seq<Todo>)
      reads this, todos
      ensures multiset(r) == multiset(todos)
      ensures SortedByKey(r)
    {
      SortByKey(todos)
    }

    /** With ids in creation order, `all` is each group of the store reversed. */
    lemma AllGroupsNewestFirst()
      requires Valid()
      ensures All() == Reverse(Active()) + Reverse(Complete(todos))
    {
      SortGroupsNewestFirst(todos);
    }

    /** `Todo.active`: the incomplete todos, in creation order. */
    function Active(): (r: seq<Todo>)
      reads this, todos
      ensures forall i :: 0 <= i < |r| ==> r[i] in todos && !r[i].IsCompleted()
      ensures forall i :: 0 <= i < |todos| && !todos[i].IsCompleted() ==> todos[i] in r
      ensures Valid() ==> IdsIncreasing(r)
    {
      Incomplete(todos)
    }

    /** `Todo.find`: the todo with that id, or none. */
    function Find(id: int): (r: Option<Todo>)
      reads this
      ensures r.Some? ==> r.value in todos && r.value.id == id
      ensures r.None? <==> forall i :: 0 <= i < |todos| ==> todos[i].id != id
    {
      FindIn(todos, id)
    }

    /** Every stored todo is found under its own id. */
    lemma FindStored(t: Todo)
      requires Valid() && t in todos
      ensures Find(t.id) == Some(t)
    {
      FindUnique(todos, t);
    }

    /**
     * `Todo.delete`: drops the todos with that id and keeps the rest in
     * order; `found` is whether `reject!` removed anything.
     */
    method Delete(id: int) returns (found: bool)
      requires Valid()
      modifies this
      ensures Valid() && nextId == old(nextId)
      ensures forall t :: t in todos <==> t in old(todos) && t.id != id
      ensures IdsIncreasing(todos)
      ensures found <==> exists i :: 0 <= i < |old(todos)| && old(todos)[i].id == id
      ensures found ==> |todos| == |old(todos)| - 1
      ensures !found ==> todos == old(todos)
      ensures Find(id) == None
    {
      var before := todos;
      todos := WithoutId(todos, id);
      found := |todos| != |before|;
      if found {
        RemovesOne(before, id);
      } else {
        NothingRemoved(before, id);
      }
    }

    /**
     * `Todo.search`: everything, in the order of `all`, for a missing or
     * empty query; otherwise the todos whose title or description contains
     * the query ignoring case, in creation order.
     */
    function Search(query: Option<string>): (r: seq<Todo>)
      reads this, todos
      ensures query.None? || query.value == [] ==> r == All()
      ensures query.Some? && query.value != [] ==>
                (forall i :: 0 <= i < |r| ==> r[i] in todos && MatchesQuery(r[i], Lower(query.value))) &&
                (forall i :: 0 <= i < |todos| && MatchesQuery(todos[i], Lower(query.value)) ==> todos[i] in r)
      ensures query.Some? && query.value != [] && Valid() ==> IdsIncreasing(r)
    {
      if query.None? || query.value == [] then All() else Matching(todos, Lower(query.value))
    }

    /** The case of the query does not change what `search` finds. */
    lemma SearchIgnoresQueryCase(q: string)
      ensures Search(Some(q)) == Search(Some(Lower(q)))
    {
      LowerIdempotent(q);
    }
  }

  /** With unique ids, removing an id that occurs removes exactly one todo. */
  lemma {:induction false} RemovesOne(s: seq<Todo>, id: int)
    requires IdsIncreasing(s) && exists i :: 0 <= i < |s| && s[i].id == id
    ensures |WithoutId(s, id)| == |s| - 1
  {
    var k :| 0 <= k < |s| && s[k].id == id;
    TailShift(s);
    if k == 0 {
      assert forall i :: 0 <= i < |s[1..]| ==> s[1..][i].id != id;
      assert |WithoutId(s[1..], id)| == |s[1..]|;
    } else {
      assert s[1..][k - 1].id == id;
      assert IdsIncreasing(s[1..]);
      RemovesOne(s[1..], id);
    }
  }

  /** Removing an id that does not occur leaves the todos as they were. */
  lemma {:induction false} NothingRemoved(s: seq<Todo>, id: int)
    requires forall i :: 0 <= i < |s| ==> s[i].id != id
    ensures WithoutId(s, id) == s
  {
    if s != [] {
      TailShift(s);
      NothingRemoved(s[1..], id);
      assert s == [s[0]] + s[1..];
    }
  }

  /** The tail of a sequence is the sequence shifted by one. */
  lemma TailShift(s: seq<Todo>)
    requires s != []
    ensures forall i :: 0 <= i < |s[1..]| ==> s[1..][i] == s[i + 1]
  {
  }

  /** Lower-casing twice is lower-casing once. */
  lemma LowerIdempotent(s: string)
    ensures Lower(Lower(s)) == Lower(s)
  {
    assert forall i :: 0 <= i < |s| ==> LowerChar(LowerChar(s[i])) == LowerChar(s[i]);
  }
}
