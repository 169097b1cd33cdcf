/** The task store (`useTodoStore`): one list of tasks, replaced by every mutator,
    and three read-only queries over it. Time is an integer count of milliseconds;
    the moment an operation runs (`new Date()`) and the identifier it mints
    (`crypto.randomUUID()`) are parameters. */
module Todos {
  import opened Common

  /** Milliseconds in a day: `addDays(now, 3)` is read as `now + 3 * DayMs`. */
  const DayMs: int := 86_400_000

  /** How far ahead `getUpcomingTodos` looks. */
  const UpcomingWindowDays: int := 3

  datatype Todo = Todo(
    id: string,
    title: string,
    description: string,
    deadline: int,
    completed: bool,
    deadlineChanged: bool,     // set once the one-shot reschedule has been used
    createdAt: int,
    completedAt: Option<int>,  // absent while the task is open
    userId: string)            // '' when the task was added without an owner

  /** The `Partial<Todo>` handed to `updateTodo`: `None` is a field the caller left out.
      `completedAt` may be supplied as `undefined`, hence the nested option. */
  datatype TodoPatch = TodoPatch(
    id: Option<string>,
    title: Option<string>,
    description: Option<string>,
    deadline: Option<int>,
    completed: Option<bool>,
    deadlineChanged: Option<bool>,
    createdAt: Option<int>,
    completedAt: Option<Option<int>>,
    userId: Option<string>)

  /** The record returned by `getWeeklyStats`. */
  datatype WeeklyStats = WeeklyStats(totalTasks: nat, completedTasks: nat, completionRate: real)

  /** A task carries a completion time exactly when it is completed. */
  predicate Consistent(t: Todo)
  {
    t.completed <==> t.completedAt.Some?
  }

  predicate AllConsistent(todos: seq<Todo>)
  {
    forall i :: 0 <= i < |todos| ==> Consistent(todos[i])
  }

  /** A patch that touches neither the completion flag nor the completion time,
      such as the title/description/deadline patch the edit dialog sends. */
  predicate LeavesCompletionAlone(p: TodoPatch)
  {
    p.completed.None? && p.completedAt.None?
  }

  /** The task `addTodo` builds: open, never rescheduled, owned by `userId` or by ''.
      The argument may carry a completion time, which is copied as given even though the
      task is open, so the new task is consistent exactly when none is supplied. */
  function NewTodo(title: string, description: string, deadline: int, completedAt: Option<int>,
                   userId: Option<string>, id: string, now: int): (t: Todo)
    ensures !t.completed && !t.deadlineChanged
    ensures t.completedAt == completedAt
    ensures Consistent(t) <==> completedAt.None?
    ensures t.userId == (if userId.Some? then userId.value else "")
    ensures t.id == id && t.createdAt == now
    ensures t.title == title && t.description == description && t.deadline == deadline
  {
    Todo(id, title, description, deadline, false, false, now, completedAt,
         match userId case Some(u) => u case None => "")
  }

  /** One task after `toggleTodo` reached it at time `now`. */
  function Toggled(t: Todo, now: int): (u: Todo)
    ensures u.completed == !t.completed
    ensures Consistent(u)
    ensures u.completedAt == (if u.completed then Some(now) else None)
    ensures u.(completed := t.completed, completedAt := t.completedAt) == t
  {
    t.(completed := !t.completed, completedAt := if !t.completed then Some(now) else None)
  }

  /** `todos.map(...)` of `toggleTodo`: every task with identifier `id` toggled. */
  function ToggleAll(todos: seq<Todo>, id: string, now: int): (r: seq<Todo>)
    ensures |r| == |todos|
    ensures forall i :: 0 <= i < |r| ==> r[i].id == todos[i].id
    ensures forall i :: 0 <= i < |r| && todos[i].id == id ==> r[i] == Toggled(todos[i], now)
    ensures forall i :: 0 <= i < |r| && todos[i].id != id ==> r[i] == todos[i]
  {
    seq(|todos|, i requires 0 <= i < |todos| =>
      if todos[i].id == id then Toggled(todos[i], now) else todos[i])
  }

  /** `todos.map(...)` of `updateDeadline`: a task with identifier `id` takes the new
      deadline only if it has never been rescheduled, and is then marked as rescheduled. */
  function RescheduleAll(todos: seq<Todo>, id: string, newDeadline: int): (r: seq<Todo>)
    ensures |r| == |todos|
    ensures forall i :: 0 <= i < |r| ==> r[i].id == todos[i].id
    ensures forall i :: 0 <= i < |r| && todos[i].id == id && !todos[i].deadlineChanged ==>
              r[i] == todos[i].(deadline := newDeadline, deadlineChanged := true)
    ensures forall i :: 0 <= i < |r| && (todos[i].id != id || todos[i].deadlineChanged) ==>
              r[i] == todos[i]
  {
    seq(|todos|, i requires 0 <= i < |todos| =>
      if todos[i].id == id && !todos[i].deadlineChanged
      then todos[i].(deadline := newDeadline, deadlineChanged := true)
      else todos[i])
  }

  /** `{ ...todo, ...updates }`: the supplied fields replace the task's, the rest stay. */
  function ApplyPatch(t: Todo, p: TodoPatch): (u: Todo)
    ensures u.id == (if p.id.Some? then p.id.value else t.id)
    ensures u.title == (if p.title.Some? then p.title.value else t.title)
    ensures u.description == (if p.description.Some? then p.description.value else t.description)
    ensures u.deadline == (if p.deadline.Some? then p.deadline.value else t.deadline)
    ensures u.completed == (if p.completed.Some? then p.completed.value else t.completed)
    ensures u.deadlineChanged ==
              (if p.deadlineChanged.Some? then p.deadlineChanged.value else t.deadlineChanged)
    ensures u.createdAt == (if p.createdAt.Some? then p.createdAt.value else t.createdAt)
    ensures u.completedAt == (if p.completedAt.Some? then p.completedAt.value else t.completedAt)
    ensures u.userId == (if p.userId.Some? then p.userId.value else t.userId)
  {
    Todo(
      match p.id case Some(v) => v case None => t.id,
      match p.title case Some(v) => v case None => t.title,
      match p.description case Some(v) => v case None => t.description,
      match p.deadline case Some(v) => v case None => t.deadline,
      match p.completed case Some(v) => v case None => t.completed,
      match p.deadlineChanged case Some(v) => v case None => t.deadlineChanged,
      match p.createdAt case Some(v) => v case None => t.createdAt,
      match p.completedAt case Some(v) => v case None => t.completedAt,
      match p.userId case Some(v) => v case None => t.userId)
  }

  /** `todos.map(...)` of `updateTodo`: the patch lands on every task with identifier `id`,
      whatever its `deadlineChanged` flag says. */
  function PatchAll(todos: seq<Todo>, id: string, p: TodoPatch): (r: seq<Todo>)
    ensures |r| == |todos|
    ensures forall i :: 0 <= i < |r| && todos[i].id == id ==> r[i] == ApplyPatch(todos[i], p)
    ensures forall i :: 0 <= i < |r| && todos[i].id != id ==> r[i] == todos[i]
    ensures LeavesCompletionAlone(p) ==>
              forall i :: 0 <= i < |r| ==>
                r[i].completed == todos[i].completed && r[i].completedAt == todos[i].completedAt
  {
    seq(|todos|, i requires 0 <= i < |todos| =>
      if todos[i].id == id then ApplyPatch(todos[i], p) else todos[i])
  }

  predicate OwnedBy(t: Todo, userId: string)
  {
    t.userId == userId
  }

  /** `todos.filter(todo => todo.userId !== userId)` of `deleteTodosByUser`. */
  function WithoutOwner(todos: seq<Todo>, userId: string): (r: seq<Todo>)
    ensures IsSubsequence(r, todos)
    ensures forall t :: t in r <==> t in todos && t.userId != userId
    ensures forall t :: t in r ==> multiset(r)[t] == multiset(todos)[t]
  {
    var r := Filter(t => !OwnedBy(t, userId), todos);
    forall t ensures t in r <==> t in todos && t.userId != userId {
      FilterMembership(t => !OwnedBy(t, userId), todos, t);
    }
    r
  }

  /** The test `getUpcomingTodos` applies: open, and due within [now, now + 3 days]. */
  predicate IsUpcoming(t: Todo, now: int)
  {
    !t.completed && now <= t.deadline <= now + UpcomingWindowDays * DayMs
  }

  /** The test `getWeeklyStats` applies: created, or completed, inside the week. */
  predicate InWeek(t: Todo, weekStart: int, weekEnd: int)
  {
    (weekStart <= t.createdAt <= weekEnd) ||
    (t.completedAt.Some? && weekStart <= t.completedAt.value <= weekEnd)
  }

  /** `InWeek` for a fixed week, as the filter argument. */
  function InWeekOf(weekStart: int, weekEnd: int): Todo -> bool
  {
    t => InWeek(t, weekStart, weekEnd)
  }

  predicate IsCompleted(t: Todo)
  {
    t.completed
  }

  /** A part over a positive whole is at most one. */
  lemma RatioAtMostOne(part: real, whole: real)
    requires 0.0 <= part <= whole && whole > 0.0
    ensures 0.0 <= part / whole <= 1.0
  {
    var q := part / whole;
    assert q * whole == part;
    assert (1.0 - q) * whole == whole - part;
  }

  /** `totalTasks > 0 ? completedTasks / totalTasks : 0`. */
  function CompletionRate(completed: nat, total: nat): (q: real)
    requires completed <= total
    ensures total > 0 ==> q == (completed as real) / (total as real)
    ensures total == 0 ==> q == 0.0
    ensures 0.0 <= q <= 1.0
  {
    if total > 0 then
      RatioAtMostOne(completed as real, total as real);
      completed as real / total as real
    else 0.0
  }

  /** The statistics of one list of tasks for the week [weekStart, weekEnd]: the tasks
      created or completed in it, how many of those are completed, and the rate. */
  function StatsOf(todos: seq<Todo>, weekStart: int, weekEnd: int): (s: WeeklyStats)
    ensures s.completedTasks <= s.totalTasks <= |todos|
    ensures s.totalTasks > 0 ==> s.completionRate == (s.completedTasks as real) / (s.totalTasks as real)
    ensures s.totalTasks == 0 ==> s.completionRate == 0.0 && s.completedTasks == 0
    ensures s.totalTasks == 0 <==> forall t :: t in todos ==> !InWeek(t, weekStart, weekEnd)
    ensures s.totalTasks == |Filter(InWeekOf(weekStart, weekEnd), todos)|
    ensures s.completedTasks == |Filter(IsCompleted, Filter(InWeekOf(weekStart, weekEnd), todos))|
  {
    var inWeek := InWeekOf(weekStart, weekEnd);
    var week := Filter(inWeek, todos);
    var total := Count(inWeek, todos);
    var done := Count(IsCompleted, week);
    var rate := CompletionRate(done, total);
    WeeklyStats(total, done, rate)
  }

  /** Tasks neither created nor completed in the week do not move the statistics. */
  lemma StatsIgnoreOtherWeeks(todos: seq<Todo>, t: Todo, weekStart: int, weekEnd: int)
    requires !InWeek(t, weekStart, weekEnd)
    ensures StatsOf(todos + [t], weekStart, weekEnd) == StatsOf(todos, weekStart, weekEnd)
  {
    var inWeek := InWeekOf(weekStart, weekEnd);
    FilterAppend(inWeek, todos, [t]);
    FilterSingleton(inWeek, t);
    assert Filter(inWeek, todos + [t]) == Filter(inWeek, todos);
  }

  /** Any task in the week adds one to the total, and one to the completed count exactly
      when its flag says completed: an open task created in the week, or one created in
      it and completed later, is counted by its flag. */
  lemma StatsCountInWeek(todos: seq<Todo>, t: Todo, weekStart: int, weekEnd: int)
    requires InWeek(t, weekStart, weekEnd)
    ensures StatsOf(todos + [t], weekStart, weekEnd).totalTasks ==
              StatsOf(todos, weekStart, weekEnd).totalTasks + 1
    ensures StatsOf(todos + [t], weekStart, weekEnd).completedTasks ==
              StatsOf(todos, weekStart, weekEnd).completedTasks + (if t.completed then 1 else 0)
  {
    var inWeek := InWeekOf(weekStart, weekEnd);
    FilterAppend(inWeek, todos, [t]);
    FilterSingleton(inWeek, t);
    var week := Filter(inWeek, todos);
    FilterAppend(IsCompleted, week, [t]);
    FilterSingleton(IsCompleted, t);
  }


  class TodoStore {
    var todos: seq<Todo>

    /** The store as first created: no tasks. */
    constructor ()
      ensures todos == []
    {
      todos := [];
    }

    /** `addTodo(todo, userId = '')`: one new open task at the end of the list. */
    method AddTodo(title: string, description: string, deadline: int, completedAt: Option<int>,
                   userId: Option<string>, freshId: string, now: int)
      modifies this
      ensures todos == old(todos) +
                       [NewTodo(title, description, deadline, completedAt, userId, freshId, now)]
      ensures AllConsistent(old(todos)) ==> (AllConsistent(todos) <==> completedAt.None?)
    {
      var t := NewTodo(title, description, deadline, completedAt, userId, freshId, now);
      todos := todos + [t];
      assert todos[|todos| - 1] == t;
    }

    /** `toggleTodo(id)`: flips completion of the task(s) with that identifier. */
    method ToggleTodo(id: string, now: int)
      modifies this
      ensures todos == ToggleAll(old(todos), id, now)
      ensures AllConsistent(old(todos)) ==> AllConsistent(todos)
    {
      todos := ToggleAll(todos, id, now);
    }

    /** `updateDeadline(id, newDeadline)`: the one-shot reschedule. */
    method UpdateDeadline(id: string, newDeadline: int)
      modifies this
      ensures todos == RescheduleAll(old(todos), id, newDeadline)
      ensures AllConsistent(old(todos)) ==> AllConsistent(todos)
    {
      todos := RescheduleAll(todos, id, newDeadline);
    }

    /** `updateTodo(id, updates)`: merges the supplied fields into the matching task(s). */
    method UpdateTodo(id: string, updates: TodoPatch)
      modifies this
      ensures todos == PatchAll(old(todos), id, updates)
      ensures AllConsistent(old(todos)) && LeavesCompletionAlone(updates) ==> AllConsistent(todos)
    {
      todos := PatchAll(todos, id, updates);
    }

    /** `deleteTodosByUser(userId)`. */
    method DeleteTodosByUser(userId: string)
      modifies this
      ensures todos == WithoutOwner(old(todos), userId)
      ensures AllConsistent(old(todos)) ==> AllConsistent(todos)
    {
      todos := WithoutOwner(todos, userId);
    }

    /** `getUpcomingTodos()`: the open tasks due between now and three days from now,
        in list order. */
    function GetUpcomingTodos(now: int): (r: seq<Todo>)
      reads this
      ensures IsSubsequence(r, todos)
      ensures forall t :: t in r <==> t in todos && !t.completed &&
                                      now <= t.deadline <= now + UpcomingWindowDays * DayMs
      ensures forall t :: t in r ==> multiset(r)[t] == multiset(todos)[t]
    {
      var r := Filter(t => IsUpcoming(t, now), todos);
      forall t ensures t in r <==> t in todos && IsUpcoming(t, now) {
        FilterMembership(t => IsUpcoming(t, now), todos, t);
      }
      r
    }

    /** `getCompletedTodos()`: the completed tasks, in list order. */
    function GetCompletedTodos(): (r: seq<Todo>)
      reads this
      ensures IsSubsequence(r, todos)
      ensures forall t :: t in r <==> t in todos && t.completed
      ensures forall t :: t in r ==> multiset(r)[t] == multiset(todos)[t]
    {
      var r := Filter(IsCompleted, todos);
      forall t ensures t in r <==> t in todos && t.completed {
        FilterMembership(IsCompleted, todos, t);
      }
      r
    }

    /** `getWeeklyStats()` for the week [weekStart, weekEnd] (computed by the caller from
        `startOfWeek` / `endOfWeek` of seven days ago). */
    function GetWeeklyStats(weekStart: int, weekEnd: int): (s: WeeklyStats)
      reads this
      ensures s.completedTasks <= s.totalTasks <= |todos|
      ensures s.totalTasks > 0 ==> s.completionRate == (s.completedTasks as real) / (s.totalTasks as real)
      ensures s.totalTasks == 0 ==> s.completionRate == 0.0
      ensures s.totalTasks == 0 <==> forall t :: t in todos ==> !InWeek(t, weekStart, weekEnd)
      ensures s.totalTasks == |Filter(InWeekOf(weekStart, weekEnd), todos)|
      ensures s.completedTasks == |Filter(IsCompleted, Filter(InWeekOf(weekStart, weekEnd), todos))|
    {
      StatsOf(todos, weekStart, weekEnd)
    }
  }

  /** Rescheduling is one-shot: once a task has been moved, any further date is ignored. */
  lemma RescheduleOnce(todos: seq<Todo>, id: string, d1: int, d2: int)
    ensures RescheduleAll(RescheduleAll(todos, id, d1), id, d2) == RescheduleAll(todos, id, d1)
  {
    var once := RescheduleAll(todos, id, d1);
    var twice := RescheduleAll(once, id, d2);
    forall i | 0 <= i < |once| ensures twice[i] == once[i] {
      if once[i].id == id {
        assert once[i].deadlineChanged;
      }
    }
  }

  /** Toggling an open task twice gives back the very same task list. */
  lemma ToggleTwiceRestoresOpen(todos: seq<Todo>, id: string, now1: int, now2: int)
    requires forall i :: 0 <= i < |todos| && todos[i].id == id ==>
               !todos[i].completed && todos[i].completedAt == None
    ensures ToggleAll(ToggleAll(todos, id, now1), id, now2) == todos
  {
    var twice := ToggleAll(ToggleAll(todos, id, now1), id, now2);
    forall i | 0 <= i < |todos| ensures twice[i] == todos[i] {
    }
  }

  /** Deleting by an owner that owns no task leaves the list as it was. */
  lemma {:induction false} DeleteAbsentOwner(todos: seq<Todo>, userId: string)
    requires forall t :: t in todos ==> t.userId != userId
    ensures WithoutOwner(todos, userId) == todos
  {
    FilterKeepsAll(t => !OwnedBy(t, userId), todos);
  }

  /** Deleting by owner never touches the tasks of anyone else, nor their order. */
  lemma DeleteKeepsOthers(a: seq<Todo>, t: Todo, b: seq<Todo>, userId: string)
    requires t.userId != userId
    ensures WithoutOwner(a + [t] + b, userId) == WithoutOwner(a, userId) + [t] + WithoutOwner(b, userId)
  {
    var keep := t => !OwnedBy(t, userId);
    FilterAppend(keep, a + [t], b);
    FilterAppend(keep, a, [t]);
    FilterSingleton(keep, t);
  }
}
