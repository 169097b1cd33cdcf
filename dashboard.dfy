/** The task page: the order in which it lists tasks, the "days left" label, which
    controls it offers on a task, and the form that adds a task. */
module Dashboard {
  import opened Common
  import opened Todos

  /** The comparator handed to `sort`: open tasks first, then by deadline. Negative
      means `a` goes first. */
  function CompareTodos(a: Todo, b: Todo): (c: int)
    ensures c < 0 <==> (!a.completed && b.completed) ||
                       (a.completed == b.completed && a.deadline < b.deadline)
    ensures c == 0 <==> a.completed == b.completed && a.deadline == b.deadline
  {
    if a.completed != b.completed then (if a.completed then 1 else -1)
    else a.deadline - b.deadline
  }

  /** Listed in display order: no pair the comparator would swap. */
  ghost predicate InDisplayOrder(s: seq<Todo>)
  {
    forall i, j :: 0 <= i < j < |s| ==> CompareTodos(s[i], s[j]) <= 0
  }

  /** The comparator is antisymmetric in sign: if `a` does not go first, `b` may. */
  lemma CompareFlips(a: Todo, b: Todo)
    ensures CompareTodos(a, b) > 0 ==> CompareTodos(b, a) < 0
  {
  }

  /** A task that may go before every task of a list in display order may head it. */
  lemma {:induction false} PrependInOrder(a: Todo, s: seq<Todo>)
    requires InDisplayOrder(s)
    requires forall x :: x in s ==> CompareTodos(a, x) <= 0
    ensures InDisplayOrder([a] + s)
  {
    var r := [a] + s;
    forall i, j | 0 <= i < j < |r| ensures CompareTodos(r[i], r[j]) <= 0 {
      if i == 0 {
        assert r[j] == s[j - 1];
        assert s[j - 1] in s;
      } else {
        assert r[i] == s[i - 1] && r[j] == s[j - 1];
      }
    }
  }

  /** The head of a list in display order may go before `t` (which it beats) and before
      the rest of the list, so before anything made of those. */
  lemma HeadGoesFirst(t: Todo, s: seq<Todo>, rest: seq<Todo>)
    requires InDisplayOrder(s) && s != [] && CompareTodos(t, s[0]) > 0
    requires multiset(rest) == multiset(s[1..]) + multiset{t}
    ensures forall x :: x in rest ==> CompareTodos(s[0], x) <= 0
  {
    forall x | x in rest ensures CompareTodos(s[0], x) <= 0 {
      assert x in multiset(rest);
      if x == t {
        CompareFlips(t, s[0]);
      } else {
        assert x in multiset(s[1..]);
        var j :| 0 <= j < |s[1..]| && s[1..][j] == x;
        assert s[j + 1] == x;
      }
    }
  }

  /** Places `t` in a list already in display order, ahead of every task it ties with. */
  function InsertTodo(t: Todo, s: seq<Todo>): (r: seq<Todo>)
    requires InDisplayOrder(s)
    ensures multiset(r) == multiset(s) + multiset{t}
    ensures InDisplayOrder(r)
  {
    if s == [] then [t]
    else if CompareTodos(t, s[0]) <= 0 then
      PrependInOrder(t, s);
      [t] + s
    else
      var rest := InsertTodo(t, s[1..]);
      assert s == [s[0]] + s[1..];
      HeadGoesFirst(t, s, rest);
      PrependInOrder(s[0], rest);
      [s[0]] + rest
  }

  /** `[...todos].sort(comparator)`: a sorted copy; the store's own list is not touched.
      Every open task comes before every completed one, and within each group deadlines
      never go down. */
  function SortedTodos(todos: seq<Todo>): (r: seq<Todo>)
    ensures multiset(r) == multiset(todos)
    ensures forall i, j :: 0 <= i < j < |r| ==> !r[i].completed || r[j].completed
    ensures forall i, j :: 0 <= i < j < |r| && r[i].completed == r[j].completed ==>
              r[i].deadline <= r[j].deadline
  {
    if todos == [] then []
    else
      var rest := SortedTodos(todos[1..]);
      GroupsInDisplayOrder(rest);
      var r := InsertTodo(todos[0], rest);
      assert todos == [todos[0]] + todos[1..];
      DisplayOrderGroups(r);
      r
  }

  /** The converse: open before completed with deadlines ascending in each group is an
      order the comparator accepts. */
  lemma GroupsInDisplayOrder(r: seq<Todo>)
    requires forall i, j :: 0 <= i < j < |r| ==> !r[i].completed || r[j].completed
    requires forall i, j :: 0 <= i < j < |r| && r[i].completed == r[j].completed ==>
               r[i].deadline <= r[j].deadline
    ensures InDisplayOrder(r)
  {
    forall i, j | 0 <= i < j < |r| ensures CompareTodos(r[i], r[j]) <= 0 {
    }
  }

  /** Display order, stated without the comparator: open before completed, and
      deadlines ascending within each group. */
  lemma DisplayOrderGroups(r: seq<Todo>)
    requires InDisplayOrder(r)
    ensures forall i, j :: 0 <= i < j < |r| ==> !r[i].completed || r[j].completed
    ensures forall i, j :: 0 <= i < j < |r| && r[i].completed == r[j].completed ==>
              r[i].deadline <= r[j].deadline
  {
    forall i, j | 0 <= i < j < |r|
      ensures !r[i].completed || r[j].completed
      ensures r[i].completed == r[j].completed ==> r[i].deadline <= r[j].deadline
    {
      assert CompareTodos(r[i], r[j]) <= 0;
    }
  }

  /** `differenceInDays(later, earlier)`: whole days between two instants, truncated
      toward zero (the sign follows `later - earlier`). */
  function DifferenceInDays(later: int, earlier: int): (d: int)
    ensures later >= earlier ==> d >= 0 && d * DayMs <= later - earlier < (d + 1) * DayMs
    ensures later < earlier ==> d <= 0 && (-d) * DayMs <= earlier - later < (1 - d) * DayMs
  {
    if later >= earlier then (later - earlier) / DayMs
    else -((earlier - later) / DayMs)
  }

  /** The digit for 0..9. */
  function DigitChar(n: nat): (c: char)
    requires n <= 9
    ensures '0' <= c <= '9'
    ensures c as int == '0' as int + n
  {
    (48 + n) as char
  }

  /** `getRemainingDays(deadline)`: the label "あと<n>日" ("<n> days left") when the
      whole-day difference from today is 0 to 3, otherwise nothing. */
  function RemainingDays(deadline: int, today: int): (shown: Option<string>)
    ensures shown.Some? <==> 0 <= DifferenceInDays(deadline, today) <= 3
    ensures shown.Some? ==>
              (|shown.value| == 4 && shown.value[..2] == "\U{3042}\U{3068}" &&
               shown.value[3] == '\U{65E5}' &&
               shown.value[2] as int - '0' as int == DifferenceInDays(deadline, today))
  {
    var days := DifferenceInDays(deadline, today);
    if 0 <= days <= 3 then Some("\U{3042}\U{3068}" + [DigitChar(days)] + "\U{65E5}")
    else None
  }

  /** In instants: a label is shown for deadlines from just under a day ago to just
      under four days ahead. */
  lemma RemainingDaysWindow(deadline: int, today: int)
    ensures RemainingDays(deadline, today).Some? <==>
              today - DayMs < deadline < today + 4 * DayMs
  {
    var d := DifferenceInDays(deadline, today);
    if deadline >= today {
      assert d <= 3 <==> deadline - today < 4 * DayMs;
    } else {
      assert d == 0 <==> today - deadline < DayMs;
    }
  }

  /** A deadline that passed less than a day ago still reads "0 days left". */
  lemma JustOverdueReadsZero(deadline: int, today: int)
    requires today - DayMs < deadline < today
    ensures RemainingDays(deadline, today) == Some("\U{3042}\U{3068}0\U{65E5}")
  {
    assert DifferenceInDays(deadline, today) == 0;
    assert DigitChar(0) == '0';
    assert "\U{3042}\U{3068}" + ['0'] + "\U{65E5}" == "\U{3042}\U{3068}0\U{65E5}";
  }

  /** The badge beside a task's date: only on an open task, and only when the label has
      something to say. */
  function DaysLeftBadge(t: Todo, today: int): (badge: Option<string>)
    ensures badge.Some? <==> !t.completed && today - DayMs < t.deadline < today + 4 * DayMs
    ensures badge.Some? ==> badge == RemainingDays(t.deadline, today)
  {
    RemainingDaysWindow(t.deadline, today);
    if t.completed then None else RemainingDays(t.deadline, today)
  }

  /** The date picker that reschedules is shown only on an open task never rescheduled. */
  function OffersReschedule(t: Todo): (b: bool)
    ensures b ==> OffersEdit(t)
    ensures b <==> OffersEdit(t) && !t.deadlineChanged
  {
    !t.deadlineChanged && !t.completed
  }

  /** The edit button is shown only on an open task: on a task whose completion time
      matches its flag, exactly when it has no completion time. */
  function OffersEdit(t: Todo): (b: bool)
    ensures b <==> !t.completed
    ensures Consistent(t) ==> (b <==> t.completedAt.None?)
  {
    !t.completed
  }

  /** Once the picker has been used on a task, it is no longer offered on it, while the
      edit button (which can still change the deadline) stays for an open task. */
  lemma PickerOfferedOnce(todos: seq<Todo>, id: string, newDeadline: int)
    ensures var r := RescheduleAll(todos, id, newDeadline);
            forall i :: 0 <= i < |r| && todos[i].id == id ==>
              !OffersReschedule(r[i]) && OffersEdit(r[i]) == OffersEdit(todos[i])
  {
  }

  /** The patch the edit dialog sends: title, description and deadline, nothing else. */
  function EditPatch(title: string, description: string, deadline: int): (p: TodoPatch)
    ensures LeavesCompletionAlone(p) && p.deadlineChanged.None?
    ensures forall t :: ApplyPatch(t, p) ==
              t.(title := title, description := description, deadline := deadline)
  {
    TodoPatch(None, Some(title), Some(description), Some(deadline), None, None, None, None, None)
  }

  /** Editing a task sets its deadline but neither completes it nor spends its one-shot
      reschedule: the picker is offered afterwards exactly when it was before. */
  lemma EditKeepsPickerOffer(todos: seq<Todo>, id: string, title: string, description: string,
                             deadline: int)
    ensures var r := PatchAll(todos, id, EditPatch(title, description, deadline));
            forall i :: 0 <= i < |r| && todos[i].id == id ==>
              r[i].deadline == deadline && r[i].title == title &&
              r[i].description == description &&
              OffersReschedule(r[i]) == OffersReschedule(todos[i])
  {
  }

  /** The edit dialog's submit: `updateTodo(id, { title, description, deadline })`. A list
      in which every task's completion time matches its flag stays so. */
  method SubmitEdit(store: TodoStore, id: string, title: string, description: string,
                    deadline: int)
    modifies store
    ensures store.todos == PatchAll(old(store.todos), id, EditPatch(title, description, deadline))
    ensures AllConsistent(old(store.todos)) ==> AllConsistent(store.todos)
  {
    store.UpdateTodo(id, EditPatch(title, description, deadline));
  }

  /** The new-task form: `addTodo` is called without an owner, so the task's owner is ''. */
  method SubmitNewTask(store: TodoStore, title: string, description: string, deadline: int,
                       freshId: string, now: int)
    modifies store
    ensures store.todos == old(store.todos) + [NewTodo(title, description, deadline, None, None, freshId, now)]
    ensures store.todos[|store.todos| - 1].userId == ""
  {
    store.AddTodo(title, description, deadline, None, None, freshId, now);
  }

  /** Such ownerless tasks outlive the deletion of every account whose identifier is not
      empty. */
  lemma OwnerlessTasksOutliveDeletion(todos: seq<Todo>, userId: string)
    requires userId != ""
    ensures forall t :: t in todos && t.userId == "" ==> t in WithoutOwner(todos, userId)
  {
  }
}
