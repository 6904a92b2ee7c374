/** The task list page: tasks are added from a form, marked done or not done,
    deleted, and shown filtered (all, active, completed) and sorted by due date,
    priority or creation time, ascending or descending. Ids come from the clock and
    are not assumed unique, so toggling and deleting act on every task with the id. */
module Tasks {
  import opened Text
  import Lists

  datatype Priority = Low | Medium | High

  /** A task. `dueDate` is the due date's timestamp, None when the date field was
      left empty; `createdAt` is the creation timestamp. */
  datatype Task = Task(id: string, title: string, description: string, completed: bool,
                       dueDate: Option<int>, priority: Priority, createdAt: int)

  /** The add-task form: a task without its id and creation time. */
  datatype Draft = Draft(title: string, description: string, completed: bool,
                         dueDate: Option<int>, priority: Priority)

  const EmptyDraft := Draft("", "", false, None, Medium)

  /** The task built from the form, with the id and timestamp taken at submission. */
  function FromDraft(d: Draft, id: string, createdAt: int): Task {
    Task(id, d.title, d.description, d.completed, d.dueDate, d.priority, createdAt)
  }

  /** `toggleTaskCompletion`: every task with the id has its `completed` flag flipped. */
  function Toggled(tasks: seq<Task>, id: string): (r: seq<Task>)
    ensures |r| == |tasks|
    ensures forall i :: 0 <= i < |tasks| ==>
      && r[i].completed == (tasks[i].completed != (tasks[i].id == id))
      && r[i].(completed := tasks[i].completed) == tasks[i]
  {
    Lists.MapSelected(tasks, (t: Task) => t.id == id, (t: Task) => t.(completed := !t.completed))
  }

  /** Toggling the same id twice gives back the list. */
  lemma ToggleTwice(tasks: seq<Task>, id: string)
    ensures Toggled(Toggled(tasks, id), id) == tasks
  {
    var r := Toggled(Toggled(tasks, id), id);
    assert forall i :: 0 <= i < |tasks| ==> r[i] == tasks[i];
  }

  /** `deleteTask`: the tasks whose id differs, in their order. */
  function Deleted(tasks: seq<Task>, id: string): (r: seq<Task>)
    ensures forall t :: t in r ==> t.id != id
  {
    Lists.Filter(tasks, (t: Task) => t.id != id)
  }

  /** Deleting removes exactly the tasks with the id: every other task stays, as often
      as it occurred, and deleting distributes over concatenation, so order is kept. */
  lemma DeleteKeepsOthers(tasks: seq<Task>, more: seq<Task>, id: string, t: Task)
    ensures t in Deleted(tasks, id) <==> t in tasks && t.id != id
    ensures t.id != id ==> multiset(Deleted(tasks, id))[t] == multiset(tasks)[t]
    ensures Deleted(tasks + more, id) == Deleted(tasks, id) + Deleted(more, id)
  {
    Lists.FilterMembership(tasks, (t: Task) => t.id != id, t);
    Lists.FilterCount(tasks, (t: Task) => t.id != id, t);
    Lists.FilterAppend(tasks, more, (t: Task) => t.id != id);
  }

  /** Deleting twice is deleting once. */
  lemma DeleteIdempotent(tasks: seq<Task>, id: string)
    ensures Deleted(Deleted(tasks, id), id) == Deleted(tasks, id)
  {
    Lists.FilterIdempotent(tasks, (t: Task) => t.id != id);
  }

  /** Adding a task under an id no task has, then deleting that id, gives back the list. */
  lemma AddThenDelete(tasks: seq<Task>, d: Draft, id: string, createdAt: int)
    requires forall t :: t in tasks ==> t.id != id
    ensures Deleted(tasks + [FromDraft(d, id, createdAt)], id) == tasks
  {
    var keep := (t: Task) => t.id != id;
    Lists.FilterAppend(tasks, [FromDraft(d, id, createdAt)], keep);
    Lists.FilterKeepsAll(tasks, keep);
    assert Lists.Filter([FromDraft(d, id, createdAt)], keep) == [];
  }

  datatype View = All | Active | Completed

  predicate Shows(v: View, t: Task) {
    match v
    case All => true
    case Active => !t.completed
    case Completed => t.completed
  }

  /** `filteredTasks`. */
  function Filtered(tasks: seq<Task>, v: View): (r: seq<Task>)
    ensures forall t :: t in r ==> Shows(v, t)
    ensures |r| <= |tasks|
  {
    Lists.Filter(tasks, (t: Task) => Shows(v, t))
  }

  /** "All" shows the whole list; "active" and "completed" split it, each task going to
      exactly one of them, and each shows exactly the tasks of its kind. */
  lemma FilterViews(tasks: seq<Task>, t: Task)
    ensures Filtered(tasks, All) == tasks
    ensures multiset(Filtered(tasks, Active)) + multiset(Filtered(tasks, Completed)) == multiset(tasks)
    ensures |Filtered(tasks, Active)| + |Filtered(tasks, Completed)| == |tasks|
    ensures t in Filtered(tasks, Active) <==> t in tasks && !t.completed
    ensures t in Filtered(tasks, Completed) <==> t in tasks && t.completed
  {
    Lists.FilterKeepsAll(tasks, (t: Task) => Shows(All, t));
    Lists.FilterComplement(tasks, (t: Task) => Shows(Active, t), (t: Task) => Shows(Completed, t));
    Lists.FilterMembership(tasks, (t: Task) => Shows(Active, t), t);
    Lists.FilterMembership(tasks, (t: Task) => Shows(Completed, t), t);
  }

  datatype SortKey = ByDueDate | ByPriority | ByCreatedAt
  datatype Direction = Asc | Desc
  datatype SortOrder = SortOrder(key: SortKey, dir: Direction)

  /** `handleSort`: the current key flips the direction, another key starts ascending. */
  function Clicked(o: SortOrder, k: SortKey): (r: SortOrder)
    ensures r.key == k
    ensures r.dir == Asc <==> (o.key != k || o.dir == Desc)
  {
    if o.key == k then SortOrder(k, if o.dir == Asc then Desc else Asc) else SortOrder(k, Asc)
  }

  /** Two clicks on one key restore the order when the key was current, and otherwise
      leave it sorted by that key, descending. */
  lemma ClickTwice(o: SortOrder, k: SortKey)
    ensures Clicked(Clicked(o, k), k) == if o.key == k then o else SortOrder(k, Desc)
  {
  }

  function PriorityValue(p: Priority): int {
    match p
    case High => 3
    case Medium => 2
    case Low => 1
  }

  /** The comparator given to `sort`: negative puts `a` first, positive puts `b` first.
      Its sign agrees with the intended order: where it puts `a` first (or ties), `a`
      may come first, and where it puts `b` first, `b` may. */
  function Compare(a: Task, b: Task, o: SortOrder): (r: int)
    ensures r <= 0 ==> Before(a, b, o)
    ensures r > 0 ==> Before(b, a, o)
  {
    match o.key
    case ByDueDate =>
      if a.dueDate.None? then (if o.dir == Asc then 1 else -1)
      else if b.dueDate.None? then (if o.dir == Asc then -1 else 1)
      else if o.dir == Asc then a.dueDate.value - b.dueDate.value
      else b.dueDate.value - a.dueDate.value
    case ByPriority =>
      if o.dir == Asc then PriorityValue(a.priority) - PriorityValue(b.priority)
      else PriorityValue(b.priority) - PriorityValue(a.priority)
    case ByCreatedAt =>
      if o.dir == Asc then a.createdAt - b.createdAt else b.createdAt - a.createdAt
  }

  /** The ascending order each key stands for: dated tasks by date and undated ones
      after them; low, medium, high; oldest first. */
  predicate Ascending(a: Task, b: Task, k: SortKey) {
    match k
    case ByDueDate =>
      if a.dueDate.None? then b.dueDate.None?
      else b.dueDate.None? || a.dueDate.value <= b.dueDate.value
    case ByPriority => PriorityValue(a.priority) <= PriorityValue(b.priority)
    case ByCreatedAt => a.createdAt <= b.createdAt
  }

  /** `a` may be listed before `b`; descending is ascending read backwards. */
  predicate Before(a: Task, b: Task, o: SortOrder) {
    if o.dir == Asc then Ascending(a, b, o.key) else Ascending(b, a, o.key)
  }

  /** `Before` is a total preorder. */
  lemma BeforeTotalPreorder(a: Task, b: Task, c: Task, o: SortOrder)
    ensures Before(a, b, o) || Before(b, a, o)
    ensures Before(a, b, o) && Before(b, c, o) ==> Before(a, c, o)
  {
  }

  /** The due-date comparator is not antisymmetric: for two undated tasks it answers
      "the other one first" whichever way round it is asked. */
  lemma UndatedCompareBothWays(a: Task, b: Task, dir: Direction)
    requires a.dueDate.None? && b.dueDate.None?
    ensures Compare(a, b, SortOrder(ByDueDate, dir)) == Compare(b, a, SortOrder(ByDueDate, dir)) != 0
  {
  }

  predicate Sorted(s: seq<Task>, o: SortOrder) {
    forall i, j :: 0 <= i < j < |s| ==> Before(s[i], s[j], o)
  }

  /** Places `x` before the first task the comparator does not put ahead of it. */
  function Insert(x: Task, s: seq<Task>, o: SortOrder): (r: seq<Task>)
    ensures multiset(r) == multiset(s) + multiset{x}
  {
    if s == [] || Compare(x, s[0], o) <= 0 then [x] + s
    else
      assert s == [s[0]] + s[1..];
      [s[0]] + Insert(x, s[1..], o)
  }

  /** `[...filteredTasks].sort(comparator)`, as a stable insertion sort driven by the
      same comparator; the result is a permutation of its input. */
  function SortTasks(s: seq<Task>, o: SortOrder): (r: seq<Task>)
    ensures multiset(r) == multiset(s)
  {
    if s == [] then []
    else
      assert s == [s[0]] + s[1..];
      Insert(s[0], SortTasks(s[1..], o), o)
  }

  /** A task that may precede every task of a sorted list may head it. */
  lemma ConsSorted(h: Task, t: seq<Task>, o: SortOrder)
    requires Sorted(t, o)
    requires forall j :: 0 <= j < |t| ==> Before(h, t[j], o)
    ensures Sorted([h] + t, o)
  {
    var r := [h] + t;
    forall i, j | 0 <= i < j < |r|
      ensures Before(r[i], r[j], o)
    {
      if i > 0 {
        assert r[i] == t[i - 1] && r[j] == t[j - 1];
      }
    }
  }

  /** A task that may precede `x` and every task of `s` may precede every task of
      `Insert(x, s, o)`. */
  lemma BeforeInsert(h: Task, x: Task, s: seq<Task>, o: SortOrder)
    requires Before(h, x, o)
    requires forall k :: 0 <= k < |s| ==> Before(h, s[k], o)
    ensures forall j :: 0 <= j < |Insert(x, s, o)| ==> Before(h, Insert(x, s, o)[j], o)
  {
    var t := Insert(x, s, o);
    forall j | 0 <= j < |t|
      ensures Before(h, t[j], o)
    {
      assert t[j] in multiset(t);
      if t[j] != x {
        assert t[j] in multiset(s);
        var k :| 0 <= k < |s| && s[k] == t[j];
      }
    }
  }

  lemma {:induction false} InsertSorted(x: Task, s: seq<Task>, o: SortOrder)
    requires Sorted(s, o)
    ensures Sorted(Insert(x, s, o), o)
  {
    if s == [] {
    } else if Compare(x, s[0], o) <= 0 {
      forall j | 0 <= j < |s|
        ensures Before(x, s[j], o)
      {
        BeforeTotalPreorder(x, s[0], s[j], o);
      }
      ConsSorted(x, s, o);
    } else {
      InsertSorted(x, s[1..], o);
      BeforeInsert(s[0], x, s[1..], o);
      ConsSorted(s[0], Insert(x, s[1..], o), o);
    }
  }

  /** The displayed list is in the intended order of the chosen key and direction. */
  lemma {:induction false} SortTasksSorted(s: seq<Task>, o: SortOrder)
    ensures Sorted(SortTasks(s, o), o)
  {
    if s != [] {
      SortTasksSorted(s[1..], o);
      InsertSorted(s[0], SortTasks(s[1..], o), o);
    }
  }

  /** One edit of the add-task form. */
  datatype DraftEdit =
    | EditTitle(title: string)
    | EditDescription(description: string)
    | EditDueDate(dueDate: Option<int>)
    | EditPriority(priority: Priority)

  /** A form input's change: the edited field takes the value, every other field,
      and the never-edited `completed` flag, are kept. */
  function ApplyEdit(d: Draft, e: DraftEdit): (r: Draft)
    ensures r.completed == d.completed
    ensures r.title == if e.EditTitle? then e.title else d.title
    ensures r.description == if e.EditDescription? then e.description else d.description
    ensures r.dueDate == if e.EditDueDate? then e.dueDate else d.dueDate
    ensures r.priority == if e.EditPriority? then e.priority else d.priority
  {
    match e
    case EditTitle(s) => d.(title := s)
    case EditDescription(s) => d.(description := s)
    case EditDueDate(x) => d.(dueDate := x)
    case EditPriority(p) => d.(priority := p)
  }

  /** The page's state, one method per handler. The stored copy in the browser is left
      out: the constructor takes the list it held. */
  class TaskList {
    var tasks: seq<Task>
    var showForm: bool
    var draft: Draft
    var filter: View
    var order: SortOrder

    constructor (saved: seq<Task>)
      ensures tasks == saved && !showForm && draft == EmptyDraft
      ensures filter == All && order == SortOrder(ByDueDate, Asc)
    {
      tasks, showForm, draft := saved, false, EmptyDraft;
      filter, order := All, SortOrder(ByDueDate, Asc);
    }

    /** `sortedTasks`: the visible tasks, a permutation of the filtered ones in the
        chosen order; computing it changes nothing. */
    function Visible(): (r: seq<Task>)
      reads this
      ensures multiset(r) == multiset(Filtered(tasks, filter))
      ensures Sorted(r, order)
    {
      SortTasksSorted(Filtered(tasks, filter), order);
      SortTasks(Filtered(tasks, filter), order)
    }

    /** `addTask`: a blank title is refused and nothing changes; otherwise one task is
        appended, the form is cleared and hidden. */
    method AddTask(id: string, createdAt: int)
      modifies this
      ensures filter == old(filter) && order == old(order)
      ensures Trim(old(draft.title)) == [] ==>
        tasks == old(tasks) && draft == old(draft) && showForm == old(showForm)
      ensures Trim(old(draft.title)) != [] ==>
        && tasks == old(tasks) + [FromDraft(old(draft), id, createdAt)]
        && draft == EmptyDraft && !showForm
    {
      if Trim(draft.title) == [] {
        return;
      }
      tasks := tasks + [FromDraft(draft, id, createdAt)];
      draft := EmptyDraft;
      showForm := false;
    }

    method ToggleTaskCompletion(id: string)
      modifies this
      ensures tasks == Toggled(old(tasks), id)
      ensures showForm == old(showForm) && draft == old(draft) && filter == old(filter) && order == old(order)
    {
      tasks := Toggled(tasks, id);
    }

    method DeleteTask(id: string)
      modifies this
      ensures tasks == Deleted(old(tasks), id)
      ensures showForm == old(showForm) && draft == old(draft) && filter == old(filter) && order == old(order)
    {
      tasks := Deleted(tasks, id);
    }

    method HandleSort(k: SortKey)
      modifies this
      ensures order == Clicked(old(order), k)
      ensures tasks == old(tasks) && showForm == old(showForm) && draft == old(draft) && filter == old(filter)
    {
      if order.key == k {
        order := order.(dir := if order.dir == Asc then Desc else Asc);
      } else {
        order := SortOrder(k, Asc);
      }
    }

    /** The filter buttons. */
    method SetFilter(v: View)
      modifies this
      ensures filter == v
      ensures tasks == old(tasks) && showForm == old(showForm) && draft == old(draft) && order == old(order)
    {
      filter := v;
    }

    /** The "Add Task" / "Cancel" button: shows or hides the form, keeping its contents. */
    method ToggleForm()
      modifies this
      ensures showForm == !old(showForm)
      ensures tasks == old(tasks) && draft == old(draft) && filter == old(filter) && order == old(order)
    {
      showForm := !showForm;
    }

    /** A form input's change handler. */
    method EditDraft(e: DraftEdit)
      modifies this
      ensures draft == ApplyEdit(old(draft), e)
      ensures tasks == old(tasks) && showForm == old(showForm) && filter == old(filter) && order == old(order)
    {
      draft := ApplyEdit(draft, e);
    }
  }
}
