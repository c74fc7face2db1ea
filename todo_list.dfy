/** The `TodoList` component: a tabbed view over the result of the `todo.getAll`
    query, with a checkbox that toggles a todo's status and a button that deletes it.
    The pure parts (the query parameter, the per-tab filter, the toggle target) are
    functions; the component's state (the active tab, the query result it renders,
    the calls it has sent) is the class `TodoList`. */
module TodoListComponent {
  import opened Todos

  /** The three tabs, whose trigger values are "all", "pending" and "completed". */
  datatype Tab = AllTab | PendingTab | CompletedTab

  /** The `value` of a tab's trigger, which is also what `activeTab` holds. */
  function TabValue(tab: Tab): string {
    match tab
    case AllTab => "all"
    case PendingTab => "pending"
    case CompletedTab => "completed"
  }

  /** The statuses a tab shows. */
  predicate Admits(tab: Tab, s: Status) {
    match tab
    case AllTab => true
    case PendingTab => s == Pending
    case CompletedTab => s == Completed
  }

  /** The `statuses` parameter of the list query, written as the component writes it:
      on the "all" tab both status names, otherwise the one-element list holding the
      tab's own value string. */
  function StatusesParam(tab: Tab): seq<string> {
    var activeTab := TabValue(tab);
    if activeTab == "all" then ["completed", "pending"] else [activeTab]
  }

  /** The same parameter as statuses. */
  function Statuses(tab: Tab): (r: seq<Status>)
    ensures Pending in r <==> Admits(tab, Pending)
    ensures Completed in r <==> Admits(tab, Completed)
    ensures tab == AllTab ==> r == [Completed, Pending]
    ensures tab != AllTab ==> |r| == 1
  {
    match tab
    case AllTab => [Completed, Pending]
    case PendingTab => [Pending]
    case CompletedTab => [Completed]
  }

  /** The string parameter names exactly the statuses the tab admits: a tab's value
      string doubles as a status name. */
  lemma StatusesParamNamesStatuses(tab: Tab)
    ensures |StatusesParam(tab)| == |Statuses(tab)|
    ensures forall i :: 0 <= i < |Statuses(tab)| ==> StatusesParam(tab)[i] == StatusName(Statuses(tab)[i])
    ensures forall s :: StatusName(s) in StatusesParam(tab) <==> Admits(tab, s)
  {
    assert "pending" != "all" && "completed" != "all";
    assert "pending" != "completed";
  }

  /** The todos the component renders from the query result: `data: todos = []`. */
  function Snapshot(data: Option<seq<Todo>>): seq<Todo> {
    match data
    case None => []
    case Some(fetched) => fetched
  }

  /** `a` is `b` with some elements left out, the others kept in their order. */
  predicate IsSubsequence(a: seq<Todo>, b: seq<Todo>)
    decreases |b|
  {
    if a == [] then true
    else if b == [] then false
    else (a[0] == b[0] && IsSubsequence(a[1..], b[1..])) || IsSubsequence(a, b[1..])
  }

  lemma {:induction false} SubsequenceReflexive(a: seq<Todo>)
    ensures IsSubsequence(a, a)
    decreases |a|
  {
    if a != [] {
      SubsequenceReflexive(a[1..]);
    }
  }

  /** An element of a subsequence is an element of the sequence. */
  lemma {:induction false} SubsequenceMember(a: seq<Todo>, b: seq<Todo>, x: Todo)
    requires IsSubsequence(a, b) && x in a
    ensures x in b
    decreases |b|
  {
    if a[0] == b[0] && IsSubsequence(a[1..], b[1..]) {
      if x != a[0] {
        SubsequenceMember(a[1..], b[1..], x);
      }
    } else {
      SubsequenceMember(a, b[1..], x);
    }
  }

  /** `todos.filter((todo) => todo.status === s)` */
  function WithStatus(todos: seq<Todo>, s: Status): (r: seq<Todo>)
    ensures IsSubsequence(r, todos)
    ensures forall i :: 0 <= i < |r| ==> r[i].status == s
    ensures forall i :: 0 <= i < |todos| && todos[i].status == s ==> todos[i] in r
    decreases |todos|
  {
    if todos == [] then []
    else if todos[0].status == s then [todos[0]] + WithStatus(todos[1..], s)
    else WithStatus(todos[1..], s)
  }

  /** The list a tab renders: the snapshot itself on "all", its todos of one status
      on the other two tabs. */
  function Visible(tab: Tab, todos: seq<Todo>): (r: seq<Todo>)
    ensures IsSubsequence(r, todos)
    ensures forall i :: 0 <= i < |r| ==> Admits(tab, r[i].status)
    ensures forall i :: 0 <= i < |todos| && Admits(tab, todos[i].status) ==> todos[i] in r
    ensures tab == AllTab ==> r == todos
  {
    match tab
    case AllTab => SubsequenceReflexive(todos); todos
    case PendingTab => WithStatus(todos, Pending)
    case CompletedTab => WithStatus(todos, Completed)
  }

  /** The filter keeps each todo of status `s` as often as the snapshot holds it, and
      no other todo. */
  lemma {:induction false} WithStatusMultiplicity(todos: seq<Todo>, s: Status, t: Todo)
    ensures multiset(WithStatus(todos, s))[t] == if t.status == s then multiset(todos)[t] else 0
    decreases |todos|
  {
    if todos != [] {
      WithStatusMultiplicity(todos[1..], s, t);
      assert todos == [todos[0]] + todos[1..];
    }
  }

  /** Each tab shows exactly the todos of the snapshot it admits, with their
      multiplicities. */
  lemma VisibleMultiplicity(tab: Tab, todos: seq<Todo>, t: Todo)
    ensures multiset(Visible(tab, todos))[t] == if Admits(tab, t.status) then multiset(todos)[t] else 0
  {
    match tab
    case AllTab =>
    case PendingTab => WithStatusMultiplicity(todos, Pending, t);
    case CompletedTab => WithStatusMultiplicity(todos, Completed, t);
  }

  /** The "pending" and "completed" tabs together show every fetched todo exactly
      once. */
  lemma TabsPartitionSnapshot(todos: seq<Todo>)
    ensures multiset(Visible(PendingTab, todos)) + multiset(Visible(CompletedTab, todos)) == multiset(todos)
  {
    forall t
      ensures (multiset(Visible(PendingTab, todos)) + multiset(Visible(CompletedTab, todos)))[t] == multiset(todos)[t]
    {
      VisibleMultiplicity(PendingTab, todos, t);
      VisibleMultiplicity(CompletedTab, todos, t);
    }
  }

  /** The query a tab issues and the filter it renders are the same predicate: a
      snapshot that holds only the requested statuses is shown unchanged. */
  lemma {:induction false} HonouredQueryShownUnchanged(tab: Tab, todos: seq<Todo>)
    requires forall i :: 0 <= i < |todos| ==> todos[i].status in Statuses(tab)
    ensures Visible(tab, todos) == todos
    decreases |todos|
  {
    if tab != AllTab && todos != [] {
      HonouredQueryShownUnchanged(tab, todos[1..]);
    }
  }

  /** A missing query result renders as an empty list on every tab. */
  lemma MissingResultShowsNothing(tab: Tab)
    ensures Visible(tab, Snapshot(None)) == []
  {
  }

  /** The checkbox is checked exactly for completed todos. */
  predicate IsChecked(todo: Todo) {
    todo.status == Completed
  }

  /** The status a checkbox toggle requests:
      `todo.status === 'completed' ? 'pending' : 'completed'`. */
  function ToggleTarget(todo: Todo): (s: Status)
    ensures s != todo.status
    ensures (s == Completed) == !IsChecked(todo)
  {
    if todo.status == Completed then Pending else Completed
  }

  /** Toggling a todo whose status was already changed once requests its original
      status again. */
  lemma ToggleTwiceRestores(todo: Todo)
    ensures ToggleTarget(todo.(status := ToggleTarget(todo))) == todo.status
  {
  }

  /** On the "pending" and "completed" tabs a toggled todo leaves the view: once the
      refetched snapshot carries the requested status for that id, no todo with
      that id is rendered on the tab it was toggled from. */
  lemma ToggledTodoLeavesTab(tab: Tab, todo: Todo, refetched: seq<Todo>)
    requires tab != AllTab && Admits(tab, todo.status)
    requires forall u :: u in refetched && u.id == todo.id ==> u.status == ToggleTarget(todo)
    ensures forall u :: u in Visible(tab, refetched) ==> u.id != todo.id
  {
    var r := Visible(tab, refetched);
    forall u | u in r ensures u.id != todo.id {
      var i :| 0 <= i < |r| && r[i] == u;
      SubsequenceMember(r, refetched, u);
    }
  }

  /** The state of a mounted `TodoList`: the active tab, the query result it renders,
      the remote calls it has sent, and how many of its status updates and deletes
      are still outstanding. */
  class TodoList {
    var activeTab: Tab
    var data: Option<seq<Todo>>
    var log: seq<Call>
    var pendingUpdates: nat
    var pendingDeletes: nat

    /** The last list query sent is the one the active tab derives, and every
        refetch answers a status update or delete that has completed. */
    ghost predicate Valid()
      reads this
    {
      && LastQuery(log) == Some(Statuses(activeTab))
      && CountWhere(log, IsRefetch) + pendingUpdates + pendingDeletes <= CountWhere(log, IsListMutation)
    }

    /** Mounting: the "all" tab, no result yet, and the query for both statuses. */
    constructor ()
      ensures Valid()
      ensures activeTab == AllTab && data == None
      ensures log == [Query([Completed, Pending])]
      ensures pendingUpdates == 0 && pendingDeletes == 0
    {
      activeTab := AllTab;
      data := None;
      log := [Query(Statuses(AllTab))];
      pendingUpdates, pendingDeletes := 0, 0;
      assert [Query(Statuses(AllTab))] == [] + [Query(Statuses(AllTab))];
      LastQueryAppend([], Query(Statuses(AllTab)));
      CountWhereAppend([], Query(Statuses(AllTab)), IsRefetch);
      CountWhereAppend([], Query(Statuses(AllTab)), IsListMutation);
    }

    /** The todos the active tab renders. */
    function VisibleTodos(): (r: seq<Todo>)
      reads this
      ensures IsSubsequence(r, Snapshot(data))
      ensures forall i :: 0 <= i < |r| ==> Admits(activeTab, r[i].status)
      ensures forall i :: 0 <= i < |Snapshot(data)| && Admits(activeTab, Snapshot(data)[i].status) ==> Snapshot(data)[i] in r
      ensures activeTab == AllTab ==> r == Snapshot(data)
    {
      Visible(activeTab, Snapshot(data))
    }

    /** `onValueChange={setActiveTab}`: the tab changes, and a change of tab issues
        the list query with the parameter the new tab derives. The query hook then
        reports the result the query cache holds for the new parameter, `cached`
        (`None` when that parameter was never fetched). Selecting the active tab
        changes nothing. The cache holds results only for parameters already
        queried: a refetch re-runs cached queries and never adds a new one. */
    method SelectTab(tab: Tab, cached: Option<seq<Todo>>)
      requires Valid()
      requires Query(Statuses(tab)) !in log ==> cached == None
      modifies this
      ensures Valid()
      ensures activeTab == tab
      ensures data == if tab == old(activeTab) then old(data) else cached
      ensures log == if tab == old(activeTab) then old(log) else old(log) + [Query(Statuses(tab))]
      ensures pendingUpdates == old(pendingUpdates) && pendingDeletes == old(pendingDeletes)
    {
      if tab != activeTab {
        LastQueryAppend(log, Query(Statuses(tab)));
        CountWhereAppend(log, Query(Statuses(tab)), IsRefetch);
        CountWhereAppend(log, Query(Statuses(tab)), IsListMutation);
        activeTab := tab;
        data := cached;
        log := log + [Query(Statuses(tab))];
      }
    }

    /** A query result (or its absence) reaches the component; it replaces the
        rendered snapshot as a whole. */
    method Receive(result: Option<seq<Todo>>)
      requires Valid()
      modifies this
      ensures Valid()
      ensures data == result
      ensures activeTab == old(activeTab) && log == old(log)
      ensures pendingUpdates == old(pendingUpdates) && pendingDeletes == old(pendingDeletes)
    {
      data := result;
    }

    /** `handleStatusChange(id, newStatus)`: one status update is sent. */
    method HandleStatusChange(id: TodoId, newStatus: Status)
      requires Valid()
      modifies this
      ensures Valid()
      ensures log == old(log) + [Update(id, newStatus)]
      ensures pendingUpdates == old(pendingUpdates) + 1 && pendingDeletes == old(pendingDeletes)
      ensures activeTab == old(activeTab) && data == old(data)
    {
      LastQueryAppend(log, Update(id, newStatus));
      CountWhereAppend(log, Update(id, newStatus), IsRefetch);
      CountWhereAppend(log, Update(id, newStatus), IsListMutation);
      log := log + [Update(id, newStatus)];
      pendingUpdates := pendingUpdates + 1;
    }

    /** `onCheckedChange` of a rendered todo's checkbox: requests the opposite of the
        todo's current status. */
    method ToggleCheckbox(todo: Todo)
      requires Valid() && todo in VisibleTodos()
      modifies this
      ensures Valid()
      ensures log == old(log) + [Update(todo.id, ToggleTarget(todo))]
      ensures ToggleTarget(todo) != todo.status
      ensures pendingUpdates == old(pendingUpdates) + 1 && pendingDeletes == old(pendingDeletes)
      ensures activeTab == old(activeTab) && data == old(data)
    {
      HandleStatusChange(todo.id, ToggleTarget(todo));
    }

    /** `handleDelete(id)`, the delete button's `onClick`: one delete is sent. */
    method HandleDelete(id: TodoId)
      requires Valid()
      modifies this
      ensures Valid()
      ensures log == old(log) + [Delete(id)]
      ensures pendingDeletes == old(pendingDeletes) + 1 && pendingUpdates == old(pendingUpdates)
      ensures activeTab == old(activeTab) && data == old(data)
    {
      LastQueryAppend(log, Delete(id));
      CountWhereAppend(log, Delete(id), IsRefetch);
      CountWhereAppend(log, Delete(id), IsListMutation);
      log := log + [Delete(id)];
      pendingDeletes := pendingDeletes + 1;
    }

    /** An outstanding status update completes; its `onSuccess` asks for a refetch of
        the list, and a failure sends nothing. */
    method UpdateSettled(succeeded: bool)
      requires Valid() && pendingUpdates > 0
      modifies this
      ensures Valid()
      ensures log == if succeeded then old(log) + [Refetch] else old(log)
      ensures pendingUpdates == old(pendingUpdates) - 1 && pendingDeletes == old(pendingDeletes)
      ensures activeTab == old(activeTab) && data == old(data)
    {
      pendingUpdates := pendingUpdates - 1;
      if succeeded {
        LastQueryAppend(log, Refetch);
        CountWhereAppend(log, Refetch, IsRefetch);
        CountWhereAppend(log, Refetch, IsListMutation);
        log := log + [Refetch];
      }
    }

    /** An outstanding delete completes; its `onSuccess` asks for a refetch of the
        list, and a failure sends nothing. */
    method DeleteSettled(succeeded: bool)
      requires Valid() && pendingDeletes > 0
      modifies this
      ensures Valid()
      ensures log == if succeeded then old(log) + [Refetch] else old(log)
      ensures pendingDeletes == old(pendingDeletes) - 1 && pendingUpdates == old(pendingUpdates)
      ensures activeTab == old(activeTab) && data == old(data)
    {
      pendingDeletes := pendingDeletes - 1;
      if succeeded {
        LastQueryAppend(log, Refetch);
        CountWhereAppend(log, Refetch, IsRefetch);
        CountWhereAppend(log, Refetch, IsListMutation);
        log := log + [Refetch];
      }
    }
  }
}
