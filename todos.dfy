/** The values the two client components exchange with the backend: the todo record
    the list query returns, its status, and the remote calls the components send.
    The backend itself is not modelled: a `Call` records what is sent, never what the
    server does with it. */
module Todos {

  datatype Option<T> = None | Some(value: T)

  /** The two statuses a todo can have. */
  datatype Status = Pending | Completed

  type TodoId = int

  /** A todo as the list query returns it. */
  datatype Todo = Todo(id: TodoId, body: string, status: Status)

  /** A remote procedure call sent by a component. `Query` is the list query
      `todo.getAll` issued with its `statuses` parameter, `Create` is `todo.create`,
      `Update` is `todoStatus.update`, `Delete` is `todo.delete`, and `Refetch` is the
      request to the query cache to re-run every `todo.getAll` query. */
  datatype Call =
    | Query(statuses: seq<Status>)
    | Create(body: string)
    | Update(todoId: TodoId, status: Status)
    | Delete(id: TodoId)
    | Refetch

  /** The string the backend and the views use for a status. */
  function StatusName(s: Status): string {
    match s
    case Pending => "pending"
    case Completed => "completed"
  }

  predicate IsRefetch(c: Call) { c.Refetch? }

  predicate IsCreate(c: Call) { c.Create? }

  /** The status-update and delete calls, the two mutations of the list view. */
  predicate IsListMutation(c: Call) { c.Update? || c.Delete? }

  /** The number of calls in `log` that satisfy `p`. */
  function CountWhere(log: seq<Call>, p: Call -> bool): (n: nat)
    ensures n <= |log|
  {
    if log == [] then 0
    else CountWhere(log[..|log| - 1], p) + (if p(log[|log| - 1]) then 1 else 0)
  }

  lemma CountWhereAppend(log: seq<Call>, c: Call, p: Call -> bool)
    ensures CountWhere(log + [c], p) == CountWhere(log, p) + (if p(c) then 1 else 0)
  {
    assert (log + [c])[..|log|] == log;
  }

  /** The parameters of the most recent list query in `log`, if any. */
  function LastQuery(log: seq<Call>): (r: Option<seq<Status>>)
    ensures r.Some? ==> Query(r.value) in log
    ensures r.None? ==> forall i :: 0 <= i < |log| ==> !log[i].Query?
  {
    if log == [] then None
    else if log[|log| - 1].Query? then Some(log[|log| - 1].statuses)
    else LastQuery(log[..|log| - 1])
  }

  lemma LastQueryAppend(log: seq<Call>, c: Call)
    ensures LastQuery(log + [c]) == if c.Query? then Some(c.statuses) else LastQuery(log)
  {
    assert (log + [c])[..|log|] == log;
  }
}
