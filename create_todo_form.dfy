/** The `CreateTodoForm` component: a text input holding the draft of a new todo and
    an "Add" button. Submitting, by the button or by Enter in the input, sends one
    `todo.create` call with the draft as typed, unless the draft is blank. */
module CreateTodoFormComponent {
  import opened Todos
  import opened JsString

  /** The calls one `handleSubmit` sends for `draft`: none when `draft.trim() === ''`,
      otherwise one create whose body is the untrimmed draft. */
  function SubmitCalls(draft: string): (calls: seq<Call>)
    ensures IsBlank(draft) ==> calls == []
    ensures !IsBlank(draft) ==> calls == [Create(draft)]
  {
    TrimEmptyIffBlank(draft);
    if Trim(draft) == [] then [] else [Create(draft)]
  }

  /** The draft after one `handleSubmit`: unchanged when blank, otherwise cleared. */
  function DraftAfterSubmit(draft: string): (next: string)
    ensures IsBlank(draft) ==> next == draft
    ensures !IsBlank(draft) ==> next == ""
  {
    TrimEmptyIffBlank(draft);
    if Trim(draft) == [] then draft else ""
  }

  /** A submit right after a submit sends nothing and leaves the draft as it is. */
  lemma ResubmitIsNoOp(draft: string)
    ensures SubmitCalls(DraftAfterSubmit(draft)) == []
    ensures DraftAfterSubmit(DraftAfterSubmit(draft)) == DraftAfterSubmit(draft)
  {
  }

  /** Every create a submit sends carries the draft exactly as typed, and that body
      is not blank: its trim, and so the body itself, is non-empty. */
  lemma SubmittedBodyIsRawAndNotBlank(draft: string)
    ensures forall c :: c in SubmitCalls(draft) ==> c == Create(draft) && Trim(draft) != [] && draft != []
  {
    TrimEmptyIffBlank(draft);
  }

  /** Every create in `log` carries a body whose trim is non-empty. */
  ghost predicate CreatesNotBlank(log: seq<Call>) {
    forall i :: 0 <= i < |log| && log[i].Create? ==> Trim(log[i].body) != []
  }

  lemma CreatesNotBlankAppend(log: seq<Call>, c: Call)
    requires CreatesNotBlank(log)
    requires c.Create? ==> Trim(c.body) != []
    ensures CreatesNotBlank(log + [c])
  {
    assert forall i :: 0 <= i < |log| ==> (log + [c])[i] == log[i];
  }

  /** The state of a mounted `CreateTodoForm`: the draft, whether a create is in
      flight (the mutation's `isLoading`, which disables the button), and the remote
      calls sent. */
  class CreateTodoForm {
    var draft: string
    var creating: bool
    var log: seq<Call>

    /** Every create sent carries a body whose trim is non-empty, and every refetch
        answers a create that has completed. */
    ghost predicate Valid()
      reads this
    {
      && CreatesNotBlank(log)
      && CountWhere(log, IsRefetch) + (if creating then 1 else 0) <= CountWhere(log, IsCreate)
    }

    /** Mounting: `useState('')`, nothing in flight, nothing sent. */
    constructor ()
      ensures Valid()
      ensures draft == "" && !creating && log == []
    {
      draft := "";
      creating := false;
      log := [];
    }

    /** The input's `onChange`: the draft becomes the input's value as it is. */
    method SetDraft(value: string)
      requires Valid()
      modifies this
      ensures Valid()
      ensures draft == value
      ensures creating == old(creating) && log == old(log)
    {
      draft := value;
    }

    /** `handleSubmit`: a blank draft is ignored; otherwise one create with the raw
        draft is sent and the draft is cleared at once, before the call completes. */
    method HandleSubmit()
      requires Valid()
      modifies this
      ensures Valid()
      ensures log == old(log) + SubmitCalls(old(draft))
      ensures draft == DraftAfterSubmit(old(draft))
      ensures creating == (old(creating) || !IsBlank(old(draft)))
    {
      TrimEmptyIffBlank(draft);
      if Trim(draft) == [] {
        return;
      }
      CreatesNotBlankAppend(log, Create(draft));
      CountWhereAppend(log, Create(draft), IsRefetch);
      CountWhereAppend(log, Create(draft), IsCreate);
      log := log + [Create(draft)];
      creating := true;
      draft := "";
    }

    /** The input's `onKeyDown`: Enter prevents the form's implicit submission and
        calls `handleSubmit` once; any other key does nothing. The result says
        whether the default action was prevented. */
    method KeyDown(key: string) returns (prevented: bool)
      requires Valid()
      modifies this
      ensures Valid()
      ensures prevented == (key == "Enter")
      ensures log == old(log) + (if key == "Enter" then SubmitCalls(old(draft)) else [])
      ensures draft == (if key == "Enter" then DraftAfterSubmit(old(draft)) else old(draft))
      ensures creating == (old(creating) || (key == "Enter" && !IsBlank(old(draft))))
    {
      prevented := false;
      if key == "Enter" {
        prevented := true;
        HandleSubmit();
      }
    }

    /** The form's `onSubmit`: the browser's navigation is prevented and
        `handleSubmit` runs once. Neither the Add button, which is of type
        "button", nor Enter, whose default is prevented, reaches it. */
    method FormSubmit() returns (prevented: bool)
      requires Valid()
      modifies this
      ensures Valid()
      ensures prevented
      ensures log == old(log) + SubmitCalls(old(draft))
      ensures draft == DraftAfterSubmit(old(draft))
      ensures creating == (old(creating) || !IsBlank(old(draft)))
    {
      prevented := true;
      HandleSubmit();
    }

    /** A click on the Add button: ignored while a create is in flight (the button is
        disabled), otherwise `handleSubmit` exactly as for Enter. */
    method ClickAdd()
      requires Valid()
      modifies this
      ensures Valid()
      ensures log == old(log) + (if old(creating) then [] else SubmitCalls(old(draft)))
      ensures draft == (if old(creating) then old(draft) else DraftAfterSubmit(old(draft)))
      ensures creating == (old(creating) || !IsBlank(old(draft)))
    {
      if !creating {
        HandleSubmit();
      }
    }

    /** The create in flight completes; its `onSuccess` asks for a refetch of the
        list, and a failure sends nothing. The draft is not restored either way. */
    method CreateSettled(succeeded: bool)
      requires Valid() && creating
      modifies this
      ensures Valid()
      ensures !creating
      ensures log == if succeeded then old(log) + [Refetch] else old(log)
      ensures draft == old(draft)
    {
      creating := false;
      if succeeded {
        CreatesNotBlankAppend(log, Refetch);
        CountWhereAppend(log, Refetch, IsRefetch);
        CountWhereAppend(log, Refetch, IsCreate);
        log := log + [Refetch];
      }
    }
  }
}
