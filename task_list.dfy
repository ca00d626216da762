/** `TaskList`: the fetched tasks, the form toggle and the edited task,
    and an error message. There is no loading flag. Each handler is one step
    that takes the outcome of its API call as a parameter; saving is split
    into the synchronous part of `handleSave` and the refetch it starts. */
module TaskList {
  import opened Common
  import opened Entities
  import Lists

  const LoadFailed: string := "Failed to load tasks"
  const DeleteFailed: string := "Unable to delete task"

  class List {
    var tasks: seq<Task>
    var editingTask: Option<Task>
    var showTaskForm: bool
    var error: Option<string>

    constructor ()
      ensures tasks == [] && editingTask == None && !showTaskForm && error == None
    {
      tasks := [];
      editingTask := None;
      showTaskForm := false;
      error := None;
    }

    /** The mount effect's fetch has settled. A success takes the list but
        leaves the error as it was; a failure reports and keeps the list. */
    method FetchSettled(outcome: Outcome<seq<Task>>)
      modifies this
      ensures outcome.Success? ==> tasks == outcome.value && error == old(error)
      ensures outcome.Failure? ==> tasks == old(tasks) && error == Some(LoadFailed)
      ensures editingTask == old(editingTask) && showTaskForm == old(showTaskForm)
    {
      match outcome {
        case Success(list) => tasks := list;
        case Failure => error := Some(LoadFailed);
      }
    }

    /** `handleDelete(id)` once the delete call has settled. Success drops
        every task with the id and does not clear an earlier error; failure
        keeps the list and reports it. */
    method HandleDelete(id: int, succeeded: bool)
      modifies this
      ensures succeeded ==> tasks == Lists.WithoutKey(old(tasks), id, TaskId) && error == old(error)
      ensures !succeeded ==> tasks == old(tasks) && error == Some(DeleteFailed)
      ensures editingTask == old(editingTask) && showTaskForm == old(showTaskForm)
    {
      if succeeded {
        tasks := Lists.WithoutKey(tasks, id, TaskId);
      } else {
        error := Some(DeleteFailed);
      }
    }

    /** The form's `onSave`: hides the form and starts a refetch. */
    method HandleSave()
      modifies this
      ensures !showTaskForm
      ensures tasks == old(tasks) && editingTask == old(editingTask) && error == old(error)
    {
      showTaskForm := false;
    }

    /** The refetch started by `HandleSave` has settled: a success replaces
        the list wholesale, a failure changes nothing. */
    method RefetchSettled(outcome: Outcome<seq<Task>>)
      modifies this
      ensures tasks == (if outcome.Success? then outcome.value else old(tasks))
      ensures error == old(error) && editingTask == old(editingTask) && showTaskForm == old(showTaskForm)
    {
      if outcome.Success? {
        tasks := outcome.value;
      }
    }

    /** Opens the form, for `task` or for a new task. */
    method OpenTaskForm(task: Option<Task>)
      modifies this
      ensures editingTask == task && showTaskForm
      ensures tasks == old(tasks) && error == old(error)
    {
      editingTask := task;
      showTaskForm := true;
    }

    method CloseTaskForm()
      modifies this
      ensures editingTask == None && !showTaskForm
      ensures tasks == old(tasks) && error == old(error)
    {
      editingTask := None;
      showTaskForm := false;
    }
  }

  /** A successful delete keeps exactly the other tasks, in their order:
      deleting from a concatenation deletes from each part. */
  lemma DeleteKeepsOthers(tasks: seq<Task>, id: int, t: Task)
    ensures t in Lists.WithoutKey(tasks, id, TaskId) <==> t in tasks && t.id != id
    ensures forall a, b :: Lists.WithoutKey(a + b, id, TaskId) == Lists.WithoutKey(a, id, TaskId) + Lists.WithoutKey(b, id, TaskId)
  {
    Lists.WithoutKeyMembers(tasks, id, TaskId, t);
    forall a, b
      ensures Lists.WithoutKey(a + b, id, TaskId) == Lists.WithoutKey(a, id, TaskId) + Lists.WithoutKey(b, id, TaskId)
    {
      Lists.WithoutKeyAppend(a, b, id, TaskId);
    }
  }
}
