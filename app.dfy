/** The two screens of the app with the state they keep and the handlers that
    update it. Each handler replaces a list with a new one built from a copy, as
    the React state setters do. Every handler of the main screen is proved to make
    the move that `TaskState.Step` describes, so the session lemmas of that module
    apply to it; the completed-tasks screen's delete is stated by slicing only. */
module App {
  import opened JsString
  import opened TaskState

  /** The main screen: the pending tasks (`taskItems`), the completed tasks
      (`completedTaskItems`) and the text in the input box (`task`). */
  class TaskScreen {
    var pending: seq<string>
    var completed: seq<string>
    var input: string

    /** The screen's state as a value. */
    function State(): Screen
      reads this
    {
      Screen(pending, completed, input)
    }

    /** Both lists start empty and so does the input box. */
    constructor ()
      ensures pending == [] && completed == [] && input == ""
      ensures State() == Initial()
    {
      pending, completed, input := [], [], "";
    }

    /** The input box's change handler stores the text as typed. */
    method SetTask(text: string)
      modifies this
      ensures input == text
      ensures pending == old(pending) && completed == old(completed)
      ensures State() == Step(old(State()), Type(text))
    {
      input := text;
    }

    /** Pressing add: a non-blank input is appended as typed, untrimmed, to the
        end of the pending list and the input box is cleared; a blank input
        changes nothing. */
    method HandleAddTask()
      modifies this
      ensures !IsBlank(old(input)) ==> pending == old(pending) + [old(input)] && input == ""
      ensures IsBlank(old(input)) ==> pending == old(pending) && input == old(input)
      ensures completed == old(completed)
      ensures State() == Step(old(State()), Add)
    {
      TrimEmptyIffBlank(input);
      if Trim(input) != [] {
        pending := pending + [input];
        input := "";
      }
    }

    /** Deleting the pending task at a row index removes exactly that task. */
    method DeleteTask(index: int)
      requires 0 <= index < |pending|
      modifies this
      ensures pending == old(pending)[..index] + old(pending)[index + 1..]
      ensures |pending| == |old(pending)| - 1
      ensures completed == old(completed) && input == old(input)
      ensures State() == Step(old(State()), Delete(index))
    {
      var itemsCopy := pending;
      itemsCopy := RemoveAt(itemsCopy, index);
      pending := itemsCopy;
    }

    /** Deleting the completed task at a row index removes exactly that task. */
    method DeleteCompletedTask(index: int)
      requires 0 <= index < |completed|
      modifies this
      ensures completed == old(completed)[..index] + old(completed)[index + 1..]
      ensures |completed| == |old(completed)| - 1
      ensures pending == old(pending) && input == old(input)
      ensures State() == Step(old(State()), DeleteCompleted(index))
    {
      var itemsCopy := completed;
      itemsCopy := RemoveAt(itemsCopy, index);
      completed := itemsCopy;
    }

    /** Completing the pending task at a row index moves it, text unchanged, to
        the end of the completed list: no task is lost or duplicated. */
    method CompleteTask(index: int)
      requires 0 <= index < |pending|
      modifies this
      ensures pending == old(pending)[..index] + old(pending)[index + 1..]
      ensures completed == old(completed) + [old(pending)[index]]
      ensures multiset(pending) + multiset(completed) == old(multiset(pending) + multiset(completed))
      ensures |pending| + |completed| == old(|pending| + |completed|)
      ensures input == old(input)
      ensures State() == Step(old(State()), Complete(index))
    {
      var updatedTaskItems := pending;
      var completedTask := updatedTaskItems[index];
      updatedTaskItems := RemoveAt(updatedTaskItems, index);
      pending := updatedTaskItems;
      completed := completed + [completedTask];
      StepBounds(old(State()), Complete(index));
    }
  }

  /** The completed-tasks screen keeps its own copy of the completed list, with
      the same delete handler as the main screen. */
  class CompletedTasksScreen {
    var completed: seq<string>

    /** The list starts empty. */
    constructor ()
      ensures completed == []
    {
      completed := [];
    }

    /** Deleting the completed task at a row index removes exactly that task. */
    method DeleteCompletedTask(index: int)
      requires 0 <= index < |completed|
      modifies this
      ensures completed == old(completed)[..index] + old(completed)[index + 1..]
      ensures |completed| == |old(completed)| - 1
    {
      var itemsCopy := completed;
      itemsCopy := RemoveAt(itemsCopy, index);
      completed := itemsCopy;
    }
  }

  /** Adding on a fresh main screen, relying on nothing but the handlers'
      contracts: a non-blank text is appended, a blank one is ignored. */
  method SampleAdds() {
    var screen := new TaskScreen();
    screen.SetTask("Buy milk");
    assert !IsWhitespace("Buy milk"[0]);
    screen.HandleAddTask();
    assert screen.pending == ["Buy milk"] && screen.completed == [];
    screen.SetTask("   ");
    screen.HandleAddTask();
    assert screen.pending == ["Buy milk"] && screen.input == "   ";
  }

  /** Completing and deleting on a main screen holding two tasks. */
  method SampleMoves(screen: TaskScreen)
    requires screen.pending == ["Buy milk", "Walk dog"] && screen.completed == []
    modifies screen
  {
    screen.CompleteTask(0);
    assert screen.pending == ["Walk dog"] && screen.completed == ["Buy milk"];
    screen.DeleteCompletedTask(0);
    assert screen.completed == [];
    screen.DeleteTask(0);
    assert screen.pending == [];
  }
}
