/** The task-list store of the main screen as values: its three pieces of state,
    the user events that change them, and what whole sessions of such events can
    and cannot do to the two lists. The screen classes in module App are proved to
    follow `Step`. */
module TaskState {
  import opened JsString

  /** Removes the element at `i` (`Array.prototype.splice(i, 1)` on a copy). */
  function RemoveAt<T>(xs: seq<T>, i: int): (r: seq<T>)
    requires 0 <= i < |xs|
    ensures |r| == |xs| - 1
    ensures forall j :: 0 <= j < i ==> r[j] == xs[j]
    ensures forall j :: i <= j < |r| ==> r[j] == xs[j + 1]
    ensures multiset(r) + multiset{xs[i]} == multiset(xs)
  {
    assert xs == xs[..i] + [xs[i]] + xs[i + 1..];
    xs[..i] + xs[i + 1..]
  }

  lemma AppendAssoc<T>(a: seq<T>, b: seq<T>, c: seq<T>)
    ensures a + (b + c) == a + b + c
  {
  }

  lemma AppendHeadThenTail<T>(a: seq<T>, b: seq<T>)
    requires b != []
    ensures a + [b[0]] + b[1..] == a + b
  {
    assert [b[0]] + b[1..] == b;
    AppendAssoc(a, [b[0]], b[1..]);
  }

  /** The main screen's state: the pending tasks, the completed tasks and the
      text currently in the input box. */
  datatype Screen = Screen(pending: seq<string>, completed: seq<string>, input: string)

  /** The state when the screen is first mounted. */
  function Initial(): Screen {
    Screen([], [], "")
  }

  /** One user action on the main screen: typing into the input box, pressing
      add, or pressing delete or complete on the row at an index. */
  datatype Event =
    | Type(text: string)
    | Add
    | Delete(index: int)
    | Complete(index: int)
    | DeleteCompleted(index: int)

  /** The row indices of the rendered lists are the only indices the screen hands
      to its handlers. */
  predicate Enabled(s: Screen, e: Event) {
    match e
    case Type(_) => true
    case Add => true
    case Delete(i) => 0 <= i < |s.pending|
    case Complete(i) => 0 <= i < |s.pending|
    case DeleteCompleted(i) => 0 <= i < |s.completed|
  }

  /** Every task on the screen, pending or completed. */
  function Pool(s: Screen): multiset<string> {
    multiset(s.pending) + multiset(s.completed)
  }

  /** The text an event appends to the pending list: the input, for an add whose
      trimmed input is non-empty; nothing otherwise. */
  function Appended(s: Screen, e: Event): (r: seq<string>)
    ensures r == (if e.Add? && !IsBlank(s.input) then [s.input] else [])
  {
    TrimEmptyIffBlank(s.input);
    if e.Add? && Trim(s.input) != [] then [s.input] else []
  }

  /** What one event does to the screen. Only an add that appends changes the
      number of tasks upwards and only a delete changes it downwards, by one;
      only completing or deleting a completed task touches the completed list;
      and the input box changes only by typing or by a successful add. */
  function Step(s: Screen, e: Event): (r: Screen)
    requires Enabled(s, e)
    ensures |r.pending| + |r.completed| + (if e.Delete? || e.DeleteCompleted? then 1 else 0)
            == |s.pending| + |s.completed| + (if e.Add? && !IsBlank(s.input) then 1 else 0)
    ensures !e.Complete? && !e.DeleteCompleted? ==> r.completed == s.completed
    ensures !e.Type? && !(e.Add? && !IsBlank(s.input)) ==> r.input == s.input
  {
    TrimEmptyIffBlank(s.input);
    match e
    case Type(text) => s.(input := text)
    case Add => if Trim(s.input) != [] then Screen(s.pending + [s.input], s.completed, "") else s
    case Delete(i) => s.(pending := RemoveAt(s.pending, i))
    case Complete(i) => Screen(RemoveAt(s.pending, i), s.completed + [s.pending[i]], s.input)
    case DeleteCompleted(i) => s.(completed := RemoveAt(s.completed, i))
  }

  /** Completing moves a task without losing or duplicating it; no event puts
      anything on the pending list except the text an add appends, and none puts
      anything on the screen at all otherwise. */
  lemma StepBounds(s: Screen, e: Event)
    requires Enabled(s, e)
    ensures e.Complete? ==> Pool(Step(s, e)) == Pool(s)
    ensures multiset(Step(s, e).pending) <= multiset(s.pending) + multiset(Appended(s, e))
    ensures Pool(Step(s, e)) <= Pool(s) + multiset(Appended(s, e))
  {
    match e
    case Type(_) =>
    case Add =>
    case Delete(i) =>
      assert multiset(s.pending) == multiset(Step(s, e).pending) + multiset{s.pending[i]};
    case Complete(i) =>
      assert multiset(s.pending) == multiset(Step(s, e).pending) + multiset{s.pending[i]};
    case DeleteCompleted(i) =>
      assert multiset(s.completed) == multiset(Step(s, e).completed) + multiset{s.completed[i]};
  }

  /** A session: every event in turn finds the screen in a state where it can
      happen. */
  predicate Feasible(s: Screen, es: seq<Event>)
    decreases |es|
  {
    es == [] || (Enabled(s, es[0]) && Feasible(Step(s, es[0]), es[1..]))
  }

  /** The screen after a session. */
  function Run(s: Screen, es: seq<Event>): Screen
    requires Feasible(s, es)
    decreases |es|
  {
    if es == [] then s else Run(Step(s, es[0]), es[1..])
  }

  /** The texts the adds of a session append to the pending list, in order. */
  function Added(s: Screen, es: seq<Event>): seq<string>
    requires Feasible(s, es)
    decreases |es|
  {
    if es == [] then [] else Appended(s, es[0]) + Added(Step(s, es[0]), es[1..])
  }

  /** No completed task ever returns to the pending list: whatever is pending at
      the end of a session was pending at its start or was added during it. */
  lemma {:induction false} PendingOnlyFromAdds(s: Screen, es: seq<Event>)
    requires Feasible(s, es)
    ensures multiset(Run(s, es).pending) <= multiset(s.pending) + multiset(Added(s, es))
    decreases |es|
  {
    if es != [] {
      var t := Step(s, es[0]);
      StepBounds(s, es[0]);
      PendingOnlyFromAdds(t, es[1..]);
      assert Added(s, es) == Appended(s, es[0]) + Added(t, es[1..]);
    }
  }

  /** Nothing appears on the screen except through an add: the tasks at the end
      of a session are among those at its start and those added. */
  lemma {:induction false} PoolOnlyFromAdds(s: Screen, es: seq<Event>)
    requires Feasible(s, es)
    ensures Pool(Run(s, es)) <= Pool(s) + multiset(Added(s, es))
    ensures |Run(s, es).pending| + |Run(s, es).completed| <= |s.pending| + |s.completed| + |Added(s, es)|
    decreases |es|
  {
    if es != [] {
      var t := Step(s, es[0]);
      StepBounds(s, es[0]);
      PoolOnlyFromAdds(t, es[1..]);
      assert Added(s, es) == Appended(s, es[0]) + Added(t, es[1..]);
    }
  }

  /** The completed list changes only at its end unless a completed task is
      deleted: without such a delete, the completed list at the start of a
      session is a prefix of the one at its end. */
  lemma {:induction false} CompletedOnlyGrows(s: Screen, es: seq<Event>)
    requires Feasible(s, es)
    requires forall k :: 0 <= k < |es| ==> !es[k].DeleteCompleted?
    ensures s.completed <= Run(s, es).completed
    decreases |es|
  {
    if es != [] {
      var t := Step(s, es[0]);
      CompletedOnlyGrows(t, es[1..]);
    }
  }

  /** Typing or adding appends to the pending list only what `Appended` says and
      leaves the completed list alone. */
  lemma InputStep(s: Screen, e: Event)
    requires e.Type? || e.Add?
    ensures Step(s, e).pending == s.pending + Appended(s, e)
    ensures Step(s, e).completed == s.completed
  {
  }

  /** A session of typing and adding only: the pending list gains exactly the
      added texts, in the order they were added, and the completed list is
      untouched. */
  lemma {:induction false} AddsAppendInOrder(s: Screen, es: seq<Event>)
    requires Feasible(s, es)
    requires forall k :: 0 <= k < |es| ==> es[k].Type? || es[k].Add?
    ensures Run(s, es).pending == s.pending + Added(s, es)
    ensures Run(s, es).completed == s.completed
    decreases |es|
  {
    if es != [] {
      var t := Step(s, es[0]);
      InputStep(s, es[0]);
      assert forall k :: 0 <= k < |es[1..]| ==> es[1..][k] == es[k + 1];
      AddsAppendInOrder(t, es[1..]);
      assert Added(s, es) == Appended(s, es[0]) + Added(t, es[1..]);
      AppendAssoc(s.pending, Appended(s, es[0]), Added(t, es[1..]));
    }
  }

  /** Typing each text and pressing add after it. */
  function TypeAndAdd(texts: seq<string>): (es: seq<Event>)
    ensures |es| == 2 * |texts|
    ensures forall k :: 0 <= k < |texts| ==> es[2 * k] == Type(texts[k]) && es[2 * k + 1] == Add
  {
    if texts == [] then [] else [Type(texts[0]), Add] + TypeAndAdd(texts[1..])
  }

  /** Typing a non-blank text and pressing add appends it and clears the input. */
  lemma TypeThenAdd(s: Screen, text: string)
    requires !IsBlank(text)
    ensures Step(Step(s, Type(text)), Add) == Screen(s.pending + [text], s.completed, "")
  {
    TrimEmptyIffBlank(text);
  }

  /** Adding non-blank texts one after another puts exactly those texts, in that
      order, at the end of the pending list and leaves the input box empty. */
  lemma {:induction false} TypeAndAddAppends(s: Screen, texts: seq<string>)
    requires forall k :: 0 <= k < |texts| ==> !IsBlank(texts[k])
    ensures Feasible(s, TypeAndAdd(texts))
    ensures Run(s, TypeAndAdd(texts)) ==
            Screen(s.pending + texts, s.completed, if texts == [] then s.input else "")
    decreases |texts|
  {
    if texts != [] {
      var es := TypeAndAdd(texts);
      var rest := TypeAndAdd(texts[1..]);
      assert es == [Type(texts[0]), Add] + rest;
      var typed := Step(s, Type(texts[0]));
      var added := Step(typed, Add);
      TypeThenAdd(s, texts[0]);
      TypeAndAddAppends(added, texts[1..]);
      assert es[1..][1..] == rest;
      assert Feasible(typed, es[1..]);
      AppendHeadThenTail(s.pending, texts);
    }
  }

  /** Starting from a fresh screen, adding non-blank texts leaves the pending
      list equal to those texts in call order and the completed list empty. */
  lemma FreshScreenAdds(texts: seq<string>)
    requires forall k :: 0 <= k < |texts| ==> !IsBlank(texts[k])
    ensures Feasible(Initial(), TypeAndAdd(texts))
    ensures Run(Initial(), TypeAndAdd(texts)).pending == texts
    ensures Run(Initial(), TypeAndAdd(texts)).completed == []
  {
    TypeAndAddAppends(Initial(), texts);
  }

  /** The input state as declared: `useState()` with no argument leaves it
      undefined until the first keystroke. */
  datatype Option<T> = None | Some(value: T)

  /** What pressing add does when the handler runs to its end, or the TypeError
      that calling `trim` on an undefined input raises. */
  datatype Handled = Handled(screen: Screen) | ThrewTypeError

  /** Pressing add as the handler is written, over an input that may still be
      undefined: it throws exactly when nothing has been typed yet; a typed
      non-blank text is appended and the input cleared; a typed blank text
      changes nothing. */
  function AddAsWritten(pending: seq<string>, completed: seq<string>, task: Option<string>): (r: Handled)
    ensures r.ThrewTypeError? <==> task.None?
    ensures task.Some? && !IsBlank(task.value) ==> r == Handled(Screen(pending + [task.value], completed, ""))
    ensures task.Some? && IsBlank(task.value) ==> r == Handled(Screen(pending, completed, task.value))
  {
    match task
    case None => ThrewTypeError
    case Some(text) =>
      TrimEmptyIffBlank(text);
      Handled(Step(Screen(pending, completed, text), Add))
  }

  /** Pressing add on a freshly mounted screen, before anything is typed, throws
      instead of doing nothing. */
  lemma AddBeforeTypingThrows()
    ensures AddAsWritten([], [], None) == ThrewTypeError
  {
  }

  /** With the input starting as the empty string, pressing add before typing is
      the no-op that a blank input gets. */
  lemma AddBeforeTypingIsNoOp()
    ensures Step(Initial(), Add) == Initial()
  {
  }
}
