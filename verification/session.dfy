/**
 The page as a state machine: the user events the handlers react to, one step
 per event, runs of events from the loaded page, and the properties that hold
 across steps.
 */
module Session {
  import opened Wrappers
  import opened Seqs
  import opened Text
  import opened Tasks

  /**
   What the user can do. `newId` is the clock reading taken when a task is
   added; `index` is the position, in the full list, of the task whose
   checkbox or edit button was used.
   */
  datatype Event =
    | SubmitForm(input: string, dueDate: string, priority: string, newId: Id)
    | CheckBox(index: nat, checked: bool)
    | EditClick(index: nat)
    | DeleteClick(id: Id)
    | FilterClick(mode: FilterMode)

  /**
   Events the page can produce in state `s`: checkboxes and edit buttons exist
   only for listed tasks, and the clock gives an unused id to a new task.
   */
  predicate Enabled(s: State, e: Event) {
    match e
    case SubmitForm(input, _, _, newId) =>
      !AllSpace(input) && s.editingId.None? ==> newId !in Ids(s.tasks)
    case CheckBox(index, _) => index < |s.tasks|
    case EditClick(index) => index < |s.tasks|
    case DeleteClick(_) => true
    case FilterClick(_) => true
  }

  /** The state after one event; a refused submission leaves it as it was. */
  function Step(s: State, e: Event): State
    requires Enabled(s, e)
  {
    match e
    case SubmitForm(input, dueDate, priority, newId) =>
      (match Submit(s, input, dueDate, priority, newId)
       case Success(s') => s'
       case Failure(_) => s)
    case CheckBox(index, checked) => Toggle(s, index, checked)
    case EditClick(index) => StartEdit(s, index)
    case DeleteClick(id) => Delete(s, id)
    case FilterClick(mode) => SetFilter(s, mode)
  }

  /** The state after a run of events, or None if some event could not occur. */
  function Run(s: State, events: seq<Event>): Option<State>
    decreases |events|
  {
    if |events| == 0 then Some(s)
    else if Enabled(s, events[0]) then Run(Step(s, events[0]), events[1..])
    else None
  }

  /** No two stored tasks share an id. */
  ghost predicate UniqueIds(tasks: seq<Task>) {
    forall i, j :: 0 <= i < j < |tasks| ==> tasks[i].id != tasks[j].id
  }

  /** Every stored text is non-empty and already trimmed. */
  ghost predicate TextsValid(tasks: seq<Task>) {
    forall i :: 0 <= i < |tasks| ==> |tasks[i].text| > 0 && IsTrimmed(tasks[i].text)
  }

  ghost predicate Inv(s: State) {
    UniqueIds(s.tasks) && TextsValid(s.tasks)
  }

  /** An empty (all white space) submission changes nothing at all. */
  lemma RejectedSubmitIsNoOp(s: State, input: string, dueDate: string, priority: string, newId: Id)
    requires AllSpace(input)
    ensures Step(s, SubmitForm(input, dueDate, priority, newId)) == s
  {
  }

  /** Every event the page can produce keeps ids distinct and texts non-empty. */
  lemma StepPreservesInv(s: State, e: Event)
    requires Inv(s) && Enabled(s, e)
    ensures Inv(Step(s, e))
  {
    match e
    case SubmitForm(input, dueDate, priority, newId) =>
      if !AllSpace(input) {
        if s.editingId.None? {
          AddKeepsInv(s, input, dueDate, priority, newId);
        } else {
          EditKeepsInv(s, input, dueDate, priority, newId);
        }
      }
    case CheckBox(index, checked) =>
    case EditClick(index) =>
    case DeleteClick(id) =>
      DeleteKeepsInv(s, id);
    case FilterClick(mode) =>
  }

  lemma AddKeepsInv(s: State, input: string, dueDate: string, priority: string, newId: Id)
    requires Inv(s) && s.editingId.None? && !AllSpace(input) && newId !in Ids(s.tasks)
    ensures Inv(Submit(s, input, dueDate, priority, newId).value)
  {
    var t := Task(newId, Trim(input), dueDate, priority, false);
    var r := Submit(s, input, dueDate, priority, newId).value;
    forall i | 0 <= i < |s.tasks| ensures s.tasks[i].id != newId {
      assert s.tasks[i].id in Ids(s.tasks);
    }
    assert r.tasks == s.tasks + [t];
  }

  lemma EditKeepsInv(s: State, input: string, dueDate: string, priority: string, newId: Id)
    requires Inv(s) && s.editingId.Some? && !AllSpace(input)
    ensures Inv(Submit(s, input, dueDate, priority, newId).value)
  {
  }

  lemma DeleteKeepsInv(s: State, id: Id)
    requires Inv(s)
    ensures Inv(Delete(s, id))
  {
    var r := Delete(s, id).tasks;
    forall i | 0 <= i < |r| ensures |r[i].text| > 0 && IsTrimmed(r[i].text) {
      var k :| 0 <= k < |s.tasks| && s.tasks[k] == r[i];
    }
    DeleteKeepsUniqueIds(s, id);
  }

  lemma DeleteKeepsUniqueIds(s: State, id: Id)
    requires UniqueIds(s.tasks)
    ensures UniqueIds(Delete(s, id).tasks)
  {
    SubseqKeepsDistinct(Delete(s, id).tasks, s.tasks, (t: Task) => t.id);
  }

  /** With distinct ids, deleting a listed id removes exactly one task. */
  lemma {:induction false} DeleteRemovesOne(s: State, id: Id)
    requires UniqueIds(s.tasks)
    ensures |Delete(s, id).tasks| == if id in Ids(s.tasks) then |s.tasks| - 1 else |s.tasks|
    decreases |s.tasks|
  {
    if |s.tasks| > 0 {
      var rest := s.(tasks := s.tasks[1..]);
      assert Ids(s.tasks) == {s.tasks[0].id} + Ids(rest.tasks) by {
        forall x | x in Ids(s.tasks) ensures x in {s.tasks[0].id} + Ids(rest.tasks) {
          var k :| 0 <= k < |s.tasks| && s.tasks[k].id == x;
          if k > 0 {
            assert rest.tasks[k - 1].id == x;
          }
        }
        forall x | x in Ids(rest.tasks) ensures x in Ids(s.tasks) {
          var k :| 0 <= k < |rest.tasks| && rest.tasks[k].id == x;
          assert s.tasks[k + 1].id == x;
        }
      }
      if s.tasks[0].id == id {
        forall k | 0 <= k < |rest.tasks| ensures rest.tasks[k].id != id {
          assert rest.tasks[k] == s.tasks[k + 1];
        }
        assert id !in Ids(rest.tasks);
      } else {
        DeleteRemovesOne(rest, id);
      }
    }
  }

  /** Any run of events from a well-formed state ends in a well-formed state. */
  lemma {:induction false} RunPreservesInv(s: State, events: seq<Event>)
    requires Inv(s)
    ensures Run(s, events).Some? ==> Inv(Run(s, events).value)
    decreases |events|
  {
    if |events| > 0 && Enabled(s, events[0]) {
      StepPreservesInv(s, events[0]);
      RunPreservesInv(Step(s, events[0]), events[1..]);
    }
  }

  /**
   From the freshly loaded page, whatever the user does, ids stay distinct and
   every stored text is non-empty and trimmed.
   */
  lemma ReachableStatesValid(events: seq<Event>)
    ensures Run(Initial, events).Some? ==> Inv(Run(Initial, events).value)
  {
    RunPreservesInv(Initial, events);
  }

  /** Unchecking what was checked (or the reverse) restores the state. */
  lemma ToggleUndo(s: State, i: nat, checked: bool)
    requires i < |s.tasks|
    ensures Toggle(Toggle(s, i, checked), i, s.tasks[i].completed) == s
  {
  }

  /** Deleting a task just added gives back the list it was added to. */
  lemma AddThenDelete(s: State, input: string, dueDate: string, priority: string, newId: Id)
    requires s.editingId == None && !AllSpace(input) && newId !in Ids(s.tasks)
    ensures Delete(Submit(s, input, dueDate, priority, newId).value, newId).tasks == s.tasks
  {
    var t := Task(newId, Trim(input), dueDate, priority, false);
    var p := (t: Task) => t.id != newId;
    assert Submit(s, input, dueDate, priority, newId).value.tasks == s.tasks + [t];
    FilterAppend(p, s.tasks, [t]);
    forall i | 0 <= i < |s.tasks| ensures p(s.tasks[i]) {
      assert s.tasks[i].id in Ids(s.tasks);
    }
    FilterNone(p, [t]);
  }

  /**
   Clicking edit and submitting the form as the edit button filled it in
   leaves the list as it was and ends the edit.
   */
  lemma EditUnchangedRoundTrip(s: State, i: nat, newId: Id)
    requires Inv(s) && i < |s.tasks|
    ensures var t := s.tasks[i];
            Step(StartEdit(s, i), SubmitForm(t.text, t.dueDate, t.priority, newId))
            == s.(editingId := None)
  {
    var t := s.tasks[i];
    var e := StartEdit(s, i);
    TrimFixesTrimmed(t.text);
    assert !AllSpace(t.text) by {
      assert !IsSpace(t.text[0]);
    }
    var r := Submit(e, t.text, t.dueDate, t.priority, newId);
    assert r.Success?;
    assert r.value.tasks == s.tasks by {
      forall j | 0 <= j < |s.tasks| ensures r.value.tasks[j] == s.tasks[j] {
        if j != i {
          assert s.tasks[j].id != t.id;
        }
      }
    }
  }

  /**
   Clicking edit on a task, deleting that task and then submitting stores
   nothing: the list is what the deletion left and the edit is over.
   */
  lemma EditOfDeletedTaskDiscardsInput(s: State, i: nat, input: string, dueDate: string, priority: string, newId: Id)
    requires i < |s.tasks| && !AllSpace(input)
    ensures var d := Delete(StartEdit(s, i), s.tasks[i].id);
            Step(d, SubmitForm(input, dueDate, priority, newId)) == d.(editingId := None)
  {
    var d := Delete(StartEdit(s, i), s.tasks[i].id);
    assert s.tasks[i].id !in Ids(d.tasks);
  }

  /**
   Adding "Buy milk" to the empty list and ticking it: the completed view
   shows exactly that task and the pending view nothing.
   */
  lemma BuyMilkScenario(newId: Id)
    ensures var s := Run(Initial, [SubmitForm("Buy milk", "", "low", newId), CheckBox(0, true)]);
            && s.Some?
            && s.value.tasks == [Task(newId, "Buy milk", "", "low", true)]
            && View(s.value.tasks, Completed) == s.value.tasks
            && View(s.value.tasks, Pending) == []
  {
    var milk := "Buy milk";
    assert IsTrimmed(milk);
    TrimFixesTrimmed(milk);
    assert !AllSpace(milk) by {
      assert !IsSpace(milk[0]);
    }
    var s1 := Step(Initial, SubmitForm(milk, "", "low", newId));
    assert s1.tasks == [Task(newId, milk, "", "low", false)];
    var events := [SubmitForm(milk, "", "low", newId), CheckBox(0, true)];
    assert events[1..] == [CheckBox(0, true)];
    var s2 := Step(s1, CheckBox(0, true));
    assert Run(Initial, events) == Run(s1, [CheckBox(0, true)]);
    assert Run(s1, [CheckBox(0, true)]) == Run(s2, []);
    var done := s2.tasks;
    assert done == [Task(newId, milk, "", "low", true)];
    assert done[1..] == [];
  }
}
