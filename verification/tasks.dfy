/**
 The in-memory task list of the to-do page: the task records, the id of the task
 being edited (JavaScript `null` when none) and the current filter, with one
 transition per user action and the filtered view that the page renders.
 */
module Tasks {
  import opened Wrappers
  import opened Seqs
  import opened Text

  /** Ids come from `Date.now()`: an integer number of milliseconds. */
  type Id = int

  /** A task record. Due date and priority are kept as the form's strings, unchecked. */
  datatype Task = Task(id: Id, text: string, dueDate: string, priority: string, completed: bool)

  /** The three filter buttons. */
  datatype FilterMode = All | Completed | Pending

  /** The page's three variables: the task list, the edited id and the filter. */
  datatype State = State(tasks: seq<Task>, editingId: Option<Id>, filter: FilterMode)

  /** Why a submitted form is refused (the page shows an alert). */
  datatype SubmitError = EmptyText

  /** The state when the page has loaded: no tasks, no edit, all tasks shown. */
  const Initial: State := State([], None, All)

  predicate IsDone(t: Task) { t.completed }

  predicate IsPending(t: Task) { !t.completed }

  /** The ids in use. */
  function Ids(tasks: seq<Task>): set<Id> {
    set i | 0 <= i < |tasks| :: tasks[i].id
  }

  /**
   The tasks the page lists for a filter: all of them in order, or the
   order-preserving selection of the completed, or of the pending, ones.
   */
  function View(tasks: seq<Task>, mode: FilterMode): (r: seq<Task>)
    ensures Subseq(r, tasks)
    ensures mode == All ==> r == tasks
    ensures mode == Completed ==>
              && (forall i :: 0 <= i < |r| ==> r[i].completed)
              && (forall i :: 0 <= i < |tasks| && tasks[i].completed ==> tasks[i] in r)
    ensures mode == Pending ==>
              && (forall i :: 0 <= i < |r| ==> !r[i].completed)
              && (forall i :: 0 <= i < |tasks| && !tasks[i].completed ==> tasks[i] in r)
  {
    match mode
    case Completed => Filter(IsDone, tasks)
    case Pending => Filter(IsPending, tasks)
    case All => SubseqRefl(tasks); tasks
  }

  /** The tasks on screen in state `s`. */
  function Visible(s: State): seq<Task> {
    View(s.tasks, s.filter)
  }

  /**
   The completed and the pending views split the list: together they hold
   every task exactly as often as the list does, and nothing else.
   */
  lemma ViewPartition(tasks: seq<Task>)
    ensures |View(tasks, Completed)| + |View(tasks, Pending)| == |tasks|
    ensures multiset(View(tasks, Completed)) + multiset(View(tasks, Pending)) == multiset(tasks)
  {
    FilterPartition(IsDone, IsPending, tasks);
  }

  /** `after` is `before` with the fields of every task numbered `id` replaced. */
  ghost predicate Edited(before: seq<Task>, after: seq<Task>, id: Id, text: string, dueDate: string, priority: string) {
    && |after| == |before|
    && forall i :: 0 <= i < |before| ==>
         && after[i].id == before[i].id
         && after[i].completed == before[i].completed
         && (before[i].id == id ==>
               after[i].text == text && after[i].dueDate == dueDate && after[i].priority == priority)
         && (before[i].id != id ==> after[i] == before[i])
  }

  function ReplaceFields(tasks: seq<Task>, id: Id, text: string, dueDate: string, priority: string): seq<Task> {
    seq(|tasks|, i requires 0 <= i < |tasks| =>
      if tasks[i].id == id then tasks[i].(text := text, dueDate := dueDate, priority := priority)
      else tasks[i])
  }

  /**
   Submitting the form. The text is trimmed; if nothing is left the submission
   is refused and the state stays as it was. Otherwise, with no edit in
   progress, one new pending task with the trimmed text and id `newId` (the
   clock reading) is appended; with an edit in progress, every task carrying
   the edited id gets the new text, due date and priority, keeping its id and
   completion, and the edit ends.
   */
  function Submit(s: State, input: string, dueDate: string, priority: string, newId: Id): (r: Result<State, SubmitError>)
    ensures r.Failure? <==> AllSpace(input)
    ensures r.Success? ==> r.value.editingId == None && r.value.filter == s.filter
    ensures r.Success? && s.editingId == None ==>
              && |r.value.tasks| == |s.tasks| + 1
              && r.value.tasks[..|s.tasks|] == s.tasks
              && r.value.tasks[|s.tasks|] == Task(newId, Trim(input), dueDate, priority, false)
    ensures r.Success? && s.editingId.Some? ==>
              Edited(s.tasks, r.value.tasks, s.editingId.value, Trim(input), dueDate, priority)
    ensures r.Success? && s.editingId.Some? && s.editingId.value !in Ids(s.tasks) ==>
              r.value.tasks == s.tasks
  {
    var text := Trim(input);
    if |text| == 0 then Failure(EmptyText)
    else match s.editingId
      case Some(id) => Success(State(ReplaceFields(s.tasks, id, text, dueDate, priority), None, s.filter))
      case None => Success(s.(tasks := s.tasks + [Task(newId, text, dueDate, priority, false)]))
  }

  /**
   Changing the checkbox of the task at position `i`: its completion becomes
   the box's value; no other field and no other task changes.
   */
  function Toggle(s: State, i: nat, checked: bool): (r: State)
    requires i < |s.tasks|
    ensures |r.tasks| == |s.tasks|
    ensures r.tasks[i].completed == checked
    ensures r.tasks[i].id == s.tasks[i].id && r.tasks[i].text == s.tasks[i].text
    ensures r.tasks[i].dueDate == s.tasks[i].dueDate && r.tasks[i].priority == s.tasks[i].priority
    ensures forall j :: 0 <= j < |s.tasks| && j != i ==> r.tasks[j] == s.tasks[j]
    ensures r.editingId == s.editingId && r.filter == s.filter
  {
    s.(tasks := s.tasks[i := s.tasks[i].(completed := checked)])
  }

  /**
   Deleting the task numbered `id`: every task with that id goes, the others
   stay in their order. An edit in progress is not cancelled.
   */
  function Delete(s: State, id: Id): (r: State)
    ensures Subseq(r.tasks, s.tasks)
    ensures forall i :: 0 <= i < |r.tasks| ==> r.tasks[i].id != id
    ensures forall i :: 0 <= i < |s.tasks| && s.tasks[i].id != id ==> s.tasks[i] in r.tasks
    ensures id !in Ids(s.tasks) ==> r.tasks == s.tasks
    ensures r.editingId == s.editingId && r.filter == s.filter
  {
    s.(tasks := Filter((t: Task) => t.id != id, s.tasks))
  }

  /**
   Clicking the edit button of the task at position `i`: that task's id
   becomes the edited one; the list does not change.
   */
  function StartEdit(s: State, i: nat): (r: State)
    requires i < |s.tasks|
    ensures r.editingId == Some(s.tasks[i].id)
    ensures r.tasks == s.tasks && r.filter == s.filter
  {
    s.(editingId := Some(s.tasks[i].id))
  }

  /** Clicking a filter button: only the filter changes; the list is untouched. */
  function SetFilter(s: State, mode: FilterMode): (r: State)
    ensures r.filter == mode
    ensures r.tasks == s.tasks && r.editingId == s.editingId
    ensures Visible(r) == View(s.tasks, mode)
  {
    s.(filter := mode)
  }
}
