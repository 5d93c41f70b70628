/**
 * The to-do list: a sequence of `{id, text, completed}` records, the handlers that
 * add, toggle and delete, the three-way status filter and the counters.
 */
module Tasks {
  import opened Strings
  import Seqs

  /** A task. The creation timestamp is not kept; the id is whatever the caller supplies. */
  datatype Task = Task(id: int, text: string, completed: bool)

  predicate IsActive(t: Task) { !t.completed }
  predicate IsCompleted(t: Task) { t.completed }
  /** The callback `deleteTask` hands to `filter`. */
  function OtherId(id: int): Task -> bool {
    (t: Task) => t.id != id
  }

  /** `prev.map(task => task.id === id ? {...task, completed: !task.completed} : task)`. */
  function Toggle(tasks: seq<Task>, id: int): (r: seq<Task>)
    ensures |r| == |tasks|
    ensures forall i :: 0 <= i < |tasks| ==>
      if tasks[i].id == id then r[i] == tasks[i].(completed := !tasks[i].completed) else r[i] == tasks[i]
  {
    if tasks == [] then []
    else
      var t := tasks[0];
      [if t.id == id then t.(completed := !t.completed) else t] + Toggle(tasks[1..], id)
  }

  /** Toggling the same id twice restores the list. */
  lemma ToggleTwice(tasks: seq<Task>, id: int)
    ensures Toggle(Toggle(tasks, id), id) == tasks
  {
    var once := Toggle(tasks, id);
    assert forall i :: 0 <= i < |tasks| ==> once[i].id == tasks[i].id;
  }

  /** Toggling an id no task carries changes nothing. */
  lemma ToggleMissing(tasks: seq<Task>, id: int)
    requires forall i :: 0 <= i < |tasks| ==> tasks[i].id != id
    ensures Toggle(tasks, id) == tasks
  {
  }

  /** Toggling keeps ids and texts: only completion flags move. */
  lemma ToggleKeepsIdsAndTexts(tasks: seq<Task>, id: int)
    ensures forall i :: 0 <= i < |tasks| ==>
      Toggle(tasks, id)[i].id == tasks[i].id && Toggle(tasks, id)[i].text == tasks[i].text
  {
  }

  /** `prev.filter(task => task.id !== id)`. */
  function Delete(tasks: seq<Task>, id: int): (r: seq<Task>)
    ensures forall t :: t in r <==> t in tasks && t.id != id
    ensures Seqs.IsSubsequence(r, tasks)
    ensures forall t :: multiset(r)[t] == if t.id != id then multiset(tasks)[t] else 0
  {
    Seqs.FilterMembers(tasks, OtherId(id));
    Seqs.FilterSubsequence(tasks, OtherId(id));
    Seqs.FilterMultiset(tasks, OtherId(id));
    Seqs.Filter(tasks, OtherId(id))
  }

  /** Deleting twice is deleting once. */
  lemma DeleteIdempotent(tasks: seq<Task>, id: int)
    ensures Delete(Delete(tasks, id), id) == Delete(tasks, id)
  {
    Seqs.FilterIdempotent(tasks, OtherId(id));
  }

  /** Deleting an id no task carries changes nothing. */
  lemma DeleteMissing(tasks: seq<Task>, id: int)
    requires forall i :: 0 <= i < |tasks| ==> tasks[i].id != id
    ensures Delete(tasks, id) == tasks
  {
    Seqs.FilterAll(tasks, OtherId(id));
  }

  /** `getFilteredTasks`: 'active' keeps the incomplete tasks, 'completed' the completed ones, anything else all. */
  function FilteredTasks(tasks: seq<Task>, filter: string): (r: seq<Task>)
    ensures Seqs.IsSubsequence(r, tasks)
    ensures filter == "active" ==> forall t :: t in r <==> t in tasks && !t.completed
    ensures filter == "completed" ==> forall t :: t in r <==> t in tasks && t.completed
    ensures filter == "active" ==> forall t :: multiset(r)[t] == if !t.completed then multiset(tasks)[t] else 0
    ensures filter == "completed" ==> forall t :: multiset(r)[t] == if t.completed then multiset(tasks)[t] else 0
    ensures filter != "active" && filter != "completed" ==> r == tasks
  {
    if filter == "active" then
      Seqs.FilterMembers(tasks, IsActive);
      Seqs.FilterSubsequence(tasks, IsActive);
      Seqs.FilterMultiset(tasks, IsActive);
      Seqs.Filter(tasks, IsActive)
    else if filter == "completed" then
      Seqs.FilterMembers(tasks, IsCompleted);
      Seqs.FilterSubsequence(tasks, IsCompleted);
      Seqs.FilterMultiset(tasks, IsCompleted);
      Seqs.Filter(tasks, IsCompleted)
    else
      assert Seqs.IsSubsequence(tasks, tasks) by { Seqs.SubsequenceRefl(tasks); }
      tasks
  }

  datatype TaskStats = TaskStats(total: nat, active: nat, completed: nat)

  /** The three counters shown above the list. */
  function Stats(tasks: seq<Task>): (st: TaskStats)
    ensures st.total == |tasks|
    ensures st.active + st.completed == st.total
    ensures st.active == |Seqs.Positions(tasks, IsActive)|
    ensures st.completed == |Seqs.Positions(tasks, IsCompleted)|
  {
    Seqs.FilterComplementLength(tasks, IsCompleted, IsActive);
    Seqs.FilterLengthCountsPositions(tasks, IsActive);
    Seqs.FilterLengthCountsPositions(tasks, IsCompleted);
    TaskStats(|tasks|, |Seqs.Filter(tasks, IsActive)|, |Seqs.Filter(tasks, IsCompleted)|)
  }

  /** The 'active' and 'completed' views hold as many tasks as their counters say. */
  lemma FilterSizesMatchStats(tasks: seq<Task>)
    ensures |FilteredTasks(tasks, "active")| == Stats(tasks).active
    ensures |FilteredTasks(tasks, "completed")| == Stats(tasks).completed
    ensures |FilteredTasks(tasks, "all")| == Stats(tasks).total
  {
  }

  /** Appending a new (incomplete) task adds one to the total and one to the active count. */
  lemma AddCountsAsActive(tasks: seq<Task>, id: int, text: string)
    ensures var after := Stats(tasks + [Task(id, text, false)]);
      after == TaskStats(Stats(tasks).total + 1, Stats(tasks).active + 1, Stats(tasks).completed)
  {
    var t := Task(id, text, false);
    Seqs.FilterConcat(tasks, [t], IsActive);
    Seqs.FilterConcat(tasks, [t], IsCompleted);
  }

  /** The task manager's state: the task list, the text in the input box and the selected filter. */
  class TaskManager {
    var tasks: seq<Task>
    var newTask: string
    var filter: string

    constructor (stored: seq<Task>)
      ensures tasks == stored && newTask == "" && filter == "all"
    {
      tasks, newTask, filter := stored, "", "all";
    }

    method SetNewTask(v: string)
      modifies this
      ensures newTask == v && tasks == old(tasks) && filter == old(filter)
    {
      newTask := v;
    }

    method SetFilter(f: string)
      modifies this
      ensures filter == f && tasks == old(tasks) && newTask == old(newTask)
    {
      filter := f;
    }

    /** `addTask`: a blank input changes nothing; otherwise one new incomplete task is appended and the input cleared. */
    method AddTask(id: int)
      modifies this
      ensures filter == old(filter)
      ensures Trim(old(newTask)) == "" ==> tasks == old(tasks) && newTask == old(newTask)
      ensures Trim(old(newTask)) != "" ==>
        tasks == old(tasks) + [Task(id, Trim(old(newTask)), false)] && newTask == ""
    {
      var text := Trim(newTask);
      if text != "" {
        tasks := tasks + [Task(id, text, false)];
        newTask := "";
      }
    }

    method ToggleTask(id: int)
      modifies this
      ensures tasks == Toggle(old(tasks), id)
      ensures newTask == old(newTask) && filter == old(filter)
    {
      tasks := Toggle(tasks, id);
    }

    method DeleteTask(id: int)
      modifies this
      ensures tasks == Delete(old(tasks), id)
      ensures newTask == old(newTask) && filter == old(filter)
    {
      tasks := Delete(tasks, id);
    }

    /** The tasks the list shows under the selected filter; the list is as long as the matching counter. */
    function Visible(): (r: seq<Task>)
      reads this
      ensures r == FilteredTasks(tasks, filter)
      ensures Seqs.IsSubsequence(r, tasks)
      ensures |r| == if filter == "active" then Stats(tasks).active
                     else if filter == "completed" then Stats(tasks).completed
                     else Stats(tasks).total
    {
      FilterSizesMatchStats(tasks);
      FilteredTasks(tasks, filter)
    }
  }
}
