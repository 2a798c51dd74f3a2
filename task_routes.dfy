/**
 * The task request handlers. Every task handler but `index` and `add` first looks the task up and
 * refuses anyone but its owner; the handlers that change state are methods that take the store and
 * whose new state is stated through the pure functions below.
 */
module TaskRoutes {
  import opened Wrappers
  import opened Ordering
  import opened Models
  import opened Db
  import opened TaskForms

  // ------------------------------------------------------------ the list

  /** filter_by(user_id=actor), and status=filter as well when the filter is not empty. */
  predicate Listed(t: Task, actor: int, statusFilter: string) {
    t.userId == Some(actor) && (statusFilter != "" ==> t.status == statusFilter)
  }

  function Matching(tasks: map<int, Task>, actor: int, statusFilter: string): set<int> {
    set k | k in tasks && Listed(tasks[k], actor, statusFilter)
  }

  /** due_date ASC in SQLite: a missing due date (NULL) sorts before every date. */
  predicate DueLe(a: Option<int>, b: Option<int>) {
    a.None? || (b.Some? && a.value <= b.value)
  }

  function DueOf(tasks: map<int, Task>, k: int): Option<int> {
    if k in tasks then tasks[k].dueDate else None
  }

  /** ORDER BY task.due_date. */
  function ByDueDate(tasks: map<int, Task>): (int, int) -> bool {
    (a: int, b: int) => DueLe(DueOf(tasks, a), DueOf(tasks, b))
  }

  lemma ByDueDateIsTotalPreorder(tasks: map<int, Task>)
    ensures TotalPreorder(ByDueDate(tasks))
  {
  }

  /** index: the actor's tasks, optionally of one status, by ascending due date. */
  ghost function Index(tasks: map<int, Task>, actor: int, statusFilter: string): (r: seq<int>)
    ensures multiset(r) == multiset(Matching(tasks, actor, statusFilter))
    ensures Sorted(r, ByDueDate(tasks))
  {
    ByDueDateIsTotalPreorder(tasks);
    OrderBy(Matching(tasks, actor, statusFilter), ByDueDate(tasks))
  }

  /** The list holds exactly the actor's tasks that pass the status filter, each once. */
  lemma IndexMembers(tasks: map<int, Task>, actor: int, statusFilter: string)
    ensures var r := Index(tasks, actor, statusFilter);
      && (forall k :: k in r <==> k in tasks && tasks[k].userId == Some(actor)
                                  && (statusFilter != "" ==> tasks[k].status == statusFilter))
      && (forall i, j :: 0 <= i < j < |r| ==> r[i] != r[j])
  {
    ListsSetOnce(Index(tasks, actor, statusFilter), Matching(tasks, actor, statusFilter));
  }

  /** No task of the list comes after one with a later due date. */
  lemma IndexByDueDate(tasks: map<int, Task>, actor: int, statusFilter: string)
    ensures var r := Index(tasks, actor, statusFilter);
      forall i, j :: 0 <= i < j < |r| ==>
        r[i] in tasks && r[j] in tasks && DueLe(tasks[r[i]].dueDate, tasks[r[j]].dueDate)
  {
    var r := Index(tasks, actor, statusFilter);
    IndexMembers(tasks, actor, statusFilter);
    forall i, j | 0 <= i < j < |r|
      ensures r[i] in tasks && r[j] in tasks && DueLe(tasks[r[i]].dueDate, tasks[r[j]].dueDate)
    {
      assert r[i] in r && r[j] in r;
      assert ByDueDate(tasks)(r[i], r[j]);
    }
  }

  /** Tasks without a due date come before every task that has one. */
  lemma IndexNoDueDateFirst(tasks: map<int, Task>, actor: int, statusFilter: string, i: int, j: int)
    requires var r := Index(tasks, actor, statusFilter);
      0 <= i < |r| && 0 <= j < |r| && r[i] in tasks && r[j] in tasks
      && tasks[r[i]].dueDate.None? && tasks[r[j]].dueDate.Some?
    ensures i < j
  {
    IndexByDueDate(tasks, actor, statusFilter);
    if j <= i {
      assert false;
    }
  }

  /** A status filter narrows the unfiltered list to the tasks of that status. */
  lemma IndexFilterNarrows(tasks: map<int, Task>, actor: int, status: string)
    requires status != ""
    ensures forall k :: k in Index(tasks, actor, status) <==>
      k in Index(tasks, actor, "") && k in tasks && tasks[k].status == status
  {
    IndexMembers(tasks, actor, status);
    IndexMembers(tasks, actor, "");
  }

  /** No task appears in two different users' lists, whatever filter either of them uses. */
  lemma IndexOnlyOwn(tasks: map<int, Task>, actor: int, actorFilter: string, other: int, otherFilter: string)
    requires other != actor
    ensures forall k :: k in Index(tasks, actor, actorFilter) ==> k !in Index(tasks, other, otherFilter)
  {
    IndexMembers(tasks, actor, actorFilter);
    IndexMembers(tasks, other, otherFilter);
  }

  // ------------------------------------------------------------ one task

  /**
   * view, and the check that edit, delete and complete make first: a missing task is a 404, and a
   * task of anyone else is refused.
   */
  function Access(tasks: map<int, Task>, actor: int, id: int): (r: Outcome)
    ensures r == NotFound <==> id !in tasks
    ensures r == Forbidden <==> id in tasks && tasks[id].userId != Some(actor)
    ensures r == Done(id) <==> id in tasks && tasks[id].userId == Some(actor)
    ensures r == NotFound || r == Forbidden || r == Done(id)
  {
    if id !in tasks then NotFound
    else if tasks[id].userId != Some(actor) then Forbidden
    else Done(id)
  }

  /** A task that has lost its owner (its user was deleted) is open to nobody. */
  lemma OrphanOpenToNobody(tasks: map<int, Task>, actor: int, id: int)
    requires id in tasks && tasks[id].userId == None
    ensures Access(tasks, actor, id) == Forbidden
  {
  }

  /** The task row built from a submitted form: owned by the actor, not completed. */
  function NewTask(f: TaskForm, actor: int, now: int): (t: Task)
    ensures t.userId == Some(actor) && t.completedAt == None && t.createdAt == now
  {
    Task(f.title, f.description, DueDateOf(f.dueDate), f.priority, f.status, now, None, f.customerId,
         Some(actor))
  }

  /** populate_obj with a TaskForm: writes the form's fields only. */
  function PopulateTask(t: Task, f: TaskForm): Task {
    t.(title := f.title, description := f.description, dueDate := DueDateOf(f.dueDate),
       priority := f.priority, status := f.status, customerId := f.customerId)
  }

  /**
   * An edit never changes the owner, the creation time or the completion time, so whoever could
   * open the task before the edit can open it after, and nobody else.
   */
  lemma PopulateKeepsOwner(tasks: map<int, Task>, id: int, f: TaskForm)
    requires id in tasks
    ensures var u := PopulateTask(tasks[id], f);
      u.userId == tasks[id].userId && u.createdAt == tasks[id].createdAt
      && u.completedAt == tasks[id].completedAt
    ensures forall a :: Access(tasks[id := PopulateTask(tasks[id], f)], a, id) == Access(tasks, a, id)
  {
  }

  /** complete: the status becomes completed and the completion time is now; nothing else changes. */
  function CompleteTask(t: Task, now: int): (u: Task)
    ensures u.status == TASK_COMPLETED && u.completedAt == Some(now)
    ensures u.(status := t.status, completedAt := t.completedAt) == t
  {
    t.(status := TASK_COMPLETED, completedAt := Some(now))
  }

  /** Completing twice is completing once at the later time: a repeated call re-stamps the task. */
  lemma CompleteRestamps(t: Task, first: int, second: int)
    ensures CompleteTask(CompleteTask(t, first), second) == CompleteTask(t, second)
    ensures first != second ==> CompleteTask(CompleteTask(t, first), second) != CompleteTask(t, first)
  {
    var once := CompleteTask(t, first);
    if first != second {
      assert CompleteTask(once, second).completedAt != once.completedAt;
    }
  }

  // ------------------------------------------------------------ handlers

  /** add: a valid form creates a task owned by the actor, for one of the existing customers. */
  method Add(db: Store, actor: int, f: TaskForm, now: int) returns (outcome: Outcome)
    requires db.Valid() && actor in db.users
    modifies db`tasks, db`nextTaskId
    ensures db.Valid()
    ensures outcome == (if TaskFormValid(f, db.customers.Keys) then Done(old(db.nextTaskId)) else InvalidForm)
    ensures outcome.Done? ==>
      && outcome.id !in old(db.tasks)
      && db.tasks == old(db.tasks)[outcome.id := NewTask(f, actor, now)]
      && db.tasks[outcome.id].userId == Some(actor)
    ensures !outcome.Done? ==> db.tasks == old(db.tasks) && db.nextTaskId == old(db.nextTaskId)
  {
    if !TaskFormValid(f, db.customers.Keys) {
      return InvalidForm;
    }
    var id := db.nextTaskId;
    db.tasks := db.tasks[id := NewTask(f, actor, now)];
    db.nextTaskId := id + 1;
    return Done(id);
  }

  /** edit: the owner's valid form overwrites the form fields of the task. */
  method Edit(db: Store, actor: int, id: int, f: TaskForm) returns (outcome: Outcome)
    requires db.Valid()
    modifies db`tasks
    ensures db.Valid()
    ensures outcome == (if !Access(old(db.tasks), actor, id).Done? then Access(old(db.tasks), actor, id)
                        else if !TaskFormValid(f, db.customers.Keys) then InvalidForm
                        else Done(id))
    ensures db.tasks == (if outcome.Done? then old(db.tasks)[id := PopulateTask(old(db.tasks)[id], f)]
                         else old(db.tasks))
  {
    var access := Access(db.tasks, actor, id);
    if !access.Done? {
      return access;
    }
    if !TaskFormValid(f, db.customers.Keys) {
      return InvalidForm;
    }
    db.tasks := db.tasks[id := PopulateTask(db.tasks[id], f)];
    return Done(id);
  }

  /** delete: the owner removes exactly that task. */
  method Delete(db: Store, actor: int, id: int) returns (outcome: Outcome)
    requires db.Valid()
    modifies db`tasks
    ensures db.Valid()
    ensures outcome == Access(old(db.tasks), actor, id)
    ensures db.tasks == (if outcome.Done? then old(db.tasks) - {id} else old(db.tasks))
  {
    outcome := Access(db.tasks, actor, id);
    if outcome.Done? {
      db.tasks := db.tasks - {id};
    }
  }

  /** complete: the owner marks the task completed at the current time. */
  method Complete(db: Store, actor: int, id: int, now: int) returns (outcome: Outcome)
    requires db.Valid()
    modifies db`tasks
    ensures db.Valid()
    ensures outcome == Access(old(db.tasks), actor, id)
    ensures db.tasks == (if outcome.Done? then old(db.tasks)[id := CompleteTask(old(db.tasks)[id], now)]
                         else old(db.tasks))
  {
    outcome := Access(db.tasks, actor, id);
    if outcome.Done? {
      db.tasks := db.tasks[id := CompleteTask(db.tasks[id], now)];
    }
  }
}
