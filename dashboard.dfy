/**
 * The dashboard: counts, filters and one ordering over the store, for the signed-in user `actor`
 * at the time `now`. Nothing here changes the store.
 */
module Dashboard {
  import opened Wrappers
  import opened Ordering
  import opened Models
  import opened TaskRoutes

  /** Microseconds per day: timedelta(days=1). */
  const MICROS_PER_DAY: int := 86_400_000_000

  /** How many customers the dashboard shows as recently added. */
  const RECENT_LIMIT: nat := 5

  // ------------------------------------------------------------ customers

  function CustomersWithStatus(customers: map<int, Customer>, status: string): set<int> {
    set k | k in customers && customers[k].status == status
  }

  /** Two distinct statuses select disjoint customers. */
  lemma StatusesDisjoint(customers: map<int, Customer>, s: string, t: string)
    requires s != t
    ensures CustomersWithStatus(customers, s) !! CustomersWithStatus(customers, t)
    ensures CustomersWithStatus(customers, s) <= customers.Keys
    ensures CustomersWithStatus(customers, t) <= customers.Keys
  {
  }

  /** A subset is no larger than its superset. */
  lemma SubsetCard(a: set<int>, b: set<int>)
    requires a <= b
    ensures |a| <= |b|
    ensures |a| == |b| ==> a == b
  {
    assert b == a + (b - a);
    assert a * (b - a) == {};
  }

  /** Four disjoint parts of a set add up to no more than it, and to all of it when they cover it. */
  lemma FourPartsCard(a: set<int>, b: set<int>, c: set<int>, d: set<int>, u: set<int>)
    requires a !! b && a !! c && a !! d && b !! c && b !! d && c !! d
    requires a <= u && b <= u && c <= u && d <= u
    ensures |a| + |b| + |c| + |d| <= |u|
    ensures u <= a + b + c + d ==> |a| + |b| + |c| + |d| == |u|
  {
    assert (a + b) * c == {} && (a + b + c) * d == {};
    assert |a + b + c + d| == |a| + |b| + |c| + |d|;
    SubsetCard(a + b + c + d, u);
    if u <= a + b + c + d {
      assert u == a + b + c + d;
    }
  }

  /**
   * active + potential + inactive customers never exceed the total; adding the new ones, they make
   * it up exactly when every customer has one of the four statuses.
   */
  lemma CustomerCountsBounded(customers: map<int, Customer>)
    ensures var a, p, i := |CustomersWithStatus(customers, CUSTOMER_ACTIVE)|,
                           |CustomersWithStatus(customers, CUSTOMER_POTENTIAL)|,
                           |CustomersWithStatus(customers, CUSTOMER_INACTIVE)|;
      a + p + i <= |customers|
    ensures (forall k :: k in customers ==>
               customers[k].status in [CUSTOMER_NEW, CUSTOMER_ACTIVE, CUSTOMER_INACTIVE, CUSTOMER_POTENTIAL])
      ==> |CustomersWithStatus(customers, CUSTOMER_NEW)| + |CustomersWithStatus(customers, CUSTOMER_ACTIVE)|
          + |CustomersWithStatus(customers, CUSTOMER_POTENTIAL)| + |CustomersWithStatus(customers, CUSTOMER_INACTIVE)|
          == |customers|
  {
    var n := CustomersWithStatus(customers, CUSTOMER_NEW);
    var a := CustomersWithStatus(customers, CUSTOMER_ACTIVE);
    var p := CustomersWithStatus(customers, CUSTOMER_POTENTIAL);
    var i := CustomersWithStatus(customers, CUSTOMER_INACTIVE);
    StatusesDisjoint(customers, CUSTOMER_NEW, CUSTOMER_ACTIVE);
    StatusesDisjoint(customers, CUSTOMER_NEW, CUSTOMER_POTENTIAL);
    StatusesDisjoint(customers, CUSTOMER_NEW, CUSTOMER_INACTIVE);
    StatusesDisjoint(customers, CUSTOMER_ACTIVE, CUSTOMER_POTENTIAL);
    StatusesDisjoint(customers, CUSTOMER_ACTIVE, CUSTOMER_INACTIVE);
    StatusesDisjoint(customers, CUSTOMER_POTENTIAL, CUSTOMER_INACTIVE);
    FourPartsCard(n, a, p, i, customers.Keys);
    if forall k :: k in customers ==>
         customers[k].status in [CUSTOMER_NEW, CUSTOMER_ACTIVE, CUSTOMER_INACTIVE, CUSTOMER_POTENTIAL] {
      forall k | k in customers ensures k in n + a + p + i {
        assert customers[k].status in [CUSTOMER_NEW, CUSTOMER_ACTIVE, CUSTOMER_INACTIVE, CUSTOMER_POTENTIAL];
      }
    }
  }

  function CreatedOf(customers: map<int, Customer>, k: int): int {
    if k in customers then customers[k].createdAt else 0
  }

  /** ORDER BY customer.created_at DESC. */
  function ByNewest(customers: map<int, Customer>): (int, int) -> bool {
    (a: int, b: int) => CreatedOf(customers, b) <= CreatedOf(customers, a)
  }

  lemma ByNewestIsTotalPreorder(customers: map<int, Customer>)
    ensures TotalPreorder(ByNewest(customers))
  {
  }

  ghost function ByCreationDesc(customers: map<int, Customer>): (r: seq<int>)
    ensures multiset(r) == multiset(customers.Keys)
    ensures Sorted(r, ByNewest(customers))
  {
    ByNewestIsTotalPreorder(customers);
    OrderBy(customers.Keys, ByNewest(customers))
  }

  /** recent_customers: the first five of the customers, newest first. */
  ghost function RecentCustomers(customers: map<int, Customer>): seq<int> {
    var all := ByCreationDesc(customers);
    if |all| <= RECENT_LIMIT then all else all[..RECENT_LIMIT]
  }

  /** An ordering by descending creation time of exactly the customers, each once. */
  ghost predicate NewestFirst(all: seq<int>, customers: map<int, Customer>) {
    && |all| == |customers|
    && (forall i :: 0 <= i < |all| ==> all[i] in customers)
    && (forall k :: k in customers ==> k in all)
    && (forall i, j :: 0 <= i < j < |all| ==>
         all[i] != all[j] && customers[all[j]].createdAt <= customers[all[i]].createdAt)
  }

  lemma ByCreationDescIsNewestFirst(customers: map<int, Customer>)
    ensures NewestFirst(ByCreationDesc(customers), customers)
  {
    var all := ByCreationDesc(customers);
    ListsSetOnce(all, customers.Keys);
    forall i, j | 0 <= i < j < |all|
      ensures customers[all[j]].createdAt <= customers[all[i]].createdAt
    {
      assert all[i] in all && all[j] in all;
      assert ByNewest(customers)(all[i], all[j]);
    }
  }

  /** The first `n` of a newest-first ordering are the `n` newest: no customer left out is newer. */
  lemma PrefixOfNewestFirst(all: seq<int>, customers: map<int, Customer>, n: nat)
    requires NewestFirst(all, customers)
    ensures var r := if |all| <= n then all else all[..n];
      && |r| == (if |customers| <= n then |customers| else n)
      && (forall i :: 0 <= i < |r| ==> r[i] in customers)
      && (forall i, j :: 0 <= i < j < |r| ==>
           r[i] != r[j] && customers[r[j]].createdAt <= customers[r[i]].createdAt)
      && (forall k, i :: k in customers && k !in r && 0 <= i < |r| ==>
           customers[k].createdAt <= customers[r[i]].createdAt)
  {
    var r := if |all| <= n then all else all[..n];
    forall k, i | k in customers && k !in r && 0 <= i < |r|
      ensures customers[k].createdAt <= customers[r[i]].createdAt
    {
      var j :| 0 <= j < |all| && all[j] == k;
      if j < |r| {
        assert false;
      }
      assert r[i] == all[i];
    }
  }

  /**
   * At most five customers, each once, newest first, and no customer outside the list was
   * created after one inside it.
   */
  lemma RecentCustomersAreNewest(customers: map<int, Customer>)
    ensures var r := RecentCustomers(customers);
      && |r| == (if |customers| <= RECENT_LIMIT then |customers| else RECENT_LIMIT)
      && (forall i :: 0 <= i < |r| ==> r[i] in customers)
      && (forall i, j :: 0 <= i < j < |r| ==>
           r[i] != r[j] && customers[r[j]].createdAt <= customers[r[i]].createdAt)
      && (forall k, i :: k in customers && k !in r && 0 <= i < |r| ==>
           customers[k].createdAt <= customers[r[i]].createdAt)
  {
    ByCreationDescIsNewestFirst(customers);
    PrefixOfNewestFirst(ByCreationDesc(customers), customers, RECENT_LIMIT);
  }

  // ------------------------------------------------------------ the user's tasks

  /** All of the user's tasks: the task list without a status filter. */
  function UserTaskIds(tasks: map<int, Task>, actor: int): set<int> {
    Matching(tasks, actor, "")
  }

  /** filter_by(user_id=actor, status=status): the task list's filter with that status. */
  function TasksWithStatus(tasks: map<int, Task>, actor: int, status: string): set<int> {
    Matching(tasks, actor, status)
  }

  /** Two distinct statuses select disjoint tasks of the user, all among the user's tasks. */
  lemma TaskStatusesDisjoint(tasks: map<int, Task>, actor: int, s: string, t: string)
    requires s != t && s != "" && t != ""
    ensures TasksWithStatus(tasks, actor, s) !! TasksWithStatus(tasks, actor, t)
    ensures TasksWithStatus(tasks, actor, s) <= UserTaskIds(tasks, actor)
    ensures TasksWithStatus(tasks, actor, t) <= UserTaskIds(tasks, actor)
  {
    forall k | k in TasksWithStatus(tasks, actor, s) + TasksWithStatus(tasks, actor, t)
      ensures k in UserTaskIds(tasks, actor)
      ensures !(k in TasksWithStatus(tasks, actor, s) && k in TasksWithStatus(tasks, actor, t))
    {
      assert Listed(tasks[k], actor, "");
    }
  }

  /**
   * new + in progress + completed + postponed never exceed the user's total, and make it up exactly
   * when each of the user's tasks has one of the four statuses.
   */
  lemma TaskCountsBounded(tasks: map<int, Task>, actor: int)
    ensures var n, w, c, p := |TasksWithStatus(tasks, actor, TASK_NEW)|, |TasksWithStatus(tasks, actor, TASK_IN_PROGRESS)|,
                              |TasksWithStatus(tasks, actor, TASK_COMPLETED)|, |TasksWithStatus(tasks, actor, TASK_POSTPONED)|;
      && n + w + c + p <= |UserTaskIds(tasks, actor)|
      && ((forall k :: k in tasks && tasks[k].userId == Some(actor) ==>
             tasks[k].status in [TASK_NEW, TASK_IN_PROGRESS, TASK_COMPLETED, TASK_POSTPONED])
          ==> n + w + c + p == |UserTaskIds(tasks, actor)|)
  {
    var n := TasksWithStatus(tasks, actor, TASK_NEW);
    var w := TasksWithStatus(tasks, actor, TASK_IN_PROGRESS);
    var c := TasksWithStatus(tasks, actor, TASK_COMPLETED);
    var p := TasksWithStatus(tasks, actor, TASK_POSTPONED);
    var u := UserTaskIds(tasks, actor);
    TaskStatusesDisjoint(tasks, actor, TASK_NEW, TASK_IN_PROGRESS);
    TaskStatusesDisjoint(tasks, actor, TASK_NEW, TASK_COMPLETED);
    TaskStatusesDisjoint(tasks, actor, TASK_NEW, TASK_POSTPONED);
    TaskStatusesDisjoint(tasks, actor, TASK_IN_PROGRESS, TASK_COMPLETED);
    TaskStatusesDisjoint(tasks, actor, TASK_IN_PROGRESS, TASK_POSTPONED);
    TaskStatusesDisjoint(tasks, actor, TASK_COMPLETED, TASK_POSTPONED);
    FourPartsCard(n, w, c, p, u);
    if forall k :: k in tasks && tasks[k].userId == Some(actor) ==>
         tasks[k].status in [TASK_NEW, TASK_IN_PROGRESS, TASK_COMPLETED, TASK_POSTPONED] {
      forall k | k in u ensures k in n + w + c + p {
        assert tasks[k].status in [TASK_NEW, TASK_IN_PROGRESS, TASK_COMPLETED, TASK_POSTPONED];
      }
    }
  }

  /** The start of the UTC day `now` falls in: datetime.utcnow().date(). */
  function DayStart(now: int): (d: int)
    ensures d <= now < d + MICROS_PER_DAY
    ensures d % MICROS_PER_DAY == 0
  {
    now - now % MICROS_PER_DAY
  }

  /** Overdue: the user's, not completed, due strictly before now; a NULL due date compares false. */
  predicate Overdue(t: Task, actor: int, now: int) {
    Listed(t, actor, "") && t.status != TASK_COMPLETED && t.dueDate.Some? && t.dueDate.value < now
  }

  /** Due today: the user's, not completed, due on or after today's midnight and before tomorrow's. */
  predicate DueToday(t: Task, actor: int, now: int) {
    && Listed(t, actor, "") && t.status != TASK_COMPLETED && t.dueDate.Some?
    && DayStart(now) <= t.dueDate.value < DayStart(now) + MICROS_PER_DAY
  }

  function OverdueTasks(tasks: map<int, Task>, actor: int, now: int): set<int> {
    set k | k in tasks && Overdue(tasks[k], actor, now)
  }

  function TodayTasks(tasks: map<int, Task>, actor: int, now: int): set<int> {
    set k | k in tasks && DueToday(tasks[k], actor, now)
  }

  /** A task without a due date, a completed task and another user's task are never counted. */
  lemma NeverCounted(tasks: map<int, Task>, actor: int, now: int, k: int)
    requires k in tasks
    requires tasks[k].dueDate.None? || tasks[k].status == TASK_COMPLETED || tasks[k].userId != Some(actor)
    ensures k !in OverdueTasks(tasks, actor, now) && k !in TodayTasks(tasks, actor, now)
  {
  }

  /** What is overdue stays overdue as time passes, until it is completed. */
  lemma OverdueGrowsWithTime(tasks: map<int, Task>, actor: int, earlier: int, later: int)
    requires earlier <= later
    ensures OverdueTasks(tasks, actor, earlier) <= OverdueTasks(tasks, actor, later)
    ensures |OverdueTasks(tasks, actor, earlier)| <= |OverdueTasks(tasks, actor, later)|
  {
    forall k | k in OverdueTasks(tasks, actor, earlier) ensures k in OverdueTasks(tasks, actor, later) {
      assert Overdue(tasks[k], actor, earlier);
    }
    SubsetCard(OverdueTasks(tasks, actor, earlier), OverdueTasks(tasks, actor, later));
  }

  /** Completing one overdue task lowers the overdue count by exactly one. */
  lemma CompletingOverdueLowersCount(tasks: map<int, Task>, actor: int, now: int, id: int, at: int)
    requires id in tasks && Overdue(tasks[id], actor, now)
    ensures |OverdueTasks(tasks[id := CompleteTask(tasks[id], at)], actor, now)|
         == |OverdueTasks(tasks, actor, now)| - 1
  {
    var before := OverdueTasks(tasks, actor, now);
    var after := OverdueTasks(tasks[id := CompleteTask(tasks[id], at)], actor, now);
    assert after == before - {id};
  }

  /** Every task counted for today and already past due is also counted as overdue. */
  lemma TodayPastDueIsOverdue(tasks: map<int, Task>, actor: int, now: int, k: int)
    requires k in TodayTasks(tasks, actor, now) && tasks[k].dueDate.value < now
    ensures k in OverdueTasks(tasks, actor, now)
  {
  }

  // ------------------------------------------------------------ the page

  datatype DashboardView = DashboardView(
    totalCustomers: nat,
    activeCustomers: nat,
    potentialCustomers: nat,
    inactiveCustomers: nat,
    recentCustomers: seq<int>,
    userTasks: seq<int>,
    overdueTasks: nat,
    todayTasks: nat,
    totalTasks: nat,
    newTasks: nat,
    inProgressTasks: nat,
    completedTasks: nat,
    postponedTasks: nat)

  /** dashboard: everything the page shows, computed at one instant `now`. */
  ghost function View(customers: map<int, Customer>, tasks: map<int, Task>, actor: int, now: int): (v: DashboardView)
    ensures v.activeCustomers + v.potentialCustomers + v.inactiveCustomers <= v.totalCustomers
    ensures v.newTasks + v.inProgressTasks + v.completedTasks + v.postponedTasks <= v.totalTasks
    ensures |v.recentCustomers| <= RECENT_LIMIT
    ensures forall k :: k in v.userTasks <==> k in UserTaskIds(tasks, actor)
  {
    CustomerCountsBounded(customers);
    TaskCountsBounded(tasks, actor);
    RecentCustomersAreNewest(customers);
    IndexMembers(tasks, actor, "");
    DashboardView(
      |customers|,
      |CustomersWithStatus(customers, CUSTOMER_ACTIVE)|,
      |CustomersWithStatus(customers, CUSTOMER_POTENTIAL)|,
      |CustomersWithStatus(customers, CUSTOMER_INACTIVE)|,
      RecentCustomers(customers),
      Index(tasks, actor, ""),
      |OverdueTasks(tasks, actor, now)|,
      |TodayTasks(tasks, actor, now)|,
      |UserTaskIds(tasks, actor)|,
      |TasksWithStatus(tasks, actor, TASK_NEW)|,
      |TasksWithStatus(tasks, actor, TASK_IN_PROGRESS)|,
      |TasksWithStatus(tasks, actor, TASK_COMPLETED)|,
      |TasksWithStatus(tasks, actor, TASK_POSTPONED)|)
  }
}
