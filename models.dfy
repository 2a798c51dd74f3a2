/**
 * The entities of the CRM and the role policy attached to a user's role string.
 * Timestamps are integers (microseconds of UTC time); nullable text columns hold "" for no value.
 */
module Models {
  import opened Wrappers

  // The four role tags a user's `role` column is meant to hold.
  const ADMIN: string := "admin"
  const MANAGER: string := "manager"
  const EMPLOYEE: string := "employee"
  const VIEWER: string := "viewer"

  /** The label shown for a role string that is none of the four tags. */
  const UNKNOWN_ROLE_LABEL: string := "Неизвестно"

  // Customer statuses. The dashboard also counts POTENTIAL, which no form offers.
  const CUSTOMER_NEW: string := "Новый"
  const CUSTOMER_ACTIVE: string := "Активный"
  const CUSTOMER_INACTIVE: string := "Неактивный"
  const CUSTOMER_POTENTIAL: string := "Потенциальный"

  // Task priorities and statuses.
  const PRIORITY_LOW: string := "Низкий"
  const PRIORITY_MEDIUM: string := "Средний"
  const PRIORITY_HIGH: string := "Высокий"
  const TASK_NEW: string := "Новая"
  const TASK_IN_PROGRESS: string := "В работе"
  const TASK_COMPLETED: string := "Завершена"
  const TASK_POSTPONED: string := "Отложена"

  // Column defaults, used when a row is built without the column.
  const DEFAULT_ROLE: string := EMPLOYEE
  const DEFAULT_CUSTOMER_STATUS: string := CUSTOMER_NEW
  const DEFAULT_PRIORITY: string := PRIORITY_MEDIUM
  const DEFAULT_TASK_STATUS: string := TASK_NEW
  const DEFAULT_IS_PRIMARY: bool := false

  /** The roles as data; a stored role string is one of their tags, or something else. */
  datatype Role = Admin | Manager | Employee | Viewer {
    function Tag(): string {
      match this
      case Admin => ADMIN
      case Manager => MANAGER
      case Employee => EMPLOYEE
      case Viewer => VIEWER
    }
  }

  /** Role.get_choices(): each tag with its display label, in display order. */
  const ROLE_CHOICES: seq<(string, string)> := [
    (ADMIN, "Администратор"),
    (MANAGER, "Менеджер"),
    (EMPLOYEE, "Сотрудник"),
    (VIEWER, "Наблюдатель")
  ]

  /** The tags of ROLE_CHOICES: the values the role select field accepts, each once. */
  function RoleTags(): (tags: seq<string>)
    ensures forall s :: s in tags <==> ParseRole(s).Some?
    ensures forall i, j :: 0 <= i < j < |tags| ==> tags[i] != tags[j]
  {
    [ROLE_CHOICES[0].0, ROLE_CHOICES[1].0, ROLE_CHOICES[2].0, ROLE_CHOICES[3].0]
  }

  function ParseRole(s: string): Option<Role> {
    if s == ADMIN then Some(Admin)
    else if s == MANAGER then Some(Manager)
    else if s == EMPLOYEE then Some(Employee)
    else if s == VIEWER then Some(Viewer)
    else None
  }

  // The role predicates of a user, as functions of the role string alone.
  predicate IsAdmin(role: string) { role == ADMIN }
  predicate IsManager(role: string) { role == MANAGER || role == ADMIN }
  predicate IsEmployee(role: string) { role == EMPLOYEE || IsManager(role) }
  predicate IsViewer(role: string) { role == VIEWER }
  predicate CanCreate(role: string) { role in [ADMIN, MANAGER, EMPLOYEE] }
  predicate CanEdit(role: string) { role in [ADMIN, MANAGER, EMPLOYEE] }
  predicate CanDelete(role: string) { role in [ADMIN, MANAGER] }
  predicate CanManageUsers(role: string) { role == ADMIN }

  /** An abstract salted hash: the only thing the model keeps is which password it accepts. */
  datatype PasswordHash = Digest(secret: string)

  function HashPassword(password: string): PasswordHash {
    Digest(password)
  }

  predicate CheckPassword(h: PasswordHash, password: string) {
    h.secret == password
  }

  datatype User = User(
    username: string,
    email: string,
    passwordHash: PasswordHash,
    role: string,
    firstName: string,
    lastName: string,
    position: string,
    createdAt: int,
    lastLogin: Option<int>)

  datatype Customer = Customer(
    name: string,
    company: string,
    email: string,
    phone: string,
    address: string,
    status: string,
    notes: string,
    createdAt: int)

  datatype Contact = Contact(
    firstName: string,
    lastName: string,
    position: string,
    email: string,
    phone: string,
    isPrimary: bool,
    notes: string,
    createdAt: int,
    customerId: int)

  datatype Task = Task(
    title: string,
    description: string,
    dueDate: Option<int>,
    priority: string,
    status: string,
    createdAt: int,
    completedAt: Option<int>,
    customerId: int,
    userId: Option<int>)

  /** User.set_password: the new hash accepts exactly the given password. */
  function SetPassword(u: User, password: string): (v: User)
    ensures v == u.(passwordHash := v.passwordHash)
    ensures forall q :: CheckPassword(v.passwordHash, q) <==> q == password
  {
    u.(passwordHash := HashPassword(password))
  }

  /** User.get_full_name: "first last" when both names are non-empty, otherwise the username. */
  function FullName(u: User): string {
    if u.firstName != "" && u.lastName != "" then u.firstName + " " + u.lastName else u.username
  }

  /** User.get_role_display: the label of the first choice whose tag equals the role. */
  method GetRoleDisplay(role: string) returns (display: string)
    ensures forall i :: 0 <= i < |ROLE_CHOICES| && ROLE_CHOICES[i].0 == role ==> display == ROLE_CHOICES[i].1
    ensures (forall i :: 0 <= i < |ROLE_CHOICES| ==> ROLE_CHOICES[i].0 != role) ==> display == UNKNOWN_ROLE_LABEL
    ensures display == UNKNOWN_ROLE_LABEL <==> ParseRole(role) == None
  {
    var i := 0;
    while i < |ROLE_CHOICES|
      invariant 0 <= i <= |ROLE_CHOICES|
      invariant forall k :: 0 <= k < i ==> ROLE_CHOICES[k].0 != role
    {
      if ROLE_CHOICES[i].0 == role {
        return ROLE_CHOICES[i].1;
      }
      i := i + 1;
    }
    assert role != ROLE_CHOICES[0].0 && role != ROLE_CHOICES[1].0;
    assert role != ROLE_CHOICES[2].0 && role != ROLE_CHOICES[3].0;
    return UNKNOWN_ROLE_LABEL;
  }

  // ---------------------------------------------------------------- lemmas

  /** A viewer may not create, edit, delete or manage users. */
  lemma ViewerHasNoCapability()
    ensures !CanCreate(VIEWER) && !CanEdit(VIEWER) && !CanDelete(VIEWER) && !CanManageUsers(VIEWER)
  {
  }

  /** For every role string: manage_users implies delete implies edit, and edit is create. */
  lemma CapabilityImplications(role: string)
    ensures CanManageUsers(role) ==> CanDelete(role)
    ensures CanDelete(role) ==> CanEdit(role)
    ensures CanEdit(role) <==> CanCreate(role)
  {
  }

  /** The capability table of the four roles, and nothing for any other string. */
  lemma CapabilityTable(role: string)
    ensures CanCreate(role) <==> ParseRole(role) in {Some(Admin), Some(Manager), Some(Employee)}
    ensures CanEdit(role) <==> ParseRole(role) in {Some(Admin), Some(Manager), Some(Employee)}
    ensures CanDelete(role) <==> ParseRole(role) in {Some(Admin), Some(Manager)}
    ensures CanManageUsers(role) <==> ParseRole(role) == Some(Admin)
    ensures IsAdmin(role) <==> CanManageUsers(role)
  {
  }

  /** admin implies manager implies employee; among the four tags, viewer is exactly non-employee. */
  lemma RoleHierarchy(role: string)
    ensures IsAdmin(role) ==> IsManager(role)
    ensures IsManager(role) ==> IsEmployee(role)
    ensures ParseRole(role).Some? ==> (IsViewer(role) <==> !IsEmployee(role))
  {
  }

  /** Tags and ParseRole are inverse to each other. */
  lemma ParseRoleRoundTrip(r: Role, s: string)
    ensures ParseRole(r.Tag()) == Some(r)
    ensures ParseRole(s).Some? ==> ParseRole(s).value.Tag() == s
    ensures ParseRole(s).Some? <==> s in RoleTags()
  {
  }

  /** check_password(set_password(p), q) holds exactly when q is p. */
  lemma CheckAfterSet(p: string, q: string)
    ensures CheckPassword(HashPassword(p), q) <==> q == p
  {
  }

  /** The full name is the two names joined by one space, or the username. */
  lemma FullNameCases(u: User)
    ensures u.firstName != "" && u.lastName != "" ==>
      && |FullName(u)| == |u.firstName| + 1 + |u.lastName|
      && FullName(u)[..|u.firstName|] == u.firstName
      && FullName(u)[|u.firstName|] == ' '
      && FullName(u)[|u.firstName| + 1..] == u.lastName
    ensures u.firstName == "" || u.lastName == "" ==> FullName(u) == u.username
  {
  }

  /** Every column default is a value the corresponding field may hold. */
  lemma DefaultsAreKnownValues()
    ensures ParseRole(DEFAULT_ROLE) == Some(Employee)
    ensures DEFAULT_CUSTOMER_STATUS in [CUSTOMER_NEW, CUSTOMER_ACTIVE, CUSTOMER_INACTIVE]
    ensures DEFAULT_PRIORITY in [PRIORITY_LOW, PRIORITY_MEDIUM, PRIORITY_HIGH]
    ensures DEFAULT_TASK_STATUS in [TASK_NEW, TASK_IN_PROGRESS, TASK_COMPLETED, TASK_POSTPONED]
    ensures !DEFAULT_IS_PRIMARY
  {
  }
}
