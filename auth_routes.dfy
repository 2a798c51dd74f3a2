/**
 * The account handlers: sign-in, self-registration, the profile, and the administrator's user
 * management. Each handler is a method that takes the store; its new state is stated through the pure
 * functions below, and the invariants of the user table are proved about those functions.
 */
module AuthRoutes {
  import opened Wrappers
  import opened Validators
  import opened Models
  import opened Db
  import opened AuthForms

  // ------------------------------------------------------------ guards

  /** admin_required: a signed-in administrator; `None` is an anonymous visitor. */
  predicate AdminRequired(current: Option<User>) {
    current.Some? && IsAdmin(current.value.role)
  }

  /** manager_required: a signed-in manager or administrator. */
  predicate ManagerRequired(current: Option<User>) {
    current.Some? && IsManager(current.value.role)
  }

  /** Whoever passes the administrator guard passes the manager guard; no visitor, employee or viewer passes either. */
  lemma GuardsOrdered(current: Option<User>)
    ensures AdminRequired(current) ==> ManagerRequired(current)
    ensures current.None? ==> !ManagerRequired(current)
    ensures current.Some? && current.value.role in [EMPLOYEE, VIEWER] ==> !ManagerRequired(current)
    ensures ManagerRequired(current) <==> current.Some? && (current.value.role == ADMIN || current.value.role == MANAGER)
  {
  }

  // ------------------------------------------------------------ login

  /** Some user has this username and accepts this password. */
  ghost predicate CredentialsMatch(users: map<int, User>, username: string, password: string) {
    exists k :: k in users && users[k].username == username && CheckPassword(users[k].passwordHash, password)
  }

  /**
   * An unknown username and a wrong password for a known one are the same failure: with
   * usernames unique, the password is checked against the one user of that name only.
   */
  lemma LoginFailsAlike(users: map<int, User>, username: string, password: string)
    requires UniqueLogins(users)
    ensures !UsernameTakenBy(users, username) ==> !CredentialsMatch(users, username, password)
    ensures forall k :: k in users && users[k].username == username ==>
      (CredentialsMatch(users, username, password) <==> CheckPassword(users[k].passwordHash, password))
  {
    forall k | k in users && users[k].username == username
      ensures CredentialsMatch(users, username, password) <==> CheckPassword(users[k].passwordHash, password)
    {
      if CredentialsMatch(users, username, password) {
        var j :| j in users && users[j].username == username && CheckPassword(users[j].passwordHash, password);
        UsernameOwner(users, username, j, k);
      }
    }
  }

  /** login: refuses a signed-in visitor; on matching credentials stamps last_login with now. */
  method Login(db: Store, current: Option<int>, f: LoginForm, now: int) returns (outcome: Outcome)
    requires db.Valid()
    modifies db`users
    ensures db.Valid()
    ensures current.Some? ==> outcome == AlreadyAuthenticated
    ensures current.None? && !LoginFormValid(f) ==> outcome == InvalidForm
    ensures current.None? && LoginFormValid(f) ==>
      (outcome.Done? <==> CredentialsMatch(old(db.users), f.username, f.password))
    ensures current.None? && LoginFormValid(f) && !outcome.Done? ==> outcome == BadCredentials
    ensures outcome.Done? ==>
      && outcome.id in old(db.users) && old(db.users)[outcome.id].username == f.username
      && db.users == old(db.users)[outcome.id := old(db.users)[outcome.id].(lastLogin := Some(now))]
    ensures !outcome.Done? ==> db.users == old(db.users)
  {
    if current.Some? {
      return AlreadyAuthenticated;
    }
    if !LoginFormValid(f) {
      return InvalidForm;
    }
    LoginFailsAlike(db.users, f.username, f.password);
    if !UsernameTakenBy(db.users, f.username) {
      return BadCredentials;
    }
    var k :| k in db.users && db.users[k].username == f.username;
    if !CheckPassword(db.users[k].passwordHash, f.password) {
      return BadCredentials;
    }
    db.users := db.users[k := db.users[k].(lastLogin := Some(now))];
    return Done(k);
  }

  // ------------------------------------------------------------ registration and profile

  /** The user row register builds: always an employee, with the chosen password. */
  function RegisteredUser(f: RegistrationForm, now: int): User {
    SetPassword(User(f.username, f.email, HashPassword(""), EMPLOYEE, f.firstName, f.lastName, f.position,
                     now, None), f.password)
  }

  /** Whatever is submitted, a registered user is an employee who signs in with the chosen password. */
  lemma RegisteredIsEmployee(users: map<int, User>, id: int, f: RegistrationForm, now: int)
    requires id !in users
    ensures var u := RegisteredUser(f, now);
      u.role == EMPLOYEE && !CanManageUsers(u.role) && u.lastLogin == None
    ensures CredentialsMatch(users[id := RegisteredUser(f, now)], f.username, f.password)
  {
    assert users[id := RegisteredUser(f, now)][id].username == f.username;
  }

  /** An accepted registration keeps usernames and emails unique. */
  lemma RegisterKeepsUnique(users: map<int, User>, id: int, f: RegistrationForm, isEmail: string -> bool, now: int)
    requires UniqueLogins(users) && id !in users && RegistrationFormValid(f, users, isEmail)
    ensures UniqueLogins(users[id := RegisteredUser(f, now)])
  {
    RegistrationAccepts(f, users, isEmail);
  }

  /** register: a visitor's valid form creates an employee account. */
  method Register(db: Store, current: Option<int>, f: RegistrationForm, isEmail: string -> bool, now: int)
    returns (outcome: Outcome)
    requires db.Valid()
    modifies db`users, db`nextUserId
    ensures db.Valid()
    ensures outcome == (if current.Some? then AlreadyAuthenticated
                        else if !RegistrationFormValid(f, old(db.users), isEmail) then InvalidForm
                        else Done(old(db.nextUserId)))
    ensures outcome.Done? ==>
      outcome.id !in old(db.users) && db.users == old(db.users)[outcome.id := RegisteredUser(f, now)]
    ensures !outcome.Done? ==> db.users == old(db.users) && db.nextUserId == old(db.nextUserId)
  {
    if current.Some? {
      return AlreadyAuthenticated;
    }
    if !RegistrationFormValid(f, db.users, isEmail) {
      return InvalidForm;
    }
    var id := db.nextUserId;
    RegisterKeepsUnique(db.users, id, f, isEmail, now);
    db.users := db.users[id := RegisteredUser(f, now)];
    db.nextUserId := id + 1;
    return Done(id);
  }

  /** profile: the five form fields are written to the user; role and password are kept. */
  function ProfileUpdate(u: User, f: EditProfileForm): User {
    u.(username := f.username, email := f.email, firstName := f.firstName, lastName := f.lastName,
       position := f.position)
  }

  /** An accepted profile edit keeps usernames and emails unique, and never changes the role or password. */
  lemma ProfileKeepsUnique(users: map<int, User>, me: int, f: EditProfileForm, isEmail: string -> bool)
    requires UniqueLogins(users) && me in users
    requires EditProfileFormValid(f, users[me].username, users[me].email, users, isEmail)
    ensures UniqueLogins(users[me := ProfileUpdate(users[me], f)])
    ensures ProfileUpdate(users[me], f).role == users[me].role
    ensures ProfileUpdate(users[me], f).passwordHash == users[me].passwordHash
  {
    ProfileExemptionIsOwnRow(f, users, me, isEmail);
  }

  /** profile: the signed-in user edits their own account. */
  method Profile(db: Store, actor: int, f: EditProfileForm, isEmail: string -> bool) returns (outcome: Outcome)
    requires db.Valid() && actor in db.users
    modifies db`users
    ensures db.Valid()
    ensures outcome == (if EditProfileFormValid(f, old(db.users)[actor].username, old(db.users)[actor].email,
                                                old(db.users), isEmail)
                        then Done(actor) else InvalidForm)
    ensures db.users == (if outcome.Done? then old(db.users)[actor := ProfileUpdate(old(db.users)[actor], f)]
                         else old(db.users))
  {
    var me := db.users[actor];
    if !EditProfileFormValid(f, me.username, me.email, db.users, isEmail) {
      return InvalidForm;
    }
    ProfileKeepsUnique(db.users, actor, f, isEmail);
    db.users := db.users[actor := ProfileUpdate(me, f)];
    return Done(actor);
  }

  /** After a password change the user signs in with the new password and no longer with any other. */
  lemma ChangedPasswordSignsIn(users: map<int, User>, me: int, newPassword: string, q: string)
    requires UniqueLogins(users) && me in users
    ensures UniqueLogins(users[me := SetPassword(users[me], newPassword)])
    ensures CredentialsMatch(users[me := SetPassword(users[me], newPassword)], users[me].username, q)
        <==> q == newPassword
  {
    var after := users[me := SetPassword(users[me], newPassword)];
    assert after[me].username == users[me].username;
    LoginFailsAlike(after, users[me].username, q);
  }

  /** change_password: the current password must be given correctly; otherwise nothing changes. */
  method ChangePassword(db: Store, actor: int, f: ChangePasswordForm) returns (outcome: Outcome)
    requires db.Valid() && actor in db.users
    modifies db`users
    ensures db.Valid()
    ensures outcome == (if !ChangePasswordFormValid(f) then InvalidForm
                        else if !CheckPassword(old(db.users)[actor].passwordHash, f.currentPassword) then WrongPassword
                        else Done(actor))
    ensures db.users == (if outcome.Done? then old(db.users)[actor := SetPassword(old(db.users)[actor], f.newPassword)]
                         else old(db.users))
  {
    if !ChangePasswordFormValid(f) {
      return InvalidForm;
    }
    if !CheckPassword(db.users[actor].passwordHash, f.currentPassword) {
      return WrongPassword;
    }
    ChangedPasswordSignsIn(db.users, actor, f.newPassword, f.newPassword);
    db.users := db.users[actor := SetPassword(db.users[actor], f.newPassword)];
    return Done(actor);
  }

  // ------------------------------------------------------------ user management

  /** The password a new account gets: the one submitted, or 'password123' when none is. */
  const STANDARD_PASSWORD: string := "password123"

  function InitialPassword(password: string): string {
    if password != "" then password else STANDARD_PASSWORD
  }

  /** The user row add_user builds. */
  function ManagedUser(f: UserManagementForm, now: int): User {
    SetPassword(User(f.username, f.email, HashPassword(""), f.role, f.firstName, f.lastName, f.position,
                     now, None), InitialPassword(f.password))
  }

  /**
   * A new account signs in with the submitted password, or with 'password123' when the field was
   * left empty; a password of only spaces is not empty and is used as given.
   */
  lemma AddUserPassword(f: UserManagementForm, now: int, q: string)
    ensures f.password == "" ==> (CheckPassword(ManagedUser(f, now).passwordHash, q) <==> q == STANDARD_PASSWORD)
    ensures f.password != "" ==> (CheckPassword(ManagedUser(f, now).passwordHash, q) <==> q == f.password)
    ensures ManagedUser(f, now).role == f.role
  {
  }

  /** A username or email held by a user other than `id`. */
  predicate UsernameTakenByOther(users: map<int, User>, id: int, username: string) {
    exists k :: k in users && k != id && users[k].username == username
  }

  predicate EmailTakenByOther(users: map<int, User>, id: int, email: string) {
    exists k :: k in users && k != id && users[k].email == email
  }

  /** edit_user: the form's fields and role are written; the password only when one is given. */
  function EditedUser(u: User, f: UserManagementForm): User {
    var v := u.(username := f.username, email := f.email, firstName := f.firstName, lastName := f.lastName,
                position := f.position, role := f.role);
    if f.password != "" then SetPassword(v, f.password) else v
  }

  /** An empty password field keeps the old password; any other replaces it. */
  lemma EditUserPassword(u: User, f: UserManagementForm, q: string)
    ensures f.password == "" ==> EditedUser(u, f).passwordHash == u.passwordHash
    ensures f.password != "" ==> (CheckPassword(EditedUser(u, f).passwordHash, q) <==> q == f.password)
    ensures EditedUser(u, f).createdAt == u.createdAt && EditedUser(u, f).lastLogin == u.lastLogin
  {
  }

  /** A user's own current username and email never count as taken when editing that user. */
  lemma EditUserAcceptsOwnValues(users: map<int, User>, id: int)
    requires UniqueLogins(users) && id in users
    ensures !UsernameTakenByOther(users, id, users[id].username)
    ensures !EmailTakenByOther(users, id, users[id].email)
  {
  }

  /** An edit whose username and email no other user holds keeps usernames and emails unique. */
  lemma EditUserKeepsUnique(users: map<int, User>, id: int, f: UserManagementForm)
    requires UniqueLogins(users) && id in users
    requires !UsernameTakenByOther(users, id, f.username) && !EmailTakenByOther(users, id, f.email)
    ensures UniqueLogins(users[id := EditedUser(users[id], f)])
  {
    var after := users[id := EditedUser(users[id], f)];
    forall a, b | a in after && b in after && a != b
      ensures after[a].username != after[b].username && after[a].email != after[b].email
    {
      if a == id {
        assert !(b in users && b != id && users[b].username == f.username);
        assert !(b in users && b != id && users[b].email == f.email);
      } else if b == id {
        assert !(a in users && a != id && users[a].username == f.username);
        assert !(a in users && a != id && users[a].email == f.email);
      }
    }
  }

  /** add_user: an administrator creates an account with any of the four roles. */
  method AddUser(db: Store, actor: int, f: UserManagementForm, isEmail: string -> bool, now: int)
    returns (outcome: Outcome)
    requires db.Valid() && actor in db.users
    modifies db`users, db`nextUserId
    ensures db.Valid()
    ensures outcome == (if !AdminRequired(Some(old(db.users)[actor])) then Forbidden
                        else if !UserManagementFormValid(f, isEmail) then InvalidForm
                        else if UsernameTakenBy(old(db.users), f.username) then UsernameTaken
                        else if EmailTakenBy(old(db.users), f.email) then EmailTaken
                        else Done(old(db.nextUserId)))
    ensures outcome.Done? ==>
      outcome.id !in old(db.users) && db.users == old(db.users)[outcome.id := ManagedUser(f, now)]
    ensures !outcome.Done? ==> db.users == old(db.users) && db.nextUserId == old(db.nextUserId)
  {
    if !AdminRequired(Some(db.users[actor])) {
      return Forbidden;
    }
    if !UserManagementFormValid(f, isEmail) {
      return InvalidForm;
    }
    if UsernameTakenBy(db.users, f.username) {
      return UsernameTaken;
    }
    if EmailTakenBy(db.users, f.email) {
      return EmailTaken;
    }
    var id := db.nextUserId;
    db.users := db.users[id := ManagedUser(f, now)];
    db.nextUserId := id + 1;
    return Done(id);
  }

  /** edit_user: an administrator edits any account; the uniqueness checks skip the edited user. */
  method EditUser(db: Store, actor: int, id: int, f: UserManagementForm, isEmail: string -> bool)
    returns (outcome: Outcome)
    requires db.Valid() && actor in db.users
    modifies db`users
    ensures db.Valid()
    ensures outcome == (if !AdminRequired(Some(old(db.users)[actor])) then Forbidden
                        else if id !in old(db.users) then NotFound
                        else if !UserManagementFormValid(f, isEmail) then InvalidForm
                        else if UsernameTakenByOther(old(db.users), id, f.username) then UsernameTaken
                        else if EmailTakenByOther(old(db.users), id, f.email) then EmailTaken
                        else Done(id))
    ensures db.users == (if outcome.Done? then old(db.users)[id := EditedUser(old(db.users)[id], f)]
                         else old(db.users))
  {
    if !AdminRequired(Some(db.users[actor])) {
      return Forbidden;
    }
    if id !in db.users {
      return NotFound;
    }
    if !UserManagementFormValid(f, isEmail) {
      return InvalidForm;
    }
    if UsernameTakenByOther(db.users, id, f.username) {
      return UsernameTaken;
    }
    if EmailTakenByOther(db.users, id, f.email) {
      return EmailTaken;
    }
    EditUserKeepsUnique(db.users, id, f);
    db.users := db.users[id := EditedUser(db.users[id], f)];
    return Done(id);
  }

  /** The user's tasks lose their owner; every other task is kept as it was. */
  function UnassignTasks(tasks: map<int, Task>, userId: int): map<int, Task> {
    map k | k in tasks :: if tasks[k].userId == Some(userId) then tasks[k].(userId := None) else tasks[k]
  }

  /** Deleting a user deletes none of the tasks: those of the user are kept with no owner. */
  lemma UnassignKeepsTasks(tasks: map<int, Task>, userId: int)
    ensures var r := UnassignTasks(tasks, userId);
      && r.Keys == tasks.Keys
      && (forall k :: k in r ==> r[k].userId != Some(userId))
      && (forall k :: k in tasks ==> r[k] == tasks[k].(userId := r[k].userId))
      && (forall k :: k in tasks && tasks[k].userId != Some(userId) ==> r[k] == tasks[k])
  {
  }

  /** delete_user: an administrator removes another account; their own cannot be removed. */
  method DeleteUser(db: Store, actor: int, id: int) returns (outcome: Outcome)
    requires db.Valid() && actor in db.users
    modifies db`users, db`tasks
    ensures db.Valid()
    ensures outcome == (if !AdminRequired(Some(old(db.users)[actor])) then Forbidden
                        else if id !in old(db.users) then NotFound
                        else if id == actor then CannotDeleteSelf
                        else Done(id))
    ensures db.users == (if outcome.Done? then old(db.users) - {id} else old(db.users))
    ensures db.tasks == (if outcome.Done? then UnassignTasks(old(db.tasks), id) else old(db.tasks))
    ensures actor in db.users
  {
    if !AdminRequired(Some(db.users[actor])) {
      return Forbidden;
    }
    if id !in db.users {
      return NotFound;
    }
    if id == actor {
      return CannotDeleteSelf;
    }
    db.tasks := UnassignTasks(db.tasks, id);
    db.users := db.users - {id};
    return Done(id);
  }
}
