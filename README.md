# A verified model of a small Flask CRM

The CRM keeps four tables: users with a role (`admin`, `manager`, `employee`, `viewer`), customers,
the contacts of each customer, and tasks. Each task belongs to a customer and to the user it is
assigned to. This project models the domain layer under the HTTP handlers and proves its
properties:

- the role and capability policy of a user;
- the WTForms validation rules of every form, as predicates;
- the request handlers that change the database, as module-level methods that take a `Db.Store`
  object, whose fields hold the four tables as maps from row id to row;
- the read-only queries: the customer list, the task list and the dashboard.

Every handler is one atomic step from one store state to the next. A handler's `ensures` gives
the new state as a pure function of the old one. It also gives the outcome: done, not found,
forbidden, form invalid, or a named refusal. Each handler keeps the store's invariant
(`Db.Store.Valid`):

- ids are below the table's counter;
- usernames and emails are unique;
- every foreign key names an existing row.

Lemmas about the transition functions state what the handlers promise.

Modules, one per source file: `Models` (app/models.py), `Db` (the tables and their invariants),
`Validators`, `CustomerForms`, `TaskForms` and `AuthForms` (app/forms), `CustomerRoutes`,
`TaskRoutes` and `AuthRoutes` (app/routes), `Dashboard` (app/routes/main.py). `Ordering` holds
ORDER BY as insertion sort over a ghost listing of a set, and SQLite's BINARY text collation.
`Wrappers` holds `Option`.

Conventions:

- Timestamps are integers: microseconds of UTC time.
- The current time is a parameter `now`.
- A nullable text column holds `""` for NULL; a nullable time column is an `Option`.
- The acting user is an explicit parameter. `login` and `register` take `Option<int>`, because
  they only ask whether someone is signed in. The other handlers take the id of a signed-in user,
  as `login_required` guarantees.
- The WTForms `Email()` check is a parameter `isEmail`. The password hash is the abstract
  `Digest(password)`, so a hash accepts exactly the password it was made from.
- `DataRequired` means "not blank". Blank means empty or only whitespace, using Python's
  whitespace characters. `Optional` lets a blank value through without further checks.

Three behaviours of the code differ from what the schema or the form names alone suggest; the model follows the code:

- **Registration has two password fields.** It needs a second password entry equal to the first
  (app/forms/auth.py:28-31), not only a password of 8 or more characters.
- **Deleting a user keeps their tasks but clears the owner.** The relationship
  `User.tasks` (app/models.py:34) has no delete cascade, so SQLAlchemy sets the `user_id` of that
  user's tasks to NULL on delete (`AuthRoutes.UnassignTasks`). It does not leave a dangling
  reference. Such a task is then closed to every user, because the task routes only admit its owner.
- **Admin gating uses `is_admin`.** Admin user management is gated by `is_admin`, which holds
  exactly when `can_manage_users` does (`Models.CapabilityTable`).

## Model

| member | source | states |
|---|---|---|
| Models.GetRoleDisplay | app/models.py:71-75 | The loop returns the label of the choice whose tag equals the role. It returns 'Неизвестно' exactly when the role is none of the four tags. |
| Models.RoleTags | app/models.py:12-19 | The role select accepts a string exactly when it names one of the four roles. Each tag is offered once. |
| Models.SetPassword | app/models.py:36-37 | Only the password hash changes. The new hash accepts exactly the given password. |
| Models.CheckAfterSet | app/models.py:36-40 | `check_password` after `set_password(p)` holds for `q` exactly when `q == p`. |
| Models.ViewerHasNoCapability | app/models.py:54-64 | A viewer gets false from `can_create`, `can_edit`, `can_delete` and `can_manage_users`. |
| Models.CapabilityImplications | app/models.py:54-64 | For every role string, managing users implies delete, and delete implies edit. Edit holds exactly when create does. |
| Models.CapabilityTable | app/models.py:42-64 | Create and edit hold exactly for admin, manager and employee. Delete holds for admin and manager. Manage-users holds for admin only, and `is_admin` holds exactly when manage-users does. Any other string gets nothing. |
| Models.RoleHierarchy | app/models.py:42-52 | admin implies manager, and manager implies employee. For the four tags, viewer holds exactly when employee does not. |
| Models.ParseRoleRoundTrip | app/models.py:6-19 | A tag parses back to its role, a parsed string is its role's tag, and a string parses exactly when it is one of the choices. |
| Models.FullNameCases | app/models.py:66-69 | With both names non-empty, the result is "first last", joined by one space. Otherwise it is the username. |
| Models.DefaultsAreKnownValues | app/models.py:122-123 | The default role (line 26) is employee. The default customer status (line 87), priority and task status are among their choices. `is_primary` defaults to false (line 106). |
| Db.Store.constructor | app/models.py:21-24 | The new schema has empty tables and satisfies every invariant, uniqueness and at most one primary contact per customer included. |
| Db.UsernameOwner | app/models.py:23 | With unique usernames, a username names at most one user. |
| CustomerForms.PotentialNotProducible | app/forms/customer.py:14-18 | An accepted form's status is 'Новый', 'Активный' or 'Неактивный', never 'Потенциальный'. |
| CustomerForms.CustomerFormFitsColumns | app/forms/customer.py:6-13 | The name is 2..100 characters. When non-blank, company is at most 100 characters, phone at most 20 and address at most 200. |
| CustomerForms.ContactFormFitsColumns | app/forms/customer.py:23-33 | First and last names are 2..50 characters. When non-blank, position is at most 100 characters and phone at most 20. |
| CustomerForms.PrimaryFlagFree | app/forms/customer.py:34 | Flipping `is_primary` never changes whether the contact form is accepted. |
| TaskForms.FormDefaults | app/forms/task.py:15-25 | The form defaults 'Средний' and 'Новая' are among the choices and equal the column defaults. |
| TaskForms.TaskFormNamesCustomer | app/forms/task.py:7-26 | An accepted form has a 3..100 character title and names one of the offered (existing) customers. |
| TaskForms.DueDateAndDescriptionOptional | app/forms/task.py:11-14 | Blanking the due date and the description keeps an accepted form accepted. A blank due date is stored as none. |
| AuthForms.RegistrationRefusesTaken | app/forms/auth.py:34-42 | A username or email held by any user makes the registration form invalid. |
| AuthForms.RegistrationAccepts | app/forms/auth.py:13-42 | An accepted registration has a 3..64 character username and an email that no user has. Its password has at least 8 characters and is repeated exactly. When non-blank, first and last name are at most 30 characters and position at most 50. |
| AuthForms.ProfileExemptionIsOwnRow | app/forms/auth.py:63-73 | With the originals being the editor's own values, an accepted profile's username and email are held by no other user. |
| AuthForms.ProfileFormFitsColumns | app/forms/auth.py:44-55 | An accepted profile has a 3..64 character username. When non-blank, first and last name are at most 30 characters and position at most 50. |
| AuthForms.ProfileKeepsOwnValues | app/forms/auth.py:63-73 | Resubmitting one's own username and email never fails the uniqueness checks. |
| AuthForms.ChangePasswordAccepts | app/forms/auth.py:75-84 | An accepted change has a new password of at least 8 characters, confirmed exactly. |
| AuthForms.UserManagementAccepts | app/forms/auth.py:87-106 | The role is one of the four tags. The password is empty, blank or at least 8 characters, and the repeat equals it. When non-blank, first and last name are at most 30 characters and position at most 50. |
| AuthForms.UserManagementAllowsEmptyPassword | app/forms/auth.py:100-106 | Emptying both password fields keeps an accepted form accepted. |
| CustomerRoutes.SortedByName | app/routes/customer.py:13 | The customers ordered by name use SQLite's code-point order. The result is a permutation of all customer ids. |
| CustomerRoutes.Page | app/routes/customer.py:12-14 | A page holds at most 10 rows. It is empty past the end. Entry `i` is row `(page-1)*10 + i`, and a page below 1 is page 1. Its length is 10, or what is left of the list on the last page. |
| CustomerRoutes.IndexPage | app/routes/customer.py:12-14 | A page lists at most 10 existing customers, each once, in name order. |
| CustomerRoutes.IndexPastEnd | app/routes/customer.py:12-14 | A page past the last is empty, not an error. |
| CustomerRoutes.IndexPagesOrdered | app/routes/customer.py:12-14 | Every name on an earlier page sorts no later than every name on a later page. |
| CustomerRoutes.IndexCoversAll | app/routes/customer.py:12-14 | Every customer appears on some page. |
| CustomerRoutes.PopulateCustomer | app/routes/customer.py:49 | `populate_obj` keeps the creation time. |
| CustomerRoutes.CascadeRemovesExactlyChildren | app/models.py:93-94 | After the cascade, no contact or task of the customer remains. Every contact and task of another customer is kept unchanged. |
| CustomerRoutes.CascadeWithoutChildren | app/routes/customer.py:71-78 | A customer with no contacts or tasks cascades to nothing. |
| CustomerRoutes.Add | app/routes/customer.py:21-36 | A valid form adds exactly one customer under a fresh id. Otherwise nothing changes, the id counter included. |
| CustomerRoutes.Edit | app/routes/customer.py:44-52 | A missing id is not found. A valid form overwrites that customer's form fields. Otherwise nothing changes. |
| CustomerRoutes.Delete | app/routes/customer.py:73-78 | The customer is removed together with exactly its contacts and tasks. A missing id is not found and changes nothing. At most one primary contact per customer is kept. |
| CustomerRoutes.PopulateContact | app/routes/customer.py:123 | Editing a contact keeps its customer and creation time and takes the form's primary flag. |
| CustomerRoutes.AddPrimaryIsOnlyPrimary | app/routes/customer.py:99-105 | After adding a primary contact, it is the only primary contact of its customer. |
| CustomerRoutes.AddNonPrimaryKeepsFlags | app/routes/customer.py:99-104 | Adding a non-primary contact changes no existing contact. |
| CustomerRoutes.AddTouchesOnlySiblingFlags | app/routes/customer.py:99-104 | Contacts of other customers are unchanged. Siblings change at most in their primary flag. |
| CustomerRoutes.AddPreservesAtMostOnePrimary | app/routes/customer.py:99-105 | `add_contact` keeps "at most one primary contact per customer". |
| CustomerRoutes.EditTurnedPrimaryClearsSiblings | app/routes/customer.py:122-129 | A contact turned primary stays primary, with the form's values. Every sibling loses the flag. |
| CustomerRoutes.EditOtherwiseChangesOnlyItself | app/routes/customer.py:122-129 | An edit that does not turn the contact primary changes only that contact. |
| CustomerRoutes.EditTouchesOnlySiblingFlags | app/routes/customer.py:122-129 | Contacts of other customers are unchanged. Siblings change at most in their primary flag. |
| CustomerRoutes.EditPreservesAtMostOnePrimary | app/routes/customer.py:122-131 | `edit_contact` keeps "at most one primary contact per customer". |
| CustomerRoutes.ClearPrimaryStep | app/routes/customer.py:101-102 | Clearing one more contact's flag extends the cleared set by that contact. |
| CustomerRoutes.AddContact | app/routes/customer.py:83-107 | A missing customer is not found. A valid form runs the sibling-clearing loop and adds the contact. The at-most-one-primary invariant is kept. When no contact is added, the id counter is unchanged. |
| CustomerRoutes.EditContact | app/routes/customer.py:116-133 | A missing contact is not found. A valid form populates the contact and, if it turned primary, clears its siblings in a loop. The invariant is kept. |
| CustomerRoutes.DeleteContact | app/routes/customer.py:142-148 | Exactly that contact is removed. A missing id is not found. At most one primary contact per customer is kept. |
| TaskRoutes.Index | app/routes/task.py:13-22 | The listed ids are a permutation of the matching tasks, sorted by ascending due date. |
| TaskRoutes.IndexMembers | app/routes/task.py:13-22 | A task is listed exactly when it is the actor's and, for a non-empty filter, has exactly that status. Each is listed once. |
| TaskRoutes.IndexByDueDate | app/routes/task.py:18 | No task comes after one with a later due date, and tasks without a due date count as earliest. |
| TaskRoutes.IndexNoDueDateFirst | app/routes/task.py:18 | A task without a due date is listed before every task that has one, as SQLite sorts NULL first. |
| TaskRoutes.IndexFilterNarrows | app/routes/task.py:14-22 | A status filter lists exactly the unfiltered list's tasks of that status. |
| TaskRoutes.IndexOnlyOwn | app/routes/task.py:15-21 | No task is ever in two different users' lists, whatever status filter each user picks. |
| TaskRoutes.Access | app/routes/task.py:77-88 | `view` and the shared guard: a missing task is not found, and another user's task is forbidden. Done holds exactly for the owner. |
| TaskRoutes.OrphanOpenToNobody | app/routes/task.py:60-62 | A task without an owner is refused to every user. |
| TaskRoutes.NewTask | app/routes/task.py:37-45 | A new task is owned by the actor and not completed. |
| TaskRoutes.PopulateKeepsOwner | app/routes/task.py:68 | `populate_obj` keeps owner, creation and completion times, so access to the task is unchanged for everyone. |
| TaskRoutes.CompleteTask | app/routes/task.py:113-114 | Status becomes 'Завершена' and completed_at becomes now. Every other field is unchanged. |
| TaskRoutes.CompleteRestamps | app/routes/task.py:113-114 | Completing twice equals completing once at the later time. A second call re-stamps, so `complete` is not idempotent. |
| TaskRoutes.Add | app/routes/task.py:31-49 | A valid form naming an existing customer adds one task whose owner is the actor. Otherwise nothing changes, the id counter included. |
| TaskRoutes.Edit | app/routes/task.py:57-71 | Not found or forbidden leaves the tasks unchanged. A valid form overwrites only the form fields. |
| TaskRoutes.Delete | app/routes/task.py:92-102 | The owner removes exactly that task. Anyone else gets forbidden and nothing changes. |
| TaskRoutes.Complete | app/routes/task.py:106-117 | The owner's task is completed at now. Anyone else gets forbidden and nothing changes. |
| AuthRoutes.GuardsOrdered | app/routes/auth.py:12-28 | Passing `admin_required` implies passing `manager_required`. Anonymous visitors, employees and viewers pass neither. |
| AuthRoutes.LoginFailsAlike | app/routes/auth.py:37-40 | With unique usernames, credentials match exactly when the one user of that name accepts the password. An unknown name never matches. |
| AuthRoutes.Login | app/routes/auth.py:31-51 | A signed-in visitor is turned away and an invalid form refused. Otherwise it succeeds exactly on matching credentials and stamps last_login with now. One failure covers both causes and changes nothing. |
| AuthRoutes.RegisteredIsEmployee | app/routes/auth.py:68-76 | Whatever is submitted, the new user is an employee, never signed in, who can sign in with the chosen password. |
| AuthRoutes.RegisterKeepsUnique | app/routes/auth.py:67-78 | An accepted registration keeps usernames and emails unique. |
| AuthRoutes.Register | app/routes/auth.py:62-80 | Adds exactly one employee account for a visitor with a valid form. Otherwise nothing changes, the id counter included. |
| AuthRoutes.ProfileKeepsUnique | app/routes/auth.py:90-96 | An accepted profile edit keeps uniqueness and never changes role or password. |
| AuthRoutes.Profile | app/routes/auth.py:86-98 | A valid form writes the five profile fields of the signed-in user only. |
| AuthRoutes.ChangedPasswordSignsIn | app/routes/auth.py:119 | After the change, the user signs in with the new password and with no other. |
| AuthRoutes.ChangePassword | app/routes/auth.py:112-122 | A wrong current password gives WrongPassword and leaves the hash unchanged. A correct one sets the new password. |
| AuthRoutes.AddUserPassword | app/routes/auth.py:157-161 | An empty password field gives the password 'password123'. Any other value, blank included, is used as given. The role is the form's role. |
| AuthRoutes.EditUserPassword | app/routes/auth.py:195-196 | An empty password field keeps the old hash. Any other value replaces it. |
| AuthRoutes.EditUserAcceptsOwnValues | app/routes/auth.py:178-186 | A user's own current username and email never count as taken when editing that user. |
| AuthRoutes.EditUserKeepsUnique | app/routes/auth.py:178-193 | Values no other user holds keep usernames and emails unique. |
| AuthRoutes.AddUser | app/routes/auth.py:137-166 | Non-admins are forbidden and an invalid form is refused. A taken username or email is refused and no user is added and the id counter is unchanged. Otherwise it adds one user. |
| AuthRoutes.EditUser | app/routes/auth.py:173-200 | Non-admins are forbidden and a missing id is not found. A username or email of a different user id is refused. Otherwise the user's fields and role are written. |
| AuthRoutes.UnassignKeepsTasks | app/models.py:34 | Deleting a user deletes no task. That user's tasks lose their owner, and nothing else changes. |
| AuthRoutes.DeleteUser | app/routes/auth.py:207-218 | An admin removing their own account gets CannotDeleteSelf and nothing changes. Otherwise exactly that user goes and their tasks are unassigned. |
| Dashboard.CustomerCountsBounded | app/routes/main.py:18-21 | active + potential + inactive ≤ total. With the new customers added, the sum equals the total when every status is one of the four. |
| Dashboard.ByCreationDesc | app/routes/main.py:24 | The customers ordered by descending creation time form a permutation of all ids. |
| Dashboard.RecentCustomersAreNewest | app/routes/main.py:24 | Lists min(5, total) customers, each once, newest first. No customer left out is newer than one listed. |
| Dashboard.TaskCountsBounded | app/routes/main.py:47-51 | new + in progress + completed + postponed ≤ the user's total. They are equal when every status is one of the four choices. |
| Dashboard.DayStart | app/routes/main.py:37-38 | Today's midnight is at or before now, within one day of it, and on a day boundary. |
| Dashboard.NeverCounted | app/routes/main.py:30-44 | A task with no due date, one completed, or another user's is never counted as overdue or due today. |
| Dashboard.OverdueGrowsWithTime | app/routes/main.py:30-34 | The overdue set only grows as time passes. |
| Dashboard.CompletingOverdueLowersCount | app/routes/main.py:30-34 | Completing one overdue task lowers the overdue count by exactly one. |
| Dashboard.TodayPastDueIsOverdue | app/routes/main.py:30-44 | A task due today whose time has passed is also overdue. |
| Dashboard.View | app/routes/main.py:16-71 | The page's figures at one instant. Customer and task status counts stay within their totals, at most five recent customers are shown, and the task list holds exactly the user's tasks. |

## Left out

- Flask and Flask-Login plumbing is not modelled: sessions, `login_user` and "remember me", `logout`, the `next` redirect, flash messages, templates, CSRF and the GET branches that only render a form.
- The read-only pages `customer.view`, `users_list`, `main.index` and `about` only render rows; they change nothing and are not modelled.
- Password hashing (werkzeug) is the abstract `Digest`: salting and collisions are not modelled.
- The `Email()` validator is the parameter `isEmail`.
- `DateTimeField` parsing is `DueDateInput`, which records whether the text was blank, parsed to a time, or did not parse.
- `updated_at` with `onupdate` is not modelled; no property reads it.
- ORDER BY ties: the lemmas state only sortedness and permutation, not the order SQLite gives equal keys.
- SQLite can reuse the largest id after it is deleted; the model's ids come from counters that never go back.
- An unparsable `page` parameter falls back to page 1; the model takes the page as an integer.
- Database errors: a unique-constraint violation (IntegrityError) cannot happen behind the form and route checks, so it is not modelled.
- Dashboard.View: the dashboard calls `datetime.utcnow()` several times; the model uses one instant `now` for all of them.
- Dashboard.DayStart: comparing a datetime column against a date makes SQLite compare text; the model takes the equivalent integer interval from midnight to the next midnight.
- Concurrency between requests is not modelled: each handler is one atomic step.
