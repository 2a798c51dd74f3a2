/**
 * The database: the four tables as maps from row id to row, with a per-table id counter, and the
 * invariants the schema and the handlers keep between requests. Each request handler is one atomic
 * step from one state of a Store to the next.
 */
module Db {
  import opened Wrappers
  import opened Models

  /** How a request ends: the row it created or changed, or the refusal it was answered with. */
  datatype Outcome =
    | Done(id: int)
    | NotFound
    | Forbidden
    | InvalidForm
    | UsernameTaken
    | EmailTaken
    | CannotDeleteSelf
    | WrongPassword
    | BadCredentials
    | AlreadyAuthenticated

  /** Every id of the table is positive and below the table's counter, which starts at 1. */
  predicate IdsBelow<V>(m: map<int, V>, next: int) {
    1 <= next && forall k :: k in m ==> 1 <= k < next
  }

  /** The unique constraints on username and email. */
  predicate UniqueLogins(users: map<int, User>) {
    forall a, b :: a in users && b in users && a != b ==>
      users[a].username != users[b].username && users[a].email != users[b].email
  }

  predicate UsernameTakenBy(users: map<int, User>, username: string) {
    exists k :: k in users && users[k].username == username
  }

  predicate EmailTakenBy(users: map<int, User>, email: string) {
    exists k :: k in users && users[k].email == email
  }

  /** Every contact and every task belongs to an existing customer; a task's owner, when set, exists. */
  predicate ForeignKeysHold(users: map<int, User>, customers: map<int, Customer>,
                            contacts: map<int, Contact>, tasks: map<int, Task>) {
    && (forall k :: k in contacts ==> contacts[k].customerId in customers)
    && (forall k :: k in tasks ==> tasks[k].customerId in customers)
    && (forall k :: k in tasks && tasks[k].userId.Some? ==> tasks[k].userId.value in users)
  }

  /** At most one contact of each customer is flagged primary. */
  predicate AtMostOnePrimary(contacts: map<int, Contact>) {
    forall a, b ::
      (a in contacts && b in contacts && contacts[a].isPrimary && contacts[b].isPrimary
       && contacts[a].customerId == contacts[b].customerId) ==> a == b
  }

  class Store {
    var users: map<int, User>
    var customers: map<int, Customer>
    var contacts: map<int, Contact>
    var tasks: map<int, Task>
    var nextUserId: int
    var nextCustomerId: int
    var nextContactId: int
    var nextTaskId: int

    ghost predicate Valid()
      reads this
    {
      && IdsBelow(users, nextUserId)
      && IdsBelow(customers, nextCustomerId)
      && IdsBelow(contacts, nextContactId)
      && IdsBelow(tasks, nextTaskId)
      && UniqueLogins(users)
      && ForeignKeysHold(users, customers, contacts, tasks)
    }

    /** The freshly created schema: every table empty. */
    constructor ()
      ensures Valid()
      ensures users == map[] && customers == map[] && contacts == map[] && tasks == map[]
      ensures AtMostOnePrimary(contacts)
    {
      users, customers, contacts, tasks := map[], map[], map[], map[];
      nextUserId, nextCustomerId, nextContactId, nextTaskId := 1, 1, 1, 1;
    }
  }

  /** With unique usernames, a taken username names exactly one user. */
  lemma UsernameOwner(users: map<int, User>, username: string, a: int, b: int)
    requires UniqueLogins(users)
    requires a in users && b in users && users[a].username == username && users[b].username == username
    ensures a == b
  {
  }
}
