/**
 * The customer and contact request handlers. Each handler is a method that takes the store; the new
 * state is given by a pure function of the old state, and the lemmas below are about those
 * functions.
 */
module CustomerRoutes {
  import opened Wrappers
  import opened Validators
  import opened Ordering
  import opened Models
  import opened Db
  import opened CustomerForms

  /** Customers per page of the customer list. */
  const PER_PAGE: nat := 10

  // ------------------------------------------------------------ the list

  function NameOf(customers: map<int, Customer>, k: int): string {
    if k in customers then customers[k].name else ""
  }

  /** ORDER BY customer.name. */
  function ByName(customers: map<int, Customer>): (int, int) -> bool {
    (a: int, b: int) => TextLe(NameOf(customers, a), NameOf(customers, b))
  }

  lemma ByNameIsTotalPreorder(customers: map<int, Customer>)
    ensures TotalPreorder(ByName(customers))
  {
    var le := ByName(customers);
    forall a: int, b: int ensures le(a, b) || le(b, a) {
      TextLeTotal(NameOf(customers, a), NameOf(customers, b));
    }
    forall a: int, b: int, c: int | le(a, b) && le(b, c) ensures le(a, c) {
      TextLeTransitive(NameOf(customers, a), NameOf(customers, b), NameOf(customers, c));
    }
  }

  /** All customer ids, ordered by name. */
  ghost function SortedByName(customers: map<int, Customer>): (r: seq<int>)
    ensures multiset(r) == multiset(customers.Keys)
    ensures Sorted(r, ByName(customers))
  {
    ByNameIsTotalPreorder(customers);
    OrderBy(customers.Keys, ByName(customers))
  }

  /** The first row of a page; a page number below 1 is read as page 1. */
  function PageStart(page: int): nat {
    if page < 1 then 0 else (page - 1) * PER_PAGE
  }

  /** paginate(page, per_page=10, error_out=False) over an ordered list of rows. */
  function Page(all: seq<int>, page: int): (r: seq<int>)
    ensures |r| <= PER_PAGE
    ensures |r| == (if PageStart(page) >= |all| then 0
                    else if |all| - PageStart(page) < PER_PAGE then |all| - PageStart(page)
                    else PER_PAGE)
    ensures PageStart(page) >= |all| ==> r == []
    ensures forall i :: 0 <= i < |r| ==> PageStart(page) + i < |all| && r[i] == all[PageStart(page) + i]
  {
    var start := PageStart(page);
    var n := if start >= |all| then 0 else if start + PER_PAGE <= |all| then PER_PAGE else |all| - start;
    seq(n, i requires 0 <= i < n => all[start + i])
  }

  /** index: page `page` of the customers ordered by name. */
  ghost function Index(customers: map<int, Customer>, page: int): seq<int> {
    Page(SortedByName(customers), page)
  }

  /** The ordered list lists exactly the customers. */
  lemma SortedByNameLists(customers: map<int, Customer>)
    ensures var all := SortedByName(customers);
      && |all| == |customers|
      && (forall i :: 0 <= i < |all| ==> all[i] in customers)
      && (forall k :: k in customers ==> k in all)
  {
    ListsSetOnce(SortedByName(customers), customers.Keys);
  }

  /** Two positions of the ordered list hold distinct customers in name order. */
  lemma SortedByNameAt(customers: map<int, Customer>, i: int, j: int)
    requires 0 <= i < j < |SortedByName(customers)|
    ensures var all := SortedByName(customers);
      && all[i] in customers && all[j] in customers && all[i] != all[j]
      && TextLe(customers[all[i]].name, customers[all[j]].name)
  {
    var all := SortedByName(customers);
    ListsSetOnce(all, customers.Keys);
    assert all[i] in all && all[j] in all;
    assert ByName(customers)(all[i], all[j]);
  }

  /** Position i of the list is on page i / 10 + 1. */
  lemma PageHoldsPosition(all: seq<int>, i: int)
    requires 0 <= i < |all|
    ensures all[i] in Page(all, i / PER_PAGE + 1)
  {
    var page := i / PER_PAGE + 1;
    var start := PageStart(page);
    assert start <= i < start + PER_PAGE;
    assert Page(all, page)[i - start] == all[i];
  }

  /** An ordering of customer ids: each an existing customer, each once, in name order. */
  ghost predicate Listing(all: seq<int>, customers: map<int, Customer>) {
    && (forall i :: 0 <= i < |all| ==> all[i] in customers)
    && (forall i, j :: 0 <= i < j < |all| ==>
         all[i] != all[j] && TextLe(customers[all[i]].name, customers[all[j]].name))
  }

  lemma SortedByNameIsListing(customers: map<int, Customer>)
    ensures Listing(SortedByName(customers), customers)
  {
    var all := SortedByName(customers);
    SortedByNameLists(customers);
    forall i, j | 0 <= i < j < |all|
      ensures all[i] != all[j] && TextLe(customers[all[i]].name, customers[all[j]].name)
    {
      SortedByNameAt(customers, i, j);
    }
  }

  /** A page of a listing is a listing of at most ten customers. */
  lemma PageOfListing(all: seq<int>, customers: map<int, Customer>, page: int)
    requires Listing(all, customers)
    ensures |Page(all, page)| <= PER_PAGE && Listing(Page(all, page), customers)
  {
    var r := Page(all, page);
    var s := PageStart(page);
    forall i, j | 0 <= i < j < |r|
      ensures r[i] != r[j] && TextLe(customers[r[i]].name, customers[r[j]].name)
    {
      assert r[i] == all[s + i] && r[j] == all[s + j];
    }
  }

  /** A page holds at most ten customers, each an existing one, each once, in name order. */
  lemma IndexPage(customers: map<int, Customer>, page: int)
    ensures var r := Index(customers, page);
      && |r| <= PER_PAGE
      && (forall i :: 0 <= i < |r| ==> r[i] in customers)
      && (forall i, j :: 0 <= i < j < |r| ==> r[i] != r[j])
      && (forall i, j :: 0 <= i < j < |r| ==> TextLe(customers[r[i]].name, customers[r[j]].name))
  {
    SortedByNameIsListing(customers);
    PageOfListing(SortedByName(customers), customers, page);
  }

  /** Asking for a page past the last one yields an empty list, not an error. */
  lemma IndexPastEnd(customers: map<int, Customer>, page: int)
    requires page >= 1 && (page - 1) * PER_PAGE >= |customers|
    ensures Index(customers, page) == []
  {
    SortedByNameLists(customers);
  }

  /** Every name on an earlier page sorts no later than every name on a later page. */
  lemma IndexPagesOrdered(customers: map<int, Customer>, p: int, q: int)
    requires 1 <= p < q
    ensures forall x, y :: x in Index(customers, p) && y in Index(customers, q) ==>
      TextLe(NameOf(customers, x), NameOf(customers, y))
  {
    var all := SortedByName(customers);
    var rp, rq := Page(all, p), Page(all, q);
    assert Index(customers, p) == rp && Index(customers, q) == rq;
    forall x, y | x in rp && y in rq
      ensures TextLe(NameOf(customers, x), NameOf(customers, y))
    {
      var i :| 0 <= i < |rp| && rp[i] == x;
      var j :| 0 <= j < |rq| && rq[j] == y;
      SortedByNameAt(customers, PageStart(p) + i, PageStart(q) + j);
    }
  }

  /** Every customer is listed on some page. */
  lemma IndexCoversAll(customers: map<int, Customer>, k: int)
    requires k in customers
    ensures exists page :: page >= 1 && k in Index(customers, page)
  {
    var all := SortedByName(customers);
    SortedByNameLists(customers);
    var i :| 0 <= i < |all| && all[i] == k;
    PageHoldsPosition(all, i);
    var page := i / PER_PAGE + 1;
    assert Index(customers, page) == Page(all, page);
    assert k in Index(customers, page);
  }

  // ------------------------------------------------------------ customers

  /** The customer row built from a submitted form. */
  function NewCustomer(f: CustomerForm, now: int): Customer {
    Customer(f.name, f.company, f.email, f.phone, f.address, f.status, f.notes, now)
  }

  /** populate_obj with a CustomerForm: every form field is written, created_at is kept. */
  function PopulateCustomer(c: Customer, f: CustomerForm): (d: Customer)
    ensures d.createdAt == c.createdAt
  {
    c.(name := f.name, company := f.company, email := f.email, phone := f.phone,
       address := f.address, status := f.status, notes := f.notes)
  }

  /** The contacts that do not belong to customer `id`. */
  function ContactsNotOf(contacts: map<int, Contact>, id: int): map<int, Contact> {
    map k | k in contacts && contacts[k].customerId != id :: contacts[k]
  }

  /** The tasks that do not belong to customer `id`. */
  function TasksNotOf(tasks: map<int, Task>, id: int): map<int, Task> {
    map k | k in tasks && tasks[k].customerId != id :: tasks[k]
  }

  /** Deleting a customer leaves no contact or task of it, and keeps every other contact and task as it was. */
  lemma CascadeRemovesExactlyChildren(contacts: map<int, Contact>, tasks: map<int, Task>, id: int)
    ensures forall k :: k in ContactsNotOf(contacts, id) ==> ContactsNotOf(contacts, id)[k].customerId != id
    ensures forall k :: k in contacts && contacts[k].customerId != id ==>
      k in ContactsNotOf(contacts, id) && ContactsNotOf(contacts, id)[k] == contacts[k]
    ensures forall k :: k in TasksNotOf(tasks, id) ==> TasksNotOf(tasks, id)[k].customerId != id
    ensures forall k :: k in tasks && tasks[k].customerId != id ==>
      k in TasksNotOf(tasks, id) && TasksNotOf(tasks, id)[k] == tasks[k]
    ensures ContactsNotOf(contacts, id).Keys <= contacts.Keys && TasksNotOf(tasks, id).Keys <= tasks.Keys
  {
  }

  /** When no contact or task names the customer, the cascade removes nothing. */
  lemma CascadeWithoutChildren(contacts: map<int, Contact>, tasks: map<int, Task>, id: int)
    requires forall k :: k in contacts ==> contacts[k].customerId != id
    requires forall k :: k in tasks ==> tasks[k].customerId != id
    ensures ContactsNotOf(contacts, id) == contacts && TasksNotOf(tasks, id) == tasks
  {
    assert forall k :: k in ContactsNotOf(contacts, id) <==> k in contacts;
    assert forall k :: k in TasksNotOf(tasks, id) <==> k in tasks;
  }

  /** add: a valid form creates one customer under a fresh id. */
  method Add(db: Store, f: CustomerForm, isEmail: string -> bool, now: int) returns (outcome: Outcome)
    requires db.Valid()
    modifies db`customers, db`nextCustomerId
    ensures db.Valid()
    ensures outcome == (if CustomerFormValid(f, isEmail) then Done(old(db.nextCustomerId)) else InvalidForm)
    ensures outcome.Done? ==>
      outcome.id !in old(db.customers) && db.customers == old(db.customers)[outcome.id := NewCustomer(f, now)]
    ensures !outcome.Done? ==> db.customers == old(db.customers) && db.nextCustomerId == old(db.nextCustomerId)
  {
    if !CustomerFormValid(f, isEmail) {
      return InvalidForm;
    }
    var id := db.nextCustomerId;
    db.customers := db.customers[id := NewCustomer(f, now)];
    db.nextCustomerId := id + 1;
    return Done(id);
  }

  /** edit: an existing customer gets the form's values. */
  method Edit(db: Store, id: int, f: CustomerForm, isEmail: string -> bool) returns (outcome: Outcome)
    requires db.Valid()
    modifies db`customers
    ensures db.Valid()
    ensures outcome == (if id !in old(db.customers) then NotFound
                        else if !CustomerFormValid(f, isEmail) then InvalidForm
                        else Done(id))
    ensures db.customers == (if outcome.Done? then old(db.customers)[id := PopulateCustomer(old(db.customers)[id], f)]
                             else old(db.customers))
  {
    if id !in db.customers {
      return NotFound;
    }
    if !CustomerFormValid(f, isEmail) {
      return InvalidForm;
    }
    db.customers := db.customers[id := PopulateCustomer(db.customers[id], f)];
    return Done(id);
  }

  /** delete: the customer goes, and with it every contact and task of that customer. */
  method Delete(db: Store, id: int) returns (outcome: Outcome)
    requires db.Valid()
    modifies db`customers, db`contacts, db`tasks
    ensures db.Valid()
    ensures outcome == (if id in old(db.customers) then Done(id) else NotFound)
    ensures db.customers == old(db.customers) - {id}
    ensures db.contacts == ContactsNotOf(old(db.contacts), id)
    ensures db.tasks == TasksNotOf(old(db.tasks), id)
    ensures old(AtMostOnePrimary(db.contacts)) ==> AtMostOnePrimary(db.contacts)
  {
    if id !in db.customers {
      CascadeWithoutChildren(db.contacts, db.tasks, id);
      return NotFound;
    }
    db.contacts := ContactsNotOf(db.contacts, id);
    db.tasks := TasksNotOf(db.tasks, id);
    db.customers := db.customers - {id};
    return Done(id);
  }

  // ------------------------------------------------------------ contacts

  /** The contacts of one customer. */
  function ContactsOf(contacts: map<int, Contact>, customerId: int): set<int> {
    set k | k in contacts && contacts[k].customerId == customerId
  }

  /** The contacts in `ids` with their primary flag cleared, all others as they were. */
  function ClearPrimary(contacts: map<int, Contact>, ids: set<int>): map<int, Contact> {
    map k | k in contacts :: if k in ids then contacts[k].(isPrimary := false) else contacts[k]
  }

  function NewContact(f: ContactForm, customerId: int, now: int): Contact {
    Contact(f.firstName, f.lastName, f.position, f.email, f.phone, f.isPrimary, f.notes, now, customerId)
  }

  /** populate_obj with a ContactForm: every form field is written; customer and created_at are kept. */
  function PopulateContact(c: Contact, f: ContactForm): (d: Contact)
    ensures d.customerId == c.customerId && d.createdAt == c.createdAt && d.isPrimary == f.isPrimary
  {
    c.(firstName := f.firstName, lastName := f.lastName, position := f.position, email := f.email,
       phone := f.phone, isPrimary := f.isPrimary, notes := f.notes)
  }

  /** add_contact: a primary newcomer first clears every existing contact of its customer. */
  function ContactsAfterAdd(contacts: map<int, Contact>, id: int, c: Contact): map<int, Contact> {
    (if c.isPrimary then ClearPrimary(contacts, ContactsOf(contacts, c.customerId)) else contacts)[id := c]
  }

  /** edit_contact: a contact that becomes primary clears its siblings; otherwise only it changes. */
  function ContactsAfterEdit(contacts: map<int, Contact>, id: int, f: ContactForm): map<int, Contact>
    requires id in contacts
  {
    var wasPrimary := contacts[id].isPrimary;
    var c := PopulateContact(contacts[id], f);
    var m := contacts[id := c];
    if c.isPrimary && !wasPrimary then ClearPrimary(m, ContactsOf(m, c.customerId) - {id}) else m
  }

  /** After adding a primary contact, it is the only primary contact of its customer. */
  lemma AddPrimaryIsOnlyPrimary(contacts: map<int, Contact>, id: int, c: Contact)
    requires id !in contacts && c.isPrimary
    ensures var r := ContactsAfterAdd(contacts, id, c);
      && id in r && r[id] == c
      && forall k :: k in r && r[k].customerId == c.customerId && r[k].isPrimary ==> k == id
  {
  }

  /** Adding a non-primary contact changes no existing contact. */
  lemma AddNonPrimaryKeepsFlags(contacts: map<int, Contact>, id: int, c: Contact)
    requires id !in contacts && !c.isPrimary
    ensures var r := ContactsAfterAdd(contacts, id, c);
      r.Keys == contacts.Keys + {id} && forall k :: k in contacts ==> r[k] == contacts[k]
  {
  }

  /**
   * Adding a contact changes no contact of another customer, and of the contacts of its own
   * customer it changes at most the primary flag.
   */
  lemma AddTouchesOnlySiblingFlags(contacts: map<int, Contact>, id: int, c: Contact)
    requires id !in contacts
    ensures var r := ContactsAfterAdd(contacts, id, c);
      && r.Keys == contacts.Keys + {id}
      && (forall k :: k in contacts && contacts[k].customerId != c.customerId ==> r[k] == contacts[k])
      && (forall k :: k in contacts ==> r[k] == contacts[k].(isPrimary := r[k].isPrimary))
  {
  }

  /** add_contact keeps "at most one primary contact per customer". */
  lemma AddPreservesAtMostOnePrimary(contacts: map<int, Contact>, id: int, c: Contact)
    requires id !in contacts && AtMostOnePrimary(contacts)
    ensures AtMostOnePrimary(ContactsAfterAdd(contacts, id, c))
  {
    var r := ContactsAfterAdd(contacts, id, c);
    forall a, b | a in r && b in r && r[a].isPrimary && r[b].isPrimary && r[a].customerId == r[b].customerId
      ensures a == b
    {
      if a != id && b != id {
        assert contacts[a].isPrimary && contacts[b].isPrimary;
      }
    }
  }

  /** A contact turned primary by an edit stays primary, and every sibling loses the flag. */
  lemma EditTurnedPrimaryClearsSiblings(contacts: map<int, Contact>, id: int, f: ContactForm)
    requires id in contacts && !contacts[id].isPrimary && f.isPrimary
    ensures var r := ContactsAfterEdit(contacts, id, f);
      && id in r && r[id] == PopulateContact(contacts[id], f) && r[id].isPrimary
      && forall k :: k in r && k != id && r[k].customerId == contacts[id].customerId ==> !r[k].isPrimary
  {
  }

  /** An edit that does not turn a contact primary changes that contact only. */
  lemma EditOtherwiseChangesOnlyItself(contacts: map<int, Contact>, id: int, f: ContactForm)
    requires id in contacts && !(f.isPrimary && !contacts[id].isPrimary)
    ensures ContactsAfterEdit(contacts, id, f) == contacts[id := PopulateContact(contacts[id], f)]
  {
  }

  /** edit_contact changes no contact of another customer and of siblings at most the primary flag. */
  lemma EditTouchesOnlySiblingFlags(contacts: map<int, Contact>, id: int, f: ContactForm)
    requires id in contacts
    ensures var r := ContactsAfterEdit(contacts, id, f);
      && r.Keys == contacts.Keys
      && (forall k :: k in contacts && contacts[k].customerId != contacts[id].customerId ==> r[k] == contacts[k])
      && (forall k :: k in contacts && k != id ==> r[k] == contacts[k].(isPrimary := r[k].isPrimary))
  {
  }

  /** edit_contact keeps "at most one primary contact per customer". */
  lemma EditPreservesAtMostOnePrimary(contacts: map<int, Contact>, id: int, f: ContactForm)
    requires id in contacts && AtMostOnePrimary(contacts)
    ensures AtMostOnePrimary(ContactsAfterEdit(contacts, id, f))
  {
    var r := ContactsAfterEdit(contacts, id, f);
    forall a, b | a in r && b in r && r[a].isPrimary && r[b].isPrimary && r[a].customerId == r[b].customerId
      ensures a == b
    {
      if a != id && b != id {
        assert contacts[a].isPrimary && contacts[b].isPrimary;
      }
    }
  }

  /** One step of the sibling-clearing loop. */
  lemma ClearPrimaryStep(contacts: map<int, Contact>, done: set<int>, k: int)
    requires k in contacts && k !in done
    ensures ClearPrimary(contacts, done + {k})
         == ClearPrimary(contacts, done)[k := contacts[k].(isPrimary := false)]
  {
  }

  /** add_contact: a valid form adds a contact to an existing customer. */
  method AddContact(db: Store, customerId: int, f: ContactForm, isEmail: string -> bool, now: int)
    returns (outcome: Outcome)
    requires db.Valid()
    modifies db`contacts, db`nextContactId
    ensures db.Valid()
    ensures outcome == (if customerId !in db.customers then NotFound
                        else if !ContactFormValid(f, isEmail) then InvalidForm
                        else Done(old(db.nextContactId)))
    ensures outcome.Done? ==>
      && outcome.id !in old(db.contacts)
      && db.contacts == ContactsAfterAdd(old(db.contacts), outcome.id, NewContact(f, customerId, now))
    ensures !outcome.Done? ==> db.contacts == old(db.contacts) && db.nextContactId == old(db.nextContactId)
    ensures old(AtMostOnePrimary(db.contacts)) ==> AtMostOnePrimary(db.contacts)
  {
    if customerId !in db.customers {
      return NotFound;
    }
    if !ContactFormValid(f, isEmail) {
      return InvalidForm;
    }
    var contact := NewContact(f, customerId, now);
    var id := db.nextContactId;
    ghost var before := db.contacts;
    if contact.isPrimary {
      var todo := ContactsOf(db.contacts, customerId);
      ghost var done: set<int> := {};
      while todo != {}
        invariant todo + done == ContactsOf(before, customerId) && todo !! done
        invariant db.contacts == ClearPrimary(before, done)
        decreases todo
      {
        HasElement(todo);
        var k :| k in todo;
        ClearPrimaryStep(before, done, k);
        db.contacts := db.contacts[k := db.contacts[k].(isPrimary := false)];
        todo := todo - {k};
        done := done + {k};
      }
    }
    db.contacts := db.contacts[id := contact];
    db.nextContactId := id + 1;
    if AtMostOnePrimary(before) {
      AddPreservesAtMostOnePrimary(before, id, contact);
    }
    return Done(id);
  }

  /** edit_contact: a valid form updates an existing contact. */
  method EditContact(db: Store, id: int, f: ContactForm, isEmail: string -> bool) returns (outcome: Outcome)
    requires db.Valid()
    modifies db`contacts
    ensures db.Valid()
    ensures outcome == (if id !in old(db.contacts) then NotFound
                        else if !ContactFormValid(f, isEmail) then InvalidForm
                        else Done(id))
    ensures db.contacts == (if outcome.Done? then ContactsAfterEdit(old(db.contacts), id, f) else old(db.contacts))
    ensures old(AtMostOnePrimary(db.contacts)) ==> AtMostOnePrimary(db.contacts)
  {
    if id !in db.contacts {
      return NotFound;
    }
    if !ContactFormValid(f, isEmail) {
      return InvalidForm;
    }
    ghost var before := db.contacts;
    var wasPrimary := db.contacts[id].isPrimary;
    var contact := PopulateContact(db.contacts[id], f);
    db.contacts := db.contacts[id := contact];
    if contact.isPrimary && !wasPrimary {
      ghost var m := db.contacts;
      var todo := ContactsOf(db.contacts, contact.customerId);
      ghost var done: set<int> := {};
      while todo != {}
        invariant todo + done == ContactsOf(m, contact.customerId) && todo !! done
        invariant db.contacts == ClearPrimary(m, done - {id})
        decreases todo
      {
        HasElement(todo);
        var k :| k in todo;
        if k != id {
          ClearPrimaryStep(m, done - {id}, k);
          assert done - {id} + {k} == done + {k} - {id};
          db.contacts := db.contacts[k := db.contacts[k].(isPrimary := false)];
        }
        todo := todo - {k};
        done := done + {k};
      }
    }
    if AtMostOnePrimary(before) {
      EditPreservesAtMostOnePrimary(before, id, f);
    }
    return Done(id);
  }

  /** delete_contact: exactly that contact goes. */
  method DeleteContact(db: Store, id: int) returns (outcome: Outcome)
    requires db.Valid()
    modifies db`contacts
    ensures db.Valid()
    ensures outcome == (if id in old(db.contacts) then Done(id) else NotFound)
    ensures db.contacts == old(db.contacts) - {id}
    ensures old(AtMostOnePrimary(db.contacts)) ==> AtMostOnePrimary(db.contacts)
  {
    if id !in db.contacts {
      return NotFound;
    }
    db.contacts := db.contacts - {id};
    return Done(id);
  }
}
