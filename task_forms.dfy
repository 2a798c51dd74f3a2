/** TaskForm as a validity predicate over the submitted values and the customers it may choose from. */
module TaskForms {
  import opened Wrappers
  import opened Validators
  import opened Models

  const PRIORITY_CHOICES: seq<string> := [PRIORITY_LOW, PRIORITY_MEDIUM, PRIORITY_HIGH]
  const TASK_STATUS_CHOICES: seq<string> := [TASK_NEW, TASK_IN_PROGRESS, TASK_COMPLETED, TASK_POSTPONED]

  // What the form shows before anything is submitted.
  const FORM_DEFAULT_PRIORITY: string := PRIORITY_MEDIUM
  const FORM_DEFAULT_STATUS: string := TASK_NEW

  /** The due-date field: left blank, a parsed "%Y-%m-%d %H:%M" value, or text that does not parse. */
  datatype DueDateInput = NoDueDate | DueAt(at: int) | Unparsable

  datatype TaskForm = TaskForm(
    title: string,
    description: string,
    dueDate: DueDateInput,
    priority: string,
    status: string,
    customerId: int)

  /** The due date a valid form stores. */
  function DueDateOf(d: DueDateInput): Option<int> {
    match d
    case DueAt(t) => Some(t)
    case _ => None
  }

  /**
   * `customerIds` are the choices of the customer select: the ids of all customers. DataRequired on
   * the integer also refuses 0.
   */
  predicate TaskFormValid(f: TaskForm, customerIds: set<int>) {
    && Required(f.title) && LengthIn(f.title, 3, 100)
    && f.dueDate != Unparsable
    && OneOf(f.priority, PRIORITY_CHOICES)
    && OneOf(f.status, TASK_STATUS_CHOICES)
    && f.customerId != 0 && f.customerId in customerIds
  }

  /** The form's defaults are among its choices and agree with the task columns' defaults. */
  lemma FormDefaults()
    ensures FORM_DEFAULT_PRIORITY in PRIORITY_CHOICES && FORM_DEFAULT_PRIORITY == DEFAULT_PRIORITY
    ensures FORM_DEFAULT_STATUS in TASK_STATUS_CHOICES && FORM_DEFAULT_STATUS == DEFAULT_TASK_STATUS
  {
  }

  /** An accepted form names an existing customer, so a task always has its customer. */
  lemma TaskFormNamesCustomer(f: TaskForm, customerIds: set<int>)
    requires TaskFormValid(f, customerIds)
    ensures f.customerId in customerIds
    ensures 3 <= |f.title| <= 100
  {
  }

  /** Due date and description are optional: changing them to blank keeps a valid form valid. */
  lemma DueDateAndDescriptionOptional(f: TaskForm, customerIds: set<int>)
    requires TaskFormValid(f, customerIds)
    ensures TaskFormValid(f.(dueDate := NoDueDate, description := ""), customerIds)
    ensures DueDateOf(NoDueDate) == None
  {
  }
}
