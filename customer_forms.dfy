/** CustomerForm and ContactForm as validity predicates over the submitted values. */
module CustomerForms {
  import opened Validators
  import opened Models

  /** The status select offers three of the four statuses the dashboard counts. */
  const CUSTOMER_STATUS_CHOICES: seq<string> := [CUSTOMER_NEW, CUSTOMER_ACTIVE, CUSTOMER_INACTIVE]

  datatype CustomerForm = CustomerForm(
    name: string,
    company: string,
    email: string,
    phone: string,
    address: string,
    status: string,
    notes: string)

  datatype ContactForm = ContactForm(
    firstName: string,
    lastName: string,
    position: string,
    email: string,
    phone: string,
    isPrimary: bool,
    notes: string)

  predicate CustomerFormValid(f: CustomerForm, isEmail: string -> bool) {
    && Required(f.name) && LengthIn(f.name, 2, 100)
    && OptionalMaxLength(f.company, 100)
    && OptionalEmail(f.email, isEmail)
    && OptionalMaxLength(f.phone, 20)
    && OptionalMaxLength(f.address, 200)
    && OneOf(f.status, CUSTOMER_STATUS_CHOICES)
  }

  /** is_primary is a plain check box: it takes part in no validation. */
  predicate ContactFormValid(f: ContactForm, isEmail: string -> bool) {
    && Required(f.firstName) && LengthIn(f.firstName, 2, 50)
    && Required(f.lastName) && LengthIn(f.lastName, 2, 50)
    && OptionalMaxLength(f.position, 100)
    && OptionalEmail(f.email, isEmail)
    && OptionalMaxLength(f.phone, 20)
  }

  /** The 'Потенциальный' status the dashboard counts cannot be entered through the form. */
  lemma PotentialNotProducible(f: CustomerForm, isEmail: string -> bool)
    requires CustomerFormValid(f, isEmail)
    ensures f.status != CUSTOMER_POTENTIAL
    ensures f.status == CUSTOMER_NEW || f.status == CUSTOMER_ACTIVE || f.status == CUSTOMER_INACTIVE
  {
  }

  /**
   * An accepted customer form fits the customer columns: name String(100), company String(100),
   * phone String(20), address String(200), status String(20), except for whitespace-only optional
   * values, which Optional() lets through at any length.
   */
  lemma CustomerFormFitsColumns(f: CustomerForm, isEmail: string -> bool)
    requires CustomerFormValid(f, isEmail)
    ensures 2 <= |f.name| <= 100
    ensures !Blank(f.company) ==> |f.company| <= 100
    ensures !Blank(f.phone) ==> |f.phone| <= 20
    ensures !Blank(f.address) ==> |f.address| <= 200
    ensures |f.status| <= 20
  {
  }

  /** An accepted contact form fits the contact columns (names String(50), position String(100), phone String(20)). */
  lemma ContactFormFitsColumns(f: ContactForm, isEmail: string -> bool)
    requires ContactFormValid(f, isEmail)
    ensures 2 <= |f.firstName| <= 50 && 2 <= |f.lastName| <= 50
    ensures !Blank(f.position) ==> |f.position| <= 100
    ensures !Blank(f.phone) ==> |f.phone| <= 20
  {
  }

  /** The primary flag is independent of validity: either value of the check box is accepted. */
  lemma PrimaryFlagFree(f: ContactForm, isEmail: string -> bool, flag: bool)
    ensures ContactFormValid(f, isEmail) <==> ContactFormValid(f.(isPrimary := flag), isEmail)
  {
  }
}
