/** The account forms as validity predicates; the uniqueness validators read the user table. */
module AuthForms {
  import opened Validators
  import opened Models
  import opened Db

  datatype LoginForm = LoginForm(username: string, password: string, rememberMe: bool)

  datatype RegistrationForm = RegistrationForm(
    username: string,
    email: string,
    firstName: string,
    lastName: string,
    position: string,
    password: string,
    password2: string)

  datatype EditProfileForm = EditProfileForm(
    username: string,
    email: string,
    firstName: string,
    lastName: string,
    position: string)

  datatype ChangePasswordForm = ChangePasswordForm(
    currentPassword: string,
    newPassword: string,
    confirmPassword: string)

  datatype UserManagementForm = UserManagementForm(
    username: string,
    email: string,
    firstName: string,
    lastName: string,
    position: string,
    role: string,
    password: string,
    password2: string)

  predicate LoginFormValid(f: LoginForm) {
    Required(f.username) && Required(f.password)
  }

  /** The username field of the three profile-bearing forms: DataRequired, Length(3, 64). */
  predicate UsernameFieldValid(username: string) {
    Required(username) && LengthIn(username, 3, 64)
  }

  /** First and last name at most 30 characters, position at most 50, all optional. */
  predicate NameFieldsValid(firstName: string, lastName: string, position: string) {
    OptionalMaxLength(firstName, 30) && OptionalMaxLength(lastName, 30) && OptionalMaxLength(position, 50)
  }

  predicate RegistrationFormValid(f: RegistrationForm, users: map<int, User>, isEmail: string -> bool) {
    && UsernameFieldValid(f.username) && !UsernameTakenBy(users, f.username)
    && RequiredEmail(f.email, isEmail) && !EmailTakenBy(users, f.email)
    && NameFieldsValid(f.firstName, f.lastName, f.position)
    && Required(f.password) && 8 <= |f.password|
    && Required(f.password2) && f.password2 == f.password
  }

  /** The uniqueness checks are skipped for a value equal to the user's current one. */
  predicate EditProfileFormValid(f: EditProfileForm, originalUsername: string, originalEmail: string,
                                 users: map<int, User>, isEmail: string -> bool) {
    && UsernameFieldValid(f.username)
    && (f.username != originalUsername ==> !UsernameTakenBy(users, f.username))
    && RequiredEmail(f.email, isEmail)
    && (f.email != originalEmail ==> !EmailTakenBy(users, f.email))
    && NameFieldsValid(f.firstName, f.lastName, f.position)
  }

  predicate ChangePasswordFormValid(f: ChangePasswordForm) {
    && Required(f.currentPassword)
    && Required(f.newPassword) && 8 <= |f.newPassword|
    && Required(f.confirmPassword) && f.confirmPassword == f.newPassword
  }

  /** The password is optional; the repeat field has no Optional() and must always equal it. */
  predicate UserManagementFormValid(f: UserManagementForm, isEmail: string -> bool) {
    && UsernameFieldValid(f.username)
    && RequiredEmail(f.email, isEmail)
    && NameFieldsValid(f.firstName, f.lastName, f.position)
    && Required(f.role) && OneOf(f.role, RoleTags())
    && OptionalMinLength(f.password, 8)
    && f.password2 == f.password
  }

  // ---------------------------------------------------------------- lemmas

  /** Registration refuses a username or an email some user already has. */
  lemma RegistrationRefusesTaken(f: RegistrationForm, users: map<int, User>, isEmail: string -> bool, k: int)
    requires k in users && (users[k].username == f.username || users[k].email == f.email)
    ensures !RegistrationFormValid(f, users, isEmail)
  {
  }

  /** An accepted registration: username of 3..64 characters that no user has, a fresh email, a confirmed password of 8 or more. */
  lemma RegistrationAccepts(f: RegistrationForm, users: map<int, User>, isEmail: string -> bool)
    requires RegistrationFormValid(f, users, isEmail)
    ensures 3 <= |f.username| <= 64
    ensures forall k :: k in users ==> users[k].username != f.username && users[k].email != f.email
    ensures 8 <= |f.password| && f.password2 == f.password
    ensures !Blank(f.firstName) ==> |f.firstName| <= 30
    ensures !Blank(f.lastName) ==> |f.lastName| <= 30
    ensures !Blank(f.position) ==> |f.position| <= 50
  {
  }

  /**
   * With the original values being the editing user's own, an accepted profile form names a
   * username and an email that no other user holds.
   */
  lemma ProfileExemptionIsOwnRow(f: EditProfileForm, users: map<int, User>, me: int, isEmail: string -> bool)
    requires UniqueLogins(users) && me in users
    requires EditProfileFormValid(f, users[me].username, users[me].email, users, isEmail)
    ensures forall k :: k in users && k != me ==> users[k].username != f.username && users[k].email != f.email
  {
    forall k | k in users && k != me
      ensures users[k].username != f.username && users[k].email != f.email
    {
      if f.username == users[me].username {
        assert users[k].username != users[me].username;
      }
      if f.email == users[me].email {
        assert users[k].email != users[me].email;
      }
    }
  }

  /** An accepted profile form fits the user columns: username 3..64, names at most 30, position at most 50. */
  lemma ProfileFormFitsColumns(f: EditProfileForm, originalUsername: string, originalEmail: string,
                               users: map<int, User>, isEmail: string -> bool)
    requires EditProfileFormValid(f, originalUsername, originalEmail, users, isEmail)
    ensures 3 <= |f.username| <= 64
    ensures !Blank(f.firstName) ==> |f.firstName| <= 30
    ensures !Blank(f.lastName) ==> |f.lastName| <= 30
    ensures !Blank(f.position) ==> |f.position| <= 50
  {
  }

  /** Keeping the current username and email always passes the uniqueness part of the profile form. */
  lemma ProfileKeepsOwnValues(f: EditProfileForm, users: map<int, User>, me: int, isEmail: string -> bool)
    requires me in users && f.username == users[me].username && f.email == users[me].email
    requires UsernameFieldValid(f.username) && RequiredEmail(f.email, isEmail)
    requires NameFieldsValid(f.firstName, f.lastName, f.position)
    ensures EditProfileFormValid(f, users[me].username, users[me].email, users, isEmail)
  {
  }

  /** An accepted password change has a new password of 8 or more characters, confirmed exactly. */
  lemma ChangePasswordAccepts(f: ChangePasswordForm)
    requires ChangePasswordFormValid(f)
    ensures 8 <= |f.newPassword| && f.confirmPassword == f.newPassword
  {
  }

  /** An accepted user form has one of the four roles and an empty, blank or 8-character password. */
  lemma UserManagementAccepts(f: UserManagementForm, isEmail: string -> bool)
    requires UserManagementFormValid(f, isEmail)
    ensures ParseRole(f.role).Some?
    ensures f.password == "" || Blank(f.password) || 8 <= |f.password|
    ensures f.password2 == f.password
    ensures !Blank(f.firstName) ==> |f.firstName| <= 30
    ensures !Blank(f.lastName) ==> |f.lastName| <= 30
    ensures !Blank(f.position) ==> |f.position| <= 50
  {
    ParseRoleRoundTrip(Admin, f.role);
  }

  /** An empty password is accepted by the user form. */
  lemma UserManagementAllowsEmptyPassword(f: UserManagementForm, isEmail: string -> bool)
    requires UserManagementFormValid(f, isEmail)
    ensures UserManagementFormValid(f.(password := "", password2 := ""), isEmail)
  {
  }
}
