/** The account forms: self-registration (a user plus the optional student
    fields), the Bootstrap styling its constructor applies to every widget,
    and the profile form. */
module AccountsForms {
  import opened Common
  import opened AccountsModels
  import opened SchoolModels

  // Django's stock messages for the checks these forms run.
  const Required := "This field is required."
  const InvalidChoice := "Select a valid choice."
  const InvalidEmail := "Enter a valid email address."
  const InvalidUsername := "Enter a valid username."
  const TooLong := "Ensure this value has fewer characters."
  const TooSmall := "Ensure this value is greater than or equal to 1."
  const PasswordMismatch := "The two password fields didn't match."
  const WeakPassword := "This password is too weak."
  const UsernameTaken := "A user with that username already exists."

  /** The user columns the password validators may compare a password with
      (`UserAttributeSimilarityValidator`): the unsaved user as the form
      has filled it in. */
  datatype PasswordUser = PasswordUser(username: string, email: string, firstName: string, lastName: string)

  /** The checks Django runs with code that is not part of this model: the
      email address validator, the username character validator, the
      configured password validators (given the password and the user it is
      for), and the case folding the database applies when `clean_username`
      looks for `username__iexact`. */
  datatype Validators = Validators(
    isEmail: string -> bool, isUsername: string -> bool, passwordOk: (string, PasswordUser) -> bool,
    foldCase: string -> string)

  /** The user `validate_password(password2, self.instance)` sees. */
  function CandidateUser(f: RegistrationSubmission): (u: PasswordUser)
    ensures u.username == f.username && u.email == f.email
    ensures u.firstName == f.firstName && u.lastName == f.lastName
  {
    PasswordUser(f.username, f.email, f.firstName, f.lastName)
  }

  // ---------------------------------------------------------------- registration

  /** The roles a visitor may register with: student and teacher only. */
  function ParseRegistrationRole(s: string): (r: Option<UserType>)
    ensures r.Some? ==> (r.value == StudentUser || r.value == TeacherUser) && UserTypeKey(r.value) == s
    ensures r.None? <==> s != "student" && s != "teacher"
  {
    if s == "student" then Some(StudentUser)
    else if s == "teacher" then Some(TeacherUser)
    else None
  }

  /** Admin and parent accounts cannot be created by registering. */
  lemma RegistrationExcludesAdminAndParent()
    ensures ParseRegistrationRole(UserTypeKey(AdminUser)).None?
    ensures ParseRegistrationRole(UserTypeKey(ParentUser)).None?
  {
  }

  /** What the registration form posts. Empty text inputs arrive as "". */
  datatype RegistrationSubmission = RegistrationSubmission(
    username: string, email: string, userType: string, password1: string, password2: string,
    firstName: string, lastName: string, phone: string,
    dateOfBirth: Option<Date>, gender: string, className: string, section: string,
    rollNumber: Option<int>, parentName: string, parentPhone: string)

  /** The cleaned registration form. */
  datatype Registration = Registration(
    username: string, email: string, role: UserType, password: string,
    firstName: string, lastName: string, phone: string,
    dateOfBirth: Option<Date>, gender: string, className: string, section: string,
    rollNumber: Option<int>, parentName: string, parentPhone: string)

  /** The account part of the form: username, email, role, the two passwords
      and the user columns it saves. A username that matches an existing one
      up to case is taken (`UserCreationForm.clean_username`). */
  function CleanAccount(f: RegistrationSubmission, users: seq<User>, v: Validators): (r: Outcome<UserType>)
    ensures r.Ok? <==> && f.username != "" && |f.username| <= 150 && v.isUsername(f.username)
                       && (forall u :: u in users ==> v.foldCase(u.username) != v.foldCase(f.username))
                       && f.email != "" && v.isEmail(f.email)
                       && ParseRegistrationRole(f.userType).Some?
                       && f.password1 != "" && f.password2 != "" && f.password1 == f.password2
                       && v.passwordOk(f.password2, CandidateUser(f))
                       && |f.firstName| <= 150 && |f.lastName| <= 150 && |f.phone| <= 15
    ensures r.Ok? ==> Some(r.value) == ParseRegistrationRole(f.userType)
  {
    if f.username == "" || f.email == "" || f.userType == "" || f.password1 == "" || f.password2 == ""
    then Err(Required)
    else if |f.username| > 150 || |f.firstName| > 150 || |f.lastName| > 150 || |f.phone| > 15
    then Err(TooLong)
    else if !v.isUsername(f.username) then Err(InvalidUsername)
    else if !v.isEmail(f.email) then Err(InvalidEmail)
    else if ParseRegistrationRole(f.userType).None? then Err(InvalidChoice)
    else if f.password1 != f.password2 then Err(PasswordMismatch)
    else if !v.passwordOk(f.password2, CandidateUser(f)) then Err(WeakPassword)
    else if exists u :: u in users && v.foldCase(u.username) == v.foldCase(f.username) then Err(UsernameTaken)
    else Ok(ParseRegistrationRole(f.userType).value)
  }

  /** The student part of the form: every field may be left empty; a gender
      must be one of the offered choices, a roll number at least 1, and the
      text fields keep to their maximum lengths. */
  function CleanStudentFields(f: RegistrationSubmission): (r: Outcome<()>)
    ensures r.Ok? <==> && (f.gender == "" || f.gender == "Male" || f.gender == "Female")
                       && |f.className| <= 50 && |f.section| <= 10
                       && (f.rollNumber.Some? ==> f.rollNumber.value >= 1)
                       && |f.parentName| <= 100 && |f.parentPhone| <= 15
  {
    if f.gender != "" && f.gender != "Male" && f.gender != "Female" then Err(InvalidChoice)
    else if |f.className| > 50 || |f.section| > 10 || |f.parentName| > 100 || |f.parentPhone| > 15
    then Err(TooLong)
    else if f.rollNumber.Some? && f.rollNumber.value < 1 then Err(TooSmall)
    else Ok(())
  }

  /** `UserRegistrationForm.is_valid()`: both parts valid; the cleaned form
      carries the submitted values unchanged, with the role parsed. */
  function CleanRegistration(f: RegistrationSubmission, users: seq<User>, v: Validators): (r: Outcome<Registration>)
    ensures r.Ok? <==> CleanAccount(f, users, v).Ok? && CleanStudentFields(f).Ok?
    ensures r.Ok? ==> && (r.value.role == StudentUser || r.value.role == TeacherUser)
                      && UserTypeKey(r.value.role) == f.userType
                      && r.value.username == f.username && r.value.password == f.password1
                      && r.value.email == f.email && r.value.firstName == f.firstName
                      && r.value.lastName == f.lastName && r.value.phone == f.phone
                      && r.value.className == f.className && r.value.section == f.section
                      && r.value.rollNumber == f.rollNumber && r.value.gender == f.gender
                      && r.value.parentName == f.parentName && r.value.parentPhone == f.parentPhone
                      && r.value.dateOfBirth == f.dateOfBirth
    ensures r.Ok? ==> forall u :: u in users ==> u.username != r.value.username
  {
    match CleanAccount(f, users, v)
    case Err(e) => Err(e)
    case Ok(role) =>
      if CleanStudentFields(f).Err? then Err(CleanStudentFields(f).error)
      else Ok(Registration(f.username, f.email, role, f.password1, f.firstName, f.lastName, f.phone,
                           f.dateOfBirth, f.gender, f.className, f.section, f.rollNumber,
                           f.parentName, f.parentPhone))
  }

  /** Leaving every student field empty never makes a registration invalid. */
  lemma StudentFieldsOptional(f: RegistrationSubmission, users: seq<User>, v: Validators)
    requires f.dateOfBirth.None? && f.gender == "" && f.className == "" && f.section == ""
    requires f.rollNumber.None? && f.parentName == "" && f.parentPhone == ""
    ensures CleanRegistration(f, users, v).Ok? <==> CleanAccount(f, users, v).Ok?
  {
  }

  // ---------------------------------------------------------------- widget styling

  /** A form widget: whether it renders as a `<select>`, and its HTML attributes. */
  class Widget {
    const isSelect: bool
    var attrs: map<string, string>

    constructor (isSelect: bool, attrs: map<string, string>)
      ensures this.isSelect == isSelect && this.attrs == attrs
    {
      this.isSelect := isSelect;
      this.attrs := attrs;
    }
  }

  /** A named form field and its widget. */
  datatype FormField = FormField(name: string, widget: Widget)

  /** The fields whose widgets the constructor leaves alone. */
  predicate IsPasswordField(name: string) {
    name == "password1" || name == "password2"
  }

  /** The attributes a widget ends up with: a field other than the two
      passwords that has no `class` gets `form-select` (a select) or
      `form-control` (anything else); an existing class is left as it is. */
  function Styled(name: string, isSelect: bool, attrs: map<string, string>): map<string, string>
  {
    if IsPasswordField(name) || "class" in attrs then attrs
    else attrs["class" := if isSelect then "form-select" else "form-control"]
  }

  /** Styling gives every non-password widget a class, keeps a class already
      set, and changes no other attribute. */
  lemma StyledGivesClass(name: string, isSelect: bool, attrs: map<string, string>)
    ensures !IsPasswordField(name) ==> "class" in Styled(name, isSelect, attrs)
    ensures "class" in attrs ==> Styled(name, isSelect, attrs) == attrs
    ensures IsPasswordField(name) ==> Styled(name, isSelect, attrs) == attrs
    ensures forall k :: k != "class" ==> (k in Styled(name, isSelect, attrs) <==> k in attrs)
    ensures forall k :: k != "class" && k in attrs ==> Styled(name, isSelect, attrs)[k] == attrs[k]
    ensures "class" !in attrs && !IsPasswordField(name) ==>
      Styled(name, isSelect, attrs)["class"] == if isSelect then "form-select" else "form-control"
  {
  }

  /** Styling twice is styling once: constructing the form again changes nothing. */
  lemma StyledIdempotent(name: string, isSelect: bool, attrs: map<string, string>)
    ensures Styled(name, isSelect, Styled(name, isSelect, attrs)) == Styled(name, isSelect, attrs)
  {
  }

  /** No widget is shared between two fields. */
  ghost predicate DistinctWidgets(fields: seq<FormField>) {
    forall i, j :: 0 <= i < j < |fields| ==> fields[i].widget != fields[j].widget
  }

  /** `UserRegistrationForm.__init__`: the loop over the form's fields that
      adds the Bootstrap class to each widget. */
  method AddBootstrapClasses(fields: seq<FormField>)
    requires DistinctWidgets(fields)
    modifies set i | 0 <= i < |fields| :: fields[i].widget
    ensures forall i :: 0 <= i < |fields| ==>
      fields[i].widget.attrs == Styled(fields[i].name, fields[i].widget.isSelect, old(fields[i].widget.attrs))
  {
    for k := 0 to |fields|
      invariant forall i :: 0 <= i < k ==>
        fields[i].widget.attrs == Styled(fields[i].name, fields[i].widget.isSelect, old(fields[i].widget.attrs))
      invariant forall i :: k <= i < |fields| ==> fields[i].widget.attrs == old(fields[i].widget.attrs)
    {
      var field := fields[k];
      if !IsPasswordField(field.name) {
        if "class" !in field.widget.attrs {
          if field.widget.isSelect {
            field.widget.attrs := field.widget.attrs["class" := "form-select"];
          } else {
            field.widget.attrs := field.widget.attrs["class" := "form-control"];
          }
        }
      }
    }
  }

  // ---------------------------------------------------------------- profile

  /** What the profile form posts; a missing picture means no new upload. */
  datatype ProfileSubmission = ProfileSubmission(
    firstName: string, lastName: string, email: string, phone: string, address: string,
    profilePicture: Option<string>)

  /** `ProfileUpdateForm` bound to the caller, then `save()`: the email is
      required, the text columns keep their maximum lengths, and only the six
      listed columns change; without a new upload the picture stays. */
  function UpdateProfile(u: User, f: ProfileSubmission, v: Validators): (r: Outcome<User>)
    ensures r.Ok? <==> f.email != "" && |f.email| <= 254 && v.isEmail(f.email)
                       && |f.firstName| <= 150 && |f.lastName| <= 150 && |f.phone| <= 15
    ensures r.Ok? ==> && r.value.id == u.id && r.value.username == u.username
                      && r.value.userType == u.userType && r.value.password == u.password
    ensures r.Ok? ==> && r.value.firstName == f.firstName && r.value.lastName == f.lastName
                      && r.value.email == f.email && r.value.phone == f.phone
                      && r.value.address == f.address
                      && r.value.profilePicture == if f.profilePicture.Some? then f.profilePicture.value else u.profilePicture
  {
    if f.email == "" then Err(Required)
    else if |f.email| > 254 || |f.firstName| > 150 || |f.lastName| > 150 || |f.phone| > 15 then Err(TooLong)
    else if !v.isEmail(f.email) then Err(InvalidEmail)
    else Ok(u.(firstName := f.firstName, lastName := f.lastName, email := f.email, phone := f.phone,
               address := f.address, profilePicture := OrElse(f.profilePicture, u.profilePicture)))
  }
}
