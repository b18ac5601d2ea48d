/** The custom user model: an authenticated identity carrying a role tag
    (`user_type`) and a few contact fields. */
module AccountsModels {
  import opened Common

  /** The four roles a user can have. */
  datatype UserType = AdminUser | TeacherUser | StudentUser | ParentUser

  /** A user row created without an explicit role is a student. */
  const DefaultUserType: UserType := StudentUser

  /** The value stored in the `user_type` column. */
  function UserTypeKey(t: UserType): string {
    match t
    case AdminUser => "admin"
    case TeacherUser => "teacher"
    case StudentUser => "student"
    case ParentUser => "parent"
  }

  /** Reads a stored or submitted `user_type` value; anything outside the choices is rejected. */
  function ParseUserType(s: string): (r: Option<UserType>)
    ensures r.Some? ==> UserTypeKey(r.value) == s
    ensures r.None? ==> forall t: UserType :: UserTypeKey(t) != s
  {
    if s == "admin" then Some(AdminUser)
    else if s == "teacher" then Some(TeacherUser)
    else if s == "student" then Some(StudentUser)
    else if s == "parent" then Some(ParentUser)
    else None
  }

  lemma UserTypeRoundTrip(t: UserType)
    ensures ParseUserType(UserTypeKey(t)) == Some(t)
  {
  }

  /** A user row. `password` is None for an account without a usable password;
      hashing is not modelled, the raw password stands for its hash. */
  datatype User = User(
    id: nat,
    username: string,
    userType: UserType,
    firstName: string,
    lastName: string,
    email: string,
    phone: string,
    address: string,
    profilePicture: string,
    password: Option<string>)

  /** A freshly created user: fields not supplied take the model defaults
      (role `student`, blank contact fields, no picture). */
  function NewUser(id: nat, username: string, userType: Option<UserType>,
                   firstName: string, lastName: string, email: string, phone: string,
                   password: Option<string>): (u: User)
    ensures u.id == id && u.username == username
    ensures userType.None? ==> u.userType == DefaultUserType
    ensures userType.Some? ==> u.userType == userType.value
    ensures u.firstName == firstName && u.lastName == lastName && u.email == email && u.phone == phone
    ensures u.password == password
    ensures u.address == "" && u.profilePicture == ""
  {
    User(id, username, if userType.Some? then userType.value else DefaultUserType,
         firstName, lastName, email, phone, "", "", password)
  }

  /** Is this user staff, that is an admin or a teacher? Most management views require it. */
  predicate IsStaff(u: User) {
    u.userType == AdminUser || u.userType == TeacherUser
  }
}
