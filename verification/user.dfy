/** A user account: who creates invoices. */
module Users {
  import opened Wrappers
  import opened Scalars
  import opened Text
  import Enums

  datatype User = User(
    username: string,
    email: string,
    passwordHash: string,      // opaque credential hash
    firstName: string,
    lastName: string,
    role: Enums.UserRole,
    isActive: bool,
    createdAt: Time,
    updatedAt: Option<Time>)

  /** A user built with only the property initialisers run; `now` is the
      clock reading taken for `CreatedAt`. */
  function NewUser(now: Time): (u: User)
    ensures FullName(u) == ""
    ensures u.isActive && u.role == Enums.UserRole.User && u.createdAt == now
  {
    assert "" + " " + "" == " " == " " + "" + "";
    assert AllWhiteSpace(" ") && AllWhiteSpace("") && NoOuterWhiteSpace("");
    TrimUnique(" ", " ", "", "");
    User("", "", "", "", "", Enums.UserRole.User, true, now, None)
  }

  lemma NewUserDefaults(now: Time)
    ensures NewUser(now).role == Enums.UserRole.User
    ensures NewUser(now).isActive
    ensures NewUser(now).updatedAt == None
    ensures NewUser(now).createdAt == now
  {
  }

  /** First and last name joined by one space, then trimmed. */
  function FullName(u: User): (r: string)
    ensures NoOuterWhiteSpace(r)
    ensures |r| <= |u.firstName| + 1 + |u.lastName|
  {
    Trim(u.firstName + " " + u.lastName)
  }

  /** What the full name is when the parts carry no outer white space. */
  lemma FullNameShapes(u: User)
    ensures u.firstName == "" && u.lastName == "" ==> FullName(u) == ""
    ensures u.lastName == "" && NoOuterWhiteSpace(u.firstName) ==> FullName(u) == u.firstName
    ensures u.firstName == "" && NoOuterWhiteSpace(u.lastName) ==> FullName(u) == u.lastName
    ensures u.firstName != "" && u.lastName != ""
            && NoOuterWhiteSpace(u.firstName) && NoOuterWhiteSpace(u.lastName)
            ==> FullName(u) == u.firstName + " " + u.lastName
  {
    var joined := u.firstName + " " + u.lastName;
    if u.firstName == "" && u.lastName == "" {
      TrimUnique(joined, " ", "", "");
    }
    if u.lastName == "" && NoOuterWhiteSpace(u.firstName) {
      TrimUnique(joined, "", u.firstName, " ");
    }
    if u.firstName == "" && NoOuterWhiteSpace(u.lastName) {
      TrimUnique(joined, " ", u.lastName, "");
    }
    if u.firstName != "" && u.lastName != ""
       && NoOuterWhiteSpace(u.firstName) && NoOuterWhiteSpace(u.lastName) {
      TrimUnique(joined, "", joined, "");
    }
  }

  /** Column length limits. The store does not enforce them. */
  predicate WithinLengths(u: User) {
    && |u.username| <= 100
    && |u.email| <= 255
    && |u.passwordHash| <= 255
    && |u.firstName| <= 100
    && |u.lastName| <= 100
  }
}
