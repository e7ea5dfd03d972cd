/** Customer sign-up and login (`app/routers/auth.py`). The `users` table is a
    sequence of rows in insertion order; `query(User).filter(...).first()` is the
    first row with that e-mail. */
module Auth {
  import opened Http
  import opened Query
  import opened Security

  /** `UserCreate`: what a client sends to sign up. */
  datatype UserCreate = UserCreate(
    name: string,
    email: string,
    phone: string,
    address: string,
    password: string)

  /** `UserLogin`. */
  datatype UserLogin = UserLogin(email: string, password: string)

  /** A row of `users`; `userId` is assigned by the database. */
  datatype User = User(
    userId: int,
    name: string,
    email: string,
    phone: string,
    address: string,
    passwordHash: string)

  /** The body a successful login answers with. */
  datatype LoginReply = LoginReply(message: string, userId: int, name: string, email: string)

  const EmailTaken := HttpError(400, "Email already registered")
  const UserNotFound := HttpError(404, "User not found")
  const InvalidCredentials := HttpError(400, "Invalid credentials")
  const LoginSuccessful := "Login successful"

  function FindByEmail(rows: seq<User>, email: string): Option<nat>
  {
    First(rows, (u: User) => u.email == email)
  }

  predicate HasEmail(rows: seq<User>, email: string)
  {
    exists i :: 0 <= i < |rows| && rows[i].email == email
  }

  /** What sign-up's check keeps true of the table: no e-mail is registered twice. */
  predicate EmailsUnique(rows: seq<User>)
  {
    forall i, j :: 0 <= i < j < |rows| ==> rows[i].email != rows[j].email
  }

  /** The row `signup` adds: the client's fields, and the password only as its stored hash. */
  function NewUser(data: UserCreate, id: int, salt: seq<Byte>, prf: Pbkdf2): (u: User)
    requires |salt| == SaltLength
    ensures u.userId == id && u.email == data.email && u.name == data.name
    ensures u.phone == data.phone && u.address == data.address
    ensures VerifyPassword(data.password, u.passwordHash, prf) == Returns(true)
  {
    VerifyHashed(data.password, salt, prf);
    User(id, data.name, data.email, data.phone, data.address, HashPassword(data.password, salt, prf))
  }

  /** Adding a row whose e-mail is not yet registered keeps e-mails unique. */
  lemma AppendKeepsEmailsUnique(rows: seq<User>, u: User)
    requires EmailsUnique(rows)
    requires !HasEmail(rows, u.email)
    ensures EmailsUnique(rows + [u])
  {
    forall i, j | 0 <= i < j < |rows + [u]|
      ensures (rows + [u])[i].email != (rows + [u])[j].email
    {
      if j == |rows| {
        assert (rows + [u])[i] == rows[i];
      } else {
        assert (rows + [u])[i] == rows[i] && (rows + [u])[j] == rows[j];
      }
    }
  }

  /** What `verify_password` does with the login's password and the hash of the
      row `first()` returns. */
  function CheckFound(rows: seq<User>, data: UserLogin, prf: Pbkdf2): Verdict
    requires FindByEmail(rows, data.email).Some?
  {
    VerifyPassword(data.password, rows[FindByEmail(rows, data.email).value].passwordHash, prf)
  }

  /** The body of a successful login for a row. */
  function Reply(u: User): LoginReply
  {
    LoginReply(LoginSuccessful, u.userId, u.name, u.email)
  }

  /** `login`: an unknown e-mail is 404; a stored hash `verify_password` raises on
      surfaces as 500; a wrong password is 400; otherwise the user's id, name and e-mail. */
  function Login(rows: seq<User>, data: UserLogin, prf: Pbkdf2): (r: Result<LoginReply>)
    ensures r == Err(UserNotFound) <==> !HasEmail(rows, data.email)
    ensures r == Err(UserNotFound) <==> FindByEmail(rows, data.email).None?
    ensures FindByEmail(rows, data.email).Some? ==>
              (r == Err(InternalError) <==> CheckFound(rows, data, prf).Raises?)
    ensures FindByEmail(rows, data.email).Some? ==>
              (r == Err(InvalidCredentials) <==> CheckFound(rows, data, prf) == Returns(false))
    ensures FindByEmail(rows, data.email).Some? ==>
              (r.Ok? <==> CheckFound(rows, data, prf) == Returns(true))
    ensures r.Ok? ==> FindByEmail(rows, data.email).Some? && r.value == Reply(rows[FindByEmail(rows, data.email).value])
    ensures r.Ok? ==> r.value.message == LoginSuccessful && r.value.email == data.email
    ensures r.Err? ==> r.error in {UserNotFound, InternalError, InvalidCredentials}
  {
    match FindByEmail(rows, data.email)
    case None => Err(UserNotFound)
    case Some(i) =>
      var u := rows[i];
      match VerifyPassword(data.password, u.passwordHash, prf)
      case Raises(_) => Err(InternalError)
      case Returns(ok) =>
        if !ok then Err(InvalidCredentials)
        else Ok(Reply(u))
  }

  /** Login succeeds exactly when some row has the e-mail, no earlier row has it,
      and that row's hash accepts the password. */
  lemma LoginOkIff(rows: seq<User>, data: UserLogin, prf: Pbkdf2)
    ensures Login(rows, data, prf).Ok? <==>
              exists i :: 0 <= i < |rows| && rows[i].email == data.email
                && (forall j :: 0 <= j < i ==> rows[j].email != data.email)
                && VerifyPassword(data.password, rows[i].passwordHash, prf) == Returns(true)
  {
    var k := FindByEmail(rows, data.email);
    if k.Some? {
      forall i | 0 <= i < |rows| && rows[i].email == data.email
               && (forall j :: 0 <= j < i ==> rows[j].email != data.email)
        ensures i == k.value
      {
        assert !(i < k.value) && !(k.value < i);
      }
    }
  }

  /** Sign-up followed by login with the same e-mail and password succeeds, and
      reports the new row. */
  lemma SignupThenLogin(rows: seq<User>, data: UserCreate, id: int, salt: seq<Byte>, prf: Pbkdf2)
    requires |salt| == SaltLength
    requires !HasEmail(rows, data.email)
    ensures Login(rows + [NewUser(data, id, salt, prf)], UserLogin(data.email, data.password), prf)
              == Ok(LoginReply(LoginSuccessful, id, data.name, data.email))
  {
    var u := NewUser(data, id, salt, prf);
    FirstOfAppended(rows, u, (v: User) => v.email == data.email);
  }

  /** With e-mails unique, login checks the password against the one row that
      has the e-mail: a password of a different digest is refused with 400. */
  lemma WrongPasswordRefused(rows: seq<User>, i: nat, password: string, other: string,
                             salt: seq<Byte>, prf: Pbkdf2)
    requires EmailsUnique(rows) && i < |rows| && |salt| == SaltLength
    requires rows[i].passwordHash == HashPassword(password, salt, prf)
    requires prf(other, salt, Pbkdf2Iterations) != prf(password, salt, Pbkdf2Iterations)
    ensures Login(rows, UserLogin(rows[i].email, other), prf) == Err(InvalidCredentials)
  {
    VerifyOtherPassword(password, other, salt, prf);
    var k := FindByEmail(rows, rows[i].email);
    assert k == Some(i);
  }

  /** The `users` table as the two routes use it. */
  class UserTable {
    var rows: seq<User>

    ghost predicate Valid()
      reads this
    {
      EmailsUnique(rows)
    }

    constructor ()
      ensures Valid() && rows == []
    {
      rows := [];
    }

    /** `signup`: a registered e-mail is refused with 400 and nothing is stored;
        otherwise one row is appended, holding the hash of the password under
        the given salt (`os.urandom(16)`), and returned. */
    method Signup(data: UserCreate, newId: int, salt: seq<Byte>, prf: Pbkdf2) returns (r: Result<User>)
      requires Valid() && |salt| == SaltLength
      modifies this
      ensures Valid()
      ensures HasEmail(old(rows), data.email) ==> r == Err(EmailTaken) && rows == old(rows)
      ensures !HasEmail(old(rows), data.email) ==>
                r == Ok(NewUser(data, newId, salt, prf)) && rows == old(rows) + [r.value]
    {
      if FindByEmail(rows, data.email).Some? {
        return Err(EmailTaken);
      }
      var u := NewUser(data, newId, salt, prf);
      AppendKeepsEmailsUnique(rows, u);
      rows := rows + [u];
      r := Ok(u);
    }
  }
}
