/** Professional login (`app/routers/professional_auth.py`): only an active
    professional's row is ever found. */
module ProfessionalAuth {
  import opened Http
  import opened Query
  import opened Security

  /** A row of `professionals`, as far as login reads it. */
  datatype Professional = Professional(
    professionalId: int,
    name: string,
    email: string,
    passwordHash: string,
    isActive: bool)

  /** `ProfessionalLogin`. */
  datatype ProfessionalLogin = ProfessionalLogin(email: string, password: string)

  /** The body a successful login answers with. */
  datatype ProfessionalReply = ProfessionalReply(professionalId: int, name: string, email: string)

  const ProfessionalNotFound := HttpError(404, "Professional not found")
  const InvalidPassword := HttpError(401, "Invalid password")

  /** The filter of the query: this e-mail, and `is_active == True`. */
  predicate Eligible(p: Professional, email: string)
  {
    p.email == email && p.isActive
  }

  /** The row the query's `first()` returns: the first active one with that e-mail. */
  function FirstEligible(rows: seq<Professional>, email: string): Option<nat>
  {
    First(rows, (p: Professional) => Eligible(p, email))
  }

  /** What `verify_password` does with the login's password and the hash of the
      row `first()` returns. */
  function CheckFound(rows: seq<Professional>, data: ProfessionalLogin, prf: Pbkdf2): Verdict
    requires FirstEligible(rows, data.email).Some?
  {
    VerifyPassword(data.password, rows[FirstEligible(rows, data.email).value].passwordHash, prf)
  }

  function Reply(p: Professional): ProfessionalReply
  {
    ProfessionalReply(p.professionalId, p.name, p.email)
  }

  /** `login`: with no active professional of that e-mail, 404; a stored hash
      `verify_password` raises on surfaces as 500; a wrong password is 401;
      otherwise the first eligible row's id, name and e-mail. */
  function Login(rows: seq<Professional>, data: ProfessionalLogin, prf: Pbkdf2): (r: Result<ProfessionalReply>)
    ensures r == Err(ProfessionalNotFound) <==>
              forall i :: 0 <= i < |rows| ==> !Eligible(rows[i], data.email)
    ensures r == Err(ProfessionalNotFound) <==> FirstEligible(rows, data.email).None?
    ensures FirstEligible(rows, data.email).Some? ==>
              (r == Err(InternalError) <==> CheckFound(rows, data, prf).Raises?)
    ensures FirstEligible(rows, data.email).Some? ==>
              (r == Err(InvalidPassword) <==> CheckFound(rows, data, prf) == Returns(false))
    ensures FirstEligible(rows, data.email).Some? ==>
              (r.Ok? <==> CheckFound(rows, data, prf) == Returns(true))
    ensures r.Ok? ==> FirstEligible(rows, data.email).Some?
                      && r.value == Reply(rows[FirstEligible(rows, data.email).value])
    ensures r.Err? ==> r.error in {ProfessionalNotFound, InternalError, InvalidPassword}
  {
    match FirstEligible(rows, data.email)
    case None => Err(ProfessionalNotFound)
    case Some(i) =>
      var p := rows[i];
      match VerifyPassword(data.password, p.passwordHash, prf)
      case Raises(_) => Err(InternalError)
      case Returns(ok) =>
        if !ok then Err(InvalidPassword)
        else Ok(Reply(p))
  }

  /** Login succeeds exactly when some row is eligible, no earlier row is, and
      that row's hash accepts the password. */
  lemma LoginOkIff(rows: seq<Professional>, data: ProfessionalLogin, prf: Pbkdf2)
    ensures Login(rows, data, prf).Ok? <==>
              exists i :: 0 <= i < |rows| && Eligible(rows[i], data.email)
                && (forall j :: 0 <= j < i ==> !Eligible(rows[j], data.email))
                && VerifyPassword(data.password, rows[i].passwordHash, prf) == Returns(true)
  {
    var k := FirstEligible(rows, data.email);
    if k.Some? {
      forall i | 0 <= i < |rows| && Eligible(rows[i], data.email)
               && (forall j :: 0 <= j < i ==> !Eligible(rows[j], data.email))
        ensures i == k.value
      {
        assert !(i < k.value) && !(k.value < i);
      }
    }
  }

  /** Deactivating a professional locks them out even with the right password:
      with their row (and no other of that e-mail) inactive, login is 404, the
      same answer as for an unknown e-mail. */
  lemma DeactivatedIsNotFound(rows: seq<Professional>, i: nat, password: string, salt: seq<Byte>, prf: Pbkdf2)
    requires i < |rows| && |salt| == SaltLength
    requires rows[i].passwordHash == HashPassword(password, salt, prf)
    requires forall j :: 0 <= j < |rows| && rows[j].email == rows[i].email ==> !rows[j].isActive
    ensures Login(rows, ProfessionalLogin(rows[i].email, password), prf) == Err(ProfessionalNotFound)
  {
  }

  /** An active professional with the right password logs in, whatever inactive
      rows of the same e-mail come before it. */
  lemma ActiveWithRightPassword(rows: seq<Professional>, i: nat, password: string, salt: seq<Byte>, prf: Pbkdf2)
    requires i < |rows| && |salt| == SaltLength && rows[i].isActive
    requires rows[i].passwordHash == HashPassword(password, salt, prf)
    requires forall j :: 0 <= j < i && rows[j].email == rows[i].email ==> !rows[j].isActive
    ensures Login(rows, ProfessionalLogin(rows[i].email, password), prf)
              == Ok(ProfessionalReply(rows[i].professionalId, rows[i].name, rows[i].email))
  {
    VerifyHashed(password, salt, prf);
    var k := FirstEligible(rows, rows[i].email);
    assert k == Some(i);
  }

  /** A wrong password for an active professional is 401, never 404. */
  lemma WrongPasswordIsUnauthorized(rows: seq<Professional>, i: nat, password: string, other: string,
                                    salt: seq<Byte>, prf: Pbkdf2)
    requires i < |rows| && |salt| == SaltLength && rows[i].isActive
    requires rows[i].passwordHash == HashPassword(password, salt, prf)
    requires forall j :: 0 <= j < i && rows[j].email == rows[i].email ==> !rows[j].isActive
    requires prf(other, salt, Pbkdf2Iterations) != prf(password, salt, Pbkdf2Iterations)
    ensures Login(rows, ProfessionalLogin(rows[i].email, other), prf) == Err(InvalidPassword)
  {
    VerifyOtherPassword(password, other, salt, prf);
    var k := FirstEligible(rows, rows[i].email);
    assert k == Some(i);
  }
}
