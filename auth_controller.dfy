/** The registration and login handlers: the service outcome decides the
    status, code and message of the response. */
module AuthHandlers {
  import opened Outcomes
  import opened Http
  import opened UserRepo
  import opened AuthSvc

  /** `register`: 201 with the result; 409 `USER_EXISTS` exactly for the
      duplicate-email error; 400 `REGISTRATION_ERROR` carrying the error's
      message for anything else. */
  function RegisterReply(c: Completion<AuthResult>): (r: Reply<AuthResult>)
    ensures c.Returned? <==> r.status == 201
    ensures c.Returned? ==> r == DataReply(201, c.value)
    ensures c == Threw(ErrorInstance(UserExists)) <==> r.status == 409
    ensures r.status == 409 ==> r == ErrorReply(409, UserExists, "USER_EXISTS")
    ensures c.Threw? && c.thrown.ErrorInstance? && c.thrown.message != UserExists ==>
      r == ErrorReply(400, c.thrown.message, "REGISTRATION_ERROR")
    ensures c == Threw(NonError) ==> r == ErrorReply(400, "Registration failed", "REGISTRATION_ERROR")
  {
    match c
    case Returned(v) => DataReply(201, v)
    case Threw(ErrorInstance(m)) =>
      if m == UserExists then ErrorReply(409, UserExists, "USER_EXISTS")
      else ErrorReply(400, m, "REGISTRATION_ERROR")
    case Threw(NonError) => ErrorReply(400, "Registration failed", "REGISTRATION_ERROR")
  }

  /** `login`: 200 with the result; any failure, whatever it says, becomes the
      same 401 `INVALID_CREDENTIALS` with a fixed message. */
  function LoginReply(c: Completion<AuthResult>): (r: Reply<AuthResult>)
    ensures c.Returned? <==> r.status == 200
    ensures c.Returned? ==> r == DataReply(200, c.value)
    ensures c.Threw? ==> r == ErrorReply(401, InvalidCredentials, "INVALID_CREDENTIALS")
  {
    match c
    case Returned(v) => DataReply(200, v)
    case Threw(_) => ErrorReply(401, InvalidCredentials, "INVALID_CREDENTIALS")
  }

  /** The handlers over one identity service. */
  class AuthController {
    const service: AuthService

    ghost predicate Valid()
      reads this, service, service.users
    {
      service.Valid()
    }

    constructor(crypto: Crypto)
      ensures Valid() && fresh(service) && fresh(service.users) && service.users.rows == []
      ensures service.crypto == crypto
    {
      service := new AuthService(crypto);
    }

    method Register(email: string, password: string, salt: string, uuid: string, res: Response<AuthResult>)
      requires Valid()
      modifies service, service.users, res
      ensures Valid()
      ensures var g := RegisterOutcome(old(service.users.rows), service.crypto, email, password, salt, uuid);
        service.users.rows == g.rows && res.sent == Some(RegisterReply(Await(g.result)))
    {
      var r := service.Register(email, password, salt, uuid);
      res.Send(RegisterReply(Await(r)));
    }

    method Login(email: string, password: string, res: Response<AuthResult>)
      modifies res
      ensures res.sent == Some(LoginReply(Await(LoginOutcome(service.users.rows, service.crypto, email, password))))
    {
      var r := service.Login(email, password);
      res.Send(LoginReply(Await(r)));
    }
  }

  /** Registering an email that is already stored answers 409 `USER_EXISTS`
      and leaves the table as it was. */
  lemma DuplicateRegistrationAnswers409(rows: seq<User>, c: Crypto, u: User, password: string, salt: string, uuid: string)
    requires u in rows
    ensures RegisterOutcome(rows, c, u.email, password, salt, uuid).rows == rows
    ensures RegisterReply(Await(RegisterOutcome(rows, c, u.email, password, salt, uuid).result))
         == ErrorReply(409, UserExists, "USER_EXISTS")
  {
  }
}
