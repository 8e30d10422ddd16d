/** Registration and login over the user table. Password hashing, password
    verification and token signing are supplied as functions. */
module AuthSvc {
  import opened Outcomes
  import opened UserRepo

  /** The cryptographic collaborators: `hash(password, salt)` (the salt stands
      for the hasher's randomness), `verify(password, hash)`, and
      `sign(uuid, email)` producing the token. */
  datatype Crypto = Crypto(
    hash: (string, string) -> string,
    verify: (string, string) -> bool,
    sign: (string, string) -> string)

  /** The user as returned to callers: uuid and email, never the hash. */
  datatype PublicUser = PublicUser(uuid: string, userEmail: string)

  /** `{ user: { uuid, user_email }, token }` */
  datatype AuthResult = AuthResult(user: PublicUser, token: string)

  const UserExists := "User with this email already exists"
  const InvalidCredentials := "Invalid credentials"

  /** A hasher whose hashes verify against the password they were made from. */
  ghost predicate HashVerifies(c: Crypto)
  {
    forall p, salt :: c.verify(p, c.hash(p, salt))
  }

  /** The result handed back for a stored user: its public fields and a token
      signed for its uuid and email. */
  function Issue(c: Crypto, u: User): (r: AuthResult)
    ensures r.user.uuid == u.uuid && r.user.userEmail == u.email
    ensures r.token == c.sign(u.uuid, u.email)
  {
    AuthResult(PublicUser(u.uuid, u.email), c.sign(u.uuid, u.email))
  }

  /** What `login` answers against a user table: success exactly when the email
      is stored and the password verifies against its hash; one error otherwise. */
  function LoginOutcome(rows: seq<User>, c: Crypto, email: string, password: string): (r: Result<AuthResult>)
    ensures r.Ok? <==> FindByEmail(rows, email).Some? && c.verify(password, FindByEmail(rows, email).value.passwordHash)
    ensures r.Err? ==> r == Err(InvalidCredentials)
    ensures r.Ok? ==>
      r.value.user.userEmail == email
      && (exists u :: u in rows && u.email == email && u.uuid == r.value.user.uuid && c.verify(password, u.passwordHash))
      && r.value.token == c.sign(r.value.user.uuid, email)
  {
    match FindByEmail(rows, email)
    case None => Err(InvalidCredentials)
    case Some(u) => if c.verify(password, u.passwordHash) then Ok(Issue(c, u)) else Err(InvalidCredentials)
  }

  /** The result of a registration and the table it leaves behind. */
  datatype Registration = Registration(result: Result<AuthResult>, rows: seq<User>)

  /** What `register` does to a user table: refuse a stored email, otherwise
      store the new user with the hashed password (the store itself refusing a
      repeated uuid). */
  function RegisterOutcome(rows: seq<User>, c: Crypto, email: string, password: string, salt: string, uuid: string)
    : (g: Registration)
    ensures FindByEmail(rows, email).Some? ==> g == Registration(Err(UserExists), rows)
    ensures FindByEmail(rows, email).None? && FindByUuid(rows, uuid).Some? ==>
      g == Registration(Err(UniqueConstraintFailed), rows)
    ensures g.result.Ok? ==>
      g.rows == rows + [User(uuid, email, c.hash(password, salt))]
      && g.result.value.user == PublicUser(uuid, email)
      && g.result.value.token == c.sign(uuid, email)
    ensures g.result.Ok? <==> FindByEmail(rows, email).None? && FindByUuid(rows, uuid).None?
  {
    if FindByEmail(rows, email).Some? then Registration(Err(UserExists), rows)
    else if FindByUuid(rows, uuid).Some? then Registration(Err(UniqueConstraintFailed), rows)
    else
      var u := User(uuid, email, c.hash(password, salt));
      Registration(Ok(Issue(c, u)), rows + [u])
  }

  /** The identity service over one user table. `hashed` records the passwords
      handed to the hasher, so that the order of the steps can be stated. */
  class AuthService {
    const users: UserRepository
    const crypto: Crypto
    ghost var hashed: seq<string>

    ghost predicate Valid()
      reads this, users
    {
      users.Valid()
    }

    constructor(crypto: Crypto)
      ensures Valid() && fresh(users) && users.rows == [] && this.crypto == crypto && hashed == []
    {
      users := new UserRepository();
      this.crypto := crypto;
      hashed := [];
    }

    /** `register`: checks the email first, and only then hashes, stores and
        signs. `salt` and `uuid` stand for the hasher's and the store's
        randomness. */
    method Register(email: string, password: string, salt: string, uuid: string) returns (r: Result<AuthResult>)
      requires Valid()
      modifies this, users
      ensures Valid()
      ensures Registration(r, users.rows) == RegisterOutcome(old(users.rows), crypto, email, password, salt, uuid)
      ensures FindByEmail(old(users.rows), email).Some? ==> hashed == old(hashed)
      ensures FindByEmail(old(users.rows), email).None? ==> hashed == old(hashed) + [password]
    {
      var existing := FindByEmail(users.rows, email);
      if existing.Some? {
        return Err(UserExists);
      }
      var passwordHash := crypto.hash(password, salt);
      hashed := hashed + [password];
      var created := users.Create(email, passwordHash, uuid);
      if created.Err? {
        return Err(created.message);
      }
      var user := created.value;
      var token := crypto.sign(user.uuid, user.email);
      r := Ok(AuthResult(PublicUser(user.uuid, user.email), token));
    }

    /** `login`: reads the table only. */
    method Login(email: string, password: string) returns (r: Result<AuthResult>)
      ensures r == LoginOutcome(users.rows, crypto, email, password)
    {
      var user := FindByEmail(users.rows, email);
      if user.None? {
        return Err(InvalidCredentials);
      }
      var isValidPassword := crypto.verify(password, user.value.passwordHash);
      if !isValidPassword {
        return Err(InvalidCredentials);
      }
      var token := crypto.sign(user.value.uuid, user.value.email);
      r := Ok(AuthResult(PublicUser(user.value.uuid, user.value.email), token));
    }
  }

  /** A user who has just registered can log in with the same password and
      gets back the same identity and the same token. */
  lemma RegisterThenLogin(rows: seq<User>, c: Crypto, email: string, password: string, salt: string, uuid: string)
    requires HashVerifies(c)
    requires RegisterOutcome(rows, c, email, password, salt, uuid).result.Ok?
    ensures LoginOutcome(RegisterOutcome(rows, c, email, password, salt, uuid).rows, c, email, password)
         == RegisterOutcome(rows, c, email, password, salt, uuid).result
  {
    var u := User(uuid, email, c.hash(password, salt));
    FindByEmailAfterInsert(rows, u, email);
  }

  /** A registration, successful or not, never changes who can log in with
      another email, nor the answer they get. */
  lemma RegisterKeepsOtherLogins(rows: seq<User>, c: Crypto, email: string, password: string, salt: string, uuid: string,
                                 other: string, otherPassword: string)
    requires other != email
    ensures LoginOutcome(RegisterOutcome(rows, c, email, password, salt, uuid).rows, c, other, otherPassword)
         == LoginOutcome(rows, c, other, otherPassword)
  {
    if RegisterOutcome(rows, c, email, password, salt, uuid).result.Ok? {
      FindByEmailAfterInsert(rows, User(uuid, email, c.hash(password, salt)), other);
    }
  }

  /** No account enumeration: an unknown email and a wrong password for a
      stored email give the very same answer. */
  lemma LoginErrorsIndistinguishable(rows: seq<User>, c: Crypto, unknown: string, known: User, p1: string, p2: string)
    requires FindByEmail(rows, unknown).None?
    requires UniqueKeys(rows) && known in rows && !c.verify(p2, known.passwordHash)
    ensures LoginOutcome(rows, c, unknown, p1) == LoginOutcome(rows, c, known.email, p2) == Err(InvalidCredentials)
  {
    EmailIsKey(rows, known);
  }
}
