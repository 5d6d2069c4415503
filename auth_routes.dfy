/** The auth router: `/register` and `/login` over the user collection,
    keyed by email. bcrypt and jsonwebtoken are foreign libraries and stay
    uninterpreted: each is a function given to the table when it is built,
    whose `None` result stands for the library call throwing. `storeFails`
    says that the collection's calls throw. */
module AuthRoutes {
  import opened Js
  import opened Models

  datatype Body = Msg(msg: string) | TokenBody(token: string)

  /** A JSON reply; a token is sent with status 200. */
  datatype Reply = Reply(code: int, body: Body)

  const UserExists := Reply(400, Msg("User already exists"))
  const InvalidCredentials := Reply(400, Msg("Invalid email or password"))
  const RegisterFailed := Reply(500, Msg("Error creating user"))
  const LoginFailed := Reply(500, Msg("Error logging in"))

  /** The user collection. */
  class UserTable {
    /** `bcrypt.hash(password, 10)` with the salt it draws. */
    const hash: (string, string) -> Option<string>
    /** `bcrypt.compare(password, storedHash)`. */
    const compare: (string, string) -> Option<bool>
    /** `jwt.sign({ user }, JWT_SECRET)` at a given time (the token carries
        its issue time). */
    const sign: (User, int) -> Option<string>

    var users: map<string, User>
    /** The identifier the collection gives the next user it stores. */
    var nextId: UserId

    ghost predicate Valid()
      reads this
    {
      forall email :: email in users ==> users[email].email == email && users[email].id < nextId
    }

    constructor (hash: (string, string) -> Option<string>, compare: (string, string) -> Option<bool>,
                 sign: (User, int) -> Option<string>)
      ensures Valid() && users == map[] && nextId == 0
      ensures this.hash == hash && this.compare == compare && this.sign == sign
    {
      this.hash := hash;
      this.compare := compare;
      this.sign := sign;
      users := map[];
      nextId := 0;
    }

    /** POST `/register`: refuses a known email; otherwise stores the user
        with the hash of the password and answers with a token signed for
        the stored user. The user is stored before signing, so a signing
        failure answers 500 with the user already stored. */
    method Register(name: string, email: string, password: string, salt: string, now: int,
                    storeFails: bool)
      returns (reply: Reply)
      requires Valid()
      modifies this`users, this`nextId
      ensures Valid()
      ensures storeFails ==> reply == RegisterFailed && users == old(users) && nextId == old(nextId)
      ensures !storeFails && email in old(users) ==>
                reply == UserExists && users == old(users) && nextId == old(nextId)
      ensures !storeFails && email !in old(users) && hash(password, salt).None? ==>
                reply == RegisterFailed && users == old(users) && nextId == old(nextId)
      ensures !storeFails && email !in old(users) && hash(password, salt).Some? ==>
                var user := User(old(nextId), name, email, hash(password, salt).value);
                (forall e :: e in old(users) ==> old(users)[e].id < user.id) &&
                users == old(users)[email := user] && nextId == old(nextId) + 1 &&
                reply == match sign(user, now)
                         case Some(token) => Reply(200, TokenBody(token))
                         case None => RegisterFailed
    {
      if storeFails {
        return RegisterFailed;
      }
      if email in users {
        return UserExists;
      }
      var hashed := hash(password, salt);
      if hashed.None? {
        return RegisterFailed;
      }
      var user := User(nextId, name, email, hashed.value);
      users := users[email := user];
      nextId := nextId + 1;
      var token := sign(user, now);
      if token.None? {
        return RegisterFailed;
      }
      reply := Reply(200, TokenBody(token.value));
    }

    /** POST `/login`: reads the collection and changes nothing. An unknown
        email and a wrong password get the same reply; a token is issued
        exactly when the password matches the stored hash. */
    function Login(email: string, password: string, now: int, storeFails: bool): (r: Reply)
      reads this
      ensures r == InvalidCredentials <==>
                !storeFails && (email !in users || compare(password, users[email].password) == Some(false))
      ensures r.code == 200 <==>
                !storeFails && email in users && compare(password, users[email].password) == Some(true) &&
                sign(users[email], now).Some?
      ensures r.code == 200 ==> r.body == TokenBody(sign(users[email], now).value)
      ensures r.code != 200 && r != InvalidCredentials ==> r == LoginFailed
    {
      if storeFails then LoginFailed
      else if email !in users then InvalidCredentials
      else
        var user := users[email];
        match compare(password, user.password)
        case None => LoginFailed
        case Some(false) => InvalidCredentials
        case Some(true) =>
          match sign(user, now)
          case None => LoginFailed
          case Some(token) => Reply(200, TokenBody(token))
    }
  }

  /** Once an email is stored, registering it again is refused: the second
      call answers 'User already exists' and the table holds one user for
      the email, the first one stored. */
  method RegisterTwice(table: UserTable, name: string, email: string, password: string, salt: string, now: int)
    returns (first: Reply, second: Reply)
    requires table.Valid()
    requires email in table.users || table.hash(password, salt).Some?
    modifies table
    ensures second == UserExists
    ensures email in table.users
    ensures email in old(table.users) ==> table.users == old(table.users)
    ensures email !in old(table.users) ==>
              table.users == old(table.users)[email := User(old(table.nextId), name, email,
                                                            table.hash(password, salt).value)]
  {
    first := table.Register(name, email, password, salt, now, false);
    second := table.Register(name, email, password, salt, now, false);
  }

  /** After a successful registration, logging in with the same password is
      accepted whenever bcrypt confirms the password against its own hash,
      and the token is signed for the stored user. */
  method RegisterThenLogin(table: UserTable, name: string, email: string, password: string, salt: string,
                           now: int, later: int)
    returns (registered: Reply, login: Reply)
    requires table.Valid() && email !in table.users
    requires table.hash(password, salt).Some?
    requires table.compare(password, table.hash(password, salt).value) == Some(true)
    modifies table
    ensures email in table.users && table.users[email].password == table.hash(password, salt).value
    ensures login == match table.sign(table.users[email], later)
                     case Some(token) => Reply(200, TokenBody(token))
                     case None => LoginFailed
  {
    registered := table.Register(name, email, password, salt, now, false);
    login := table.Login(email, password, later, false);
  }
}
