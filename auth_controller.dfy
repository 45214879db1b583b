/** backend/controllers/auth.js: `register` and `login`. */
module AuthController {
  import opened Wrappers
  import opened Ids
  import opened UserModel
  import Email
  import Bcrypt
  import Jwt
  import Validation
  import Store

  const MsgMissing: string := "请填写所有必填字段"
  const MsgUsernameLength: string := "用户名长度应在3-16个字符之间"
  const MsgPasswordLength: string := "密码长度不能少于6位"
  const MsgEmail: string := "请输入有效的邮箱地址"
  const MsgUsernameTaken: string := "用户名已存在"
  const MsgEmailTaken: string := "邮箱已被注册"

  /** `body.k` is truthy: present and not the empty string. */
  predicate Given(body: map<string, string>, k: string) {
    k in body && body[k] != ""
  }

  predicate UsernameTaken(users: map<Id, User>, name: string) {
    exists id :: id in users && users[id].username == name
  }

  predicate EmailTaken(users: map<Id, User>, email: string) {
    exists id :: id in users && users[id].email == email
  }

  /** Register's checks in the order the handler runs them; the first failure is the message of
      the 400 answer, `None` means the user is created. */
  function RegisterRejection(users: map<Id, User>, body: map<string, string>): Option<string> {
    if !Given(body, "username") || !Given(body, "password") || !Given(body, "email") then Some(MsgMissing)
    else if |body["username"]| < 3 || |body["username"]| > 16 then Some(MsgUsernameLength)
    else if |body["password"]| < 6 then Some(MsgPasswordLength)
    else if !Email.Matches(body["email"]) then Some(MsgEmail)
    else if UsernameTaken(users, body["username"]) then Some(MsgUsernameTaken)
    else if EmailTaken(users, body["email"]) then Some(MsgEmailTaken)
    else None
  }

  /** A registration goes through exactly when all six checks pass. */
  lemma AcceptedIff(users: map<Id, User>, body: map<string, string>)
    ensures RegisterRejection(users, body).None? <==>
      && Given(body, "username") && Given(body, "password") && Given(body, "email")
      && 3 <= |body["username"]| <= 16 && |body["password"]| >= 6
      && Email.Matches(body["email"])
      && !UsernameTaken(users, body["username"]) && !EmailTaken(users, body["email"])
  {
  }

  /** The store is consulted last: an ill-formed body is rejected for its form whatever the
      store holds, and a clash is reported only for a well-formed body. */
  lemma FormChecksPrecedeStoreChecks(users: map<Id, User>, others: map<Id, User>, body: map<string, string>)
    ensures RegisterRejection(users, body) in {Some(MsgMissing), Some(MsgUsernameLength), Some(MsgPasswordLength), Some(MsgEmail)}
      ==> RegisterRejection(others, body) == RegisterRejection(users, body)
    ensures RegisterRejection(users, body) in {Some(MsgUsernameTaken), Some(MsgEmailTaken)}
      ==> RegisterRejection(map[], body).None?
  {
  }

  /** With the validation middleware in front, the handler's missing-field and password checks
      never fire; its username-length check fires only for a name holding a presentation
      selector, which the validator does not count but `.length` does. */
  lemma ValidatedBodyPassesFormChecks(users: map<Id, User>, body: map<string, string>, isEmail: string -> bool)
    requires Validation.RegisterErrors(body, isEmail) == []
    ensures RegisterRejection(users, body) !in {Some(MsgMissing), Some(MsgPasswordLength)}
    ensures RegisterRejection(users, body) == Some(MsgUsernameLength) ==>
      exists i :: 0 <= i < |body["username"]| && Validation.Selector(body["username"][i])
  {
    assert Validation.Decide(Validation.RegisterErrors(body, isEmail)).Next?;
    Validation.RegisterPassesIff(body, isEmail);
  }

  /** The document `register` saves: defaults from the schema, the password hashed by the
      pre-save hook. */
  function Registered(body: map<string, string>, nowMs: nat): User
    requires Given(body, "username") && Given(body, "password") && Given(body, "email")
  {
    PreSave(New(body["username"], body["password"], body["email"], nowMs), true, nowMs)
  }

  /** The stored user has the given username and e-mail, the default role and profile, and a
      password that is the hash of the given one and never the plaintext. */
  lemma RegisteredProperties(body: map<string, string>, nowMs: nat)
    requires RegisterRejection(map[], body).None?
    ensures var u := Registered(body, nowMs);
      && u.username == body["username"] && u.email == body["email"]
      && u.role == "user" && u.nickname == "新用户" && u.avatar == "" && u.qq == ""
      && Bcrypt.Compare(body["password"], u.password) && u.password != body["password"]
      && UserModel.SchemaValid(u)
  {
    Email.MatchesImpliesSchemaValid(body["email"]);
    Bcrypt.HashIsNotPlaintext(body["password"]);
  }

  /** `POST /api/auth/register` at time `nowMs`: 400 with the first failed check and nothing
      stored, or 201 with exactly one new user and a one-hour token for its id. */
  method Register(db: Store.Db, body: map<string, string>, nowMs: nat)
    returns (status: int, message: string, token: Option<string>, id: Option<Id>)
    requires db.Valid()
    modifies db
    ensures db.Valid()
    ensures RegisterRejection(old(db.users), body).Some? ==>
      && status == 400 && message == RegisterRejection(old(db.users), body).value
      && token.None? && id.None?
      && db.users == old(db.users) && db.products == old(db.products) && db.posts == old(db.posts)
    ensures RegisterRejection(old(db.users), body).None? ==>
      && status == 201 && id.Some? && id.value !in old(db.users)
      && db.users == old(db.users)[id.value := Registered(body, nowMs)]
      && token == Some(Jwt.Sign(id.value, nowMs))
      && db.products == old(db.products) && db.posts == old(db.posts)
  {
    var rejection := RegisterRejection(db.users, body);
    if rejection.Some? {
      return 400, rejection.value, None, None;
    }
    AcceptedIff(db.users, body);
    RegisteredProperties(body, nowMs);
    var user := Registered(body, nowMs);
    var newId := db.NewId();
    db.users := db.users[newId := user];
    status, message, token, id := 201, "注册成功", Some(Jwt.Sign(newId, nowMs)), Some(newId);
  }

  /** `POST /api/auth/login` at time `nowMs`. It only reads the store. */
  method Login(db: Store.Db, body: map<string, string>, nowMs: nat) returns (status: int, token: Option<string>)
    requires db.Valid()
    ensures status == 200 || status == 400 || status == 404
    ensures !Given(body, "username") || !Given(body, "password") ==> status == 400
    ensures status == 404 <==>
      Given(body, "username") && Given(body, "password") && !UsernameTaken(db.users, body["username"])
    ensures Given(body, "username") && Given(body, "password") && UsernameTaken(db.users, body["username"]) ==>
      status == 200 || status == 400
    ensures status == 200 <==>
      && Given(body, "username") && Given(body, "password")
      && exists id :: id in db.users && db.users[id].username == body["username"]
                   && Bcrypt.Compare(body["password"], db.users[id].password)
    ensures status == 200 ==> exists id :: id in db.users && db.users[id].username == body["username"]
                                        && token == Some(Jwt.Sign(id, nowMs))
    ensures status != 200 ==> token.None?
  {
    if !Given(body, "username") || !Given(body, "password") {
      return 400, None;
    }
    var name := body["username"];
    if !(exists id | id in db.users :: db.users[id].username == name) {
      return 404, None;
    }
    var id :| id in db.users && db.users[id].username == name;
    if !Bcrypt.Compare(body["password"], db.users[id].password) {
      return 400, None;
    }
    return 200, Some(Jwt.Sign(id, nowMs));
  }
}
