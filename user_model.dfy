/** backend/models/User.js: the User document, its defaults, validators and pre-save hooks. */
module UserModel {
  import opened Ids
  import Email
  import Bcrypt

  const Roles: seq<string> := ["user", "admin"]
  const DefaultRole: string := "user"
  const DefaultNickname: string := "新用户"

  datatype User = User(
    username: string,
    password: string,
    nickname: string,
    avatar: string,
    qq: string,
    email: string,
    role: string,
    createdAt: nat,
    updatedAt: nat,
    products: seq<Id>)

  /** The validators `save` runs: `required` on username and password, the role `enum` and the
      e-mail `match`. Username uniqueness is an index, kept by the store. */
  predicate SchemaValid(u: User) {
    u.username != "" && u.password != "" && u.role in Roles && Email.SchemaValid(u.email)
  }

  /** `new User({ username, password, email })` at time `now`: every other field takes its
      default. */
  function New(username: string, password: string, email: string, now: nat): User {
    User(username, password, DefaultNickname, "", "", email, DefaultRole, now, now, [])
  }

  lemma NewDefaults(username: string, password: string, email: string, now: nat)
    ensures var u := New(username, password, email, now);
      && u.role == "user" && u.nickname == "新用户" && u.avatar == "" && u.qq == ""
      && u.products == [] && u.role in Roles
  {
  }

  /** Both pre-save hooks: `updatedAt` is stamped, and the password is replaced by its hash
      when it was modified since the document was loaded (always, for a new document). */
  function PreSave(u: User, passwordModified: bool, now: nat): (r: User)
    ensures r.password == (if passwordModified then Bcrypt.Hash(u.password) else u.password)
    ensures r.updatedAt == now
    ensures r.(password := u.password, updatedAt := u.updatedAt) == u
  {
    var stamped := u.(updatedAt := now);
    if passwordModified then stamped.(password := Bcrypt.Hash(stamped.password)) else stamped
  }

  /** Saving keeps a valid document valid. */
  lemma PreSaveKeepsValid(u: User, passwordModified: bool, now: nat)
    requires SchemaValid(u)
    ensures SchemaValid(PreSave(u, passwordModified, now))
  {
  }
}
