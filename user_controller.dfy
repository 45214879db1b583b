/** backend/controllers/user.js: profile validation and update, avatar upload, password change. */
module UserController {
  import opened Wrappers
  import opened Ids
  import opened Text
  import opened UserModel
  import Email
  import Bcrypt
  import Store

  const MsgNickname: string := "昵称长度应在2-12个字符之间"
  const MsgEmail: string := "请输入有效的邮箱地址"
  const MsgQq: string := "QQ号应为5-12位数字"

  /** `data.k` is truthy: present and not the empty string. */
  predicate Given(data: map<string, string>, k: string) {
    k in data && data[k] != ""
  }

  /** `/^\d{5,12}$/`: five to twelve ASCII digits and nothing else. */
  predicate QqPattern(s: string) {
    5 <= |s| <= 12 && AllDigits(s)
  }

  predicate NicknameBad(data: map<string, string>) {
    Given(data, "nickname") && (|data["nickname"]| < 2 || |data["nickname"]| > 12)
  }

  predicate EmailBad(data: map<string, string>) {
    Given(data, "email") && !Email.Matches(data["email"])
  }

  predicate QqBad(data: map<string, string>) {
    Given(data, "qq") && !QqPattern(data["qq"])
  }

  /** `validateUpdateFields`: fills an error map field by field and answers `null` when it stayed
      empty. A field that is absent or empty is never reported. */
  method ValidateUpdateFields(data: map<string, string>) returns (errors: Option<map<string, string>>)
    ensures errors.None? <==> !NicknameBad(data) && !EmailBad(data) && !QqBad(data)
    ensures errors.Some? ==> errors.value != map[]
    ensures errors.Some? ==>
      && ("nickname" in errors.value <==> NicknameBad(data))
      && ("email" in errors.value <==> EmailBad(data))
      && ("qq" in errors.value <==> QqBad(data))
      && errors.value.Keys <= {"nickname", "email", "qq"}
  {
    var e: map<string, string> := map[];
    if Given(data, "nickname") && (|data["nickname"]| < 2 || |data["nickname"]| > 12) {
      e := e["nickname" := MsgNickname];
    }
    if Given(data, "email") && !Email.Matches(data["email"]) {
      e := e["email" := MsgEmail];
    }
    if Given(data, "qq") && !QqPattern(data["qq"]) {
      e := e["qq" := MsgQq];
    }
    errors := if |e| == 0 then None else Some(e);
  }

  /** The update `findByIdAndUpdate` applies: the given profile fields (Mongoose drops the
      undefined ones) and the timestamp. */
  function ProfileUpdate(u: User, data: map<string, string>, nowMs: nat): User {
    u.(nickname := if "nickname" in data then data["nickname"] else u.nickname,
       qq := if "qq" in data then data["qq"] else u.qq,
       email := if "email" in data then data["email"] else u.email,
       updatedAt := nowMs)
  }

  /** A profile update keeps the credentials, the role and the e-mail's schema validity. */
  lemma ProfileUpdateKeepsAccount(u: User, data: map<string, string>, nowMs: nat)
    requires UserModel.SchemaValid(u) && !EmailBad(data)
    ensures var v := ProfileUpdate(u, data, nowMs);
      && v.username == u.username && v.password == u.password && v.role == u.role
      && v.avatar == u.avatar && v.products == u.products
      && UserModel.SchemaValid(v)
  {
    if Given(data, "email") {
      Email.MatchesImpliesSchemaValid(data["email"]);
    }
  }

  /** `PUT /api/user/profile` for the requester `me`: 400 with the error map and nothing
      changed, or 200 with only `me`'s record updated (200 with no data if `me` is gone). */
  method UpdateProfile(db: Store.Db, me: Id, data: map<string, string>, nowMs: nat)
    returns (status: int, errors: Option<map<string, string>>)
    requires db.Valid()
    modifies db`users
    ensures db.Valid()
    ensures (NicknameBad(data) || EmailBad(data) || QqBad(data)) ==>
      status == 400 && errors.Some? && db.users == old(db.users)
    ensures !(NicknameBad(data) || EmailBad(data) || QqBad(data)) ==>
      && status == 200 && errors.None?
      && db.users == (if me in old(db.users) then old(db.users)[me := ProfileUpdate(old(db.users)[me], data, nowMs)]
                      else old(db.users))
  {
    errors := ValidateUpdateFields(data);
    if errors.Some? {
      return 400, errors;
    }
    if me in db.users {
      ProfileUpdateKeepsAccount(db.users[me], data, nowMs);
      db.users := db.users[me := ProfileUpdate(db.users[me], data, nowMs)];
    }
    status := 200;
  }

  /** `POST /api/user/avatar` for `me` with the stored upload named `filename`: 400 without a
      file, 404 for a missing user, otherwise the avatar becomes `/avatars/<filename>` and the
      answer carries `FILE_BASE_URL` followed by that path. */
  method UploadAvatar(db: Store.Db, me: Id, filename: Option<string>, fileBaseUrl: string, nowMs: nat)
    returns (status: int, avatarUrl: Option<string>)
    requires db.Valid()
    modifies db`users
    ensures db.Valid()
    ensures filename.None? ==> status == 400 && avatarUrl.None? && db.users == old(db.users)
    ensures filename.Some? && me !in old(db.users) ==> status == 404 && avatarUrl.None? && db.users == old(db.users)
    ensures filename.Some? && me in old(db.users) ==>
      && status == 200
      && avatarUrl == Some(fileBaseUrl + "/avatars/" + filename.value)
      && db.users == old(db.users)[me := PreSave(old(db.users)[me].(avatar := "/avatars/" + filename.value), false, nowMs)]
  {
    if filename.None? {
      return 400, None;
    }
    if me !in db.users {
      return 404, None;
    }
    var path := "/avatars/" + filename.value;
    var user := db.users[me].(avatar := path);
    PreSaveKeepsValid(user, false, nowMs);
    db.users := db.users[me := PreSave(user, false, nowMs)];
    assert fileBaseUrl + path == fileBaseUrl + "/avatars/" + filename.value;
    status, avatarUrl := 200, Some(fileBaseUrl + path);
  }

  /** `PATCH /api/user/password` for `me`, as written: the handler assigns
      `bcrypt.hash(newPassword)` and the pre-save hook hashes that again. 500 where the handler
      throws (no such user, or a password field missing so that bcrypt rejects `undefined`),
      400 for a wrong current password; only a success changes the store. */
  method ChangePassword(db: Store.Db, me: Id, body: map<string, string>, nowMs: nat) returns (status: int)
    requires db.Valid()
    modifies db`users
    ensures db.Valid()
    ensures status == 200 || status == 400 || status == 500
    ensures status != 200 ==> db.users == old(db.users)
    ensures me !in old(db.users) || "currentPassword" !in body ==> status == 500
    ensures (me in old(db.users) && "currentPassword" in body
      && !Bcrypt.Compare(body["currentPassword"], old(db.users)[me].password)) ==> status == 400
    ensures (me in old(db.users) && "currentPassword" in body
      && Bcrypt.Compare(body["currentPassword"], old(db.users)[me].password)
      && "newPassword" !in body) ==> status == 500
    ensures status == 200 <==>
      me in old(db.users) && "currentPassword" in body && "newPassword" in body
      && Bcrypt.Compare(body["currentPassword"], old(db.users)[me].password)
    ensures status == 200 ==>
      && db.users == old(db.users)[me := PreSave(old(db.users)[me].(password := Bcrypt.Hash(body["newPassword"])), true, nowMs)]
      && db.users[me].password == Bcrypt.Hash(Bcrypt.Hash(body["newPassword"]))
  {
    if me !in db.users || "currentPassword" !in body {
      return 500;
    }
    var user := db.users[me];
    if !Bcrypt.Compare(body["currentPassword"], user.password) {
      return 400;
    }
    if "newPassword" !in body {
      return 500;
    }
    user := user.(password := Bcrypt.Hash(body["newPassword"]));
    PreSaveKeepsValid(user, true, nowMs);
    db.users := db.users[me := PreSave(user, true, nowMs)];
    status := 200;
  }

  /** After a successful change as written, the new password no longer opens the account:
      login compares it with a hash of its hash. */
  lemma ChangedPasswordRejected(u: User, newPassword: string, nowMs: nat)
    ensures !Bcrypt.Compare(newPassword, PreSave(u.(password := Bcrypt.Hash(newPassword)), true, nowMs).password)
  {
    Bcrypt.CompareRejectsRehash(newPassword);
  }

  /** The change as intended: the plaintext is assigned and the pre-save hook hashes it once. */
  method ChangePasswordHashedOnce(db: Store.Db, me: Id, body: map<string, string>, nowMs: nat) returns (status: int)
    requires db.Valid()
    modifies db`users
    ensures db.Valid()
    ensures status == 200 || status == 400 || status == 500
    ensures status != 200 ==> db.users == old(db.users)
    ensures status == 400 <==>
      me in old(db.users) && "currentPassword" in body
      && !Bcrypt.Compare(body["currentPassword"], old(db.users)[me].password)
    ensures status == 200 <==>
      me in old(db.users) && "currentPassword" in body && "newPassword" in body && body["newPassword"] != ""
      && Bcrypt.Compare(body["currentPassword"], old(db.users)[me].password)
    ensures status == 200 ==>
      && db.users == old(db.users)[me := PreSave(old(db.users)[me].(password := body["newPassword"]), true, nowMs)]
      && Bcrypt.Compare(body["newPassword"], db.users[me].password)
  {
    if me !in db.users || "currentPassword" !in body {
      return 500;
    }
    var user := db.users[me];
    if !Bcrypt.Compare(body["currentPassword"], user.password) {
      return 400;
    }
    if "newPassword" !in body || body["newPassword"] == "" {
      return 500;
    }
    user := user.(password := body["newPassword"]);
    PreSaveKeepsValid(user, true, nowMs);
    db.users := db.users[me := PreSave(user, true, nowMs)];
    status := 200;
  }

  /** After the intended change the new password is accepted. */
  lemma ChangedOncePasswordAccepted(u: User, newPassword: string, nowMs: nat)
    ensures Bcrypt.Compare(newPassword, PreSave(u.(password := newPassword), true, nowMs).password)
  {
  }
}
