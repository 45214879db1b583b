/** backend/middleware/validation.js: the express-validator chains in front of register and login.
    Every validator of a chain runs (there is no `bail()`), so one field can report twice. */
module Validation {
  import opened Text

  /** One entry of `errors.array()`: the field and the message. */
  datatype FieldError = FieldError(path: string, msg: string)

  /** The outcome of the final middleware: call `next()`, or answer 400 with the errors. */
  datatype Decision = Next | Respond(status: int, errors: seq<FieldError>)

  /** express-validator reads a missing field as the empty string. */
  function Field(body: map<string, string>, k: string): string {
    if k in body then body[k] else ""
  }

  /** The presentation selectors U+FE0E and U+FE0F, which validator.js does not count. */
  predicate Selector(c: char) {
    c == '\U{FE0E}' || c == '\U{FE0F}'
  }

  /** The length validator.js's `isLength` measures: code points, less the presentation
      selectors among them. */
  function ValidatorLength(s: string): (n: nat)
    ensures n <= |s|
    ensures n == |s| <==> forall i :: 0 <= i < |s| ==> !Selector(s[i])
  {
    if s == [] then 0
    else
      var rest := ValidatorLength(s[1..]);
      assert forall i :: 1 <= i < |s| ==> s[1..][i - 1] == s[i];
      (if Selector(s[0]) then 0 else 1) + rest
  }

  /** The measured length is the code-point length less the two selectors' counts. */
  lemma {:induction false} ValidatorLengthCounts(s: string)
    ensures ValidatorLength(s) == |s| - Count('\U{FE0E}', s) - Count('\U{FE0F}', s)
  {
    if s != [] {
      ValidatorLengthCounts(s[1..]);
    }
  }

  /** A three-character username ending in a selector measures 2 and is refused. */
  lemma SelectorMakesUsernameShort()
    ensures |"ab\U{FE0F}"| == 3 && ValidatorLength("ab\U{FE0F}") == 2
  {
    var s := "ab\U{FE0F}";
    assert s[1..] == "b\U{FE0F}" && s[1..][1..] == "\U{FE0F}";
  }

  /** `validateRegister`'s three chains; `isEmail` is validator.js's e-mail check. */
  function RegisterErrors(body: map<string, string>, isEmail: string -> bool): seq<FieldError> {
    var u, p, e := Field(body, "username"), Field(body, "password"), Field(body, "email");
    (if u == "" then [FieldError("username", "用户名不能为空")] else [])
    + (if !(3 <= ValidatorLength(u) <= 16) then [FieldError("username", "用户名长度必须在3-16个字符之间")] else [])
    + (if p == "" then [FieldError("password", "密码不能为空")] else [])
    + (if ValidatorLength(p) < 6 then [FieldError("password", "密码长度不能少于6位")] else [])
    + (if e == "" then [FieldError("email", "邮箱不能为空")] else [])
    + (if !isEmail(e) then [FieldError("email", "请输入有效的邮箱地址")] else [])
  }

  /** `validateLogin`'s two chains. */
  function LoginErrors(body: map<string, string>): seq<FieldError> {
    (if Field(body, "username") == "" then [FieldError("username", "用户名不能为空")] else [])
    + (if Field(body, "password") == "" then [FieldError("password", "密码不能为空")] else [])
  }

  /** The last middleware of each chain: `validationResult` empty means `next()`. */
  function Decide(errors: seq<FieldError>): (d: Decision)
    ensures d.Next? <==> errors == []
    ensures d.Respond? ==> d.status == 400 && d.errors == errors && d.errors != []
  {
    if errors != [] then Respond(400, errors) else Next
  }

  /** Register passes exactly when the username measures 3 to 16, the password at least 6, and
      the e-mail is present and accepted by `isEmail`. */
  lemma RegisterPassesIff(body: map<string, string>, isEmail: string -> bool)
    ensures Decide(RegisterErrors(body, isEmail)).Next? <==>
      && 3 <= ValidatorLength(Field(body, "username")) <= 16
      && ValidatorLength(Field(body, "password")) >= 6
      && Field(body, "email") != "" && isEmail(Field(body, "email"))
  {
  }

  /** A missing username is reported twice: empty, and too short. */
  lemma MissingUsernameReportedTwice(body: map<string, string>, isEmail: string -> bool)
    requires "username" !in body
    ensures |RegisterErrors(body, isEmail)| >= 2
    ensures RegisterErrors(body, isEmail)[0].path == "username" && RegisterErrors(body, isEmail)[1].path == "username"
  {
  }

  /** Login passes exactly when both fields are non-empty. */
  lemma LoginPassesIff(body: map<string, string>)
    ensures Decide(LoginErrors(body)).Next? <==> Field(body, "username") != "" && Field(body, "password") != ""
  {
  }
}
