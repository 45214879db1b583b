/** frontend/src/stores/user.js: the Pinia store holding the signed-in user's profile. */
module UserStore {
  import opened Wrappers
  import opened Json
  import opened HttpClient

  /** The profile keys `setUserInfo` writes, with their defaults. */
  const Defaults: Object := map[
    "id" := Text(""), "avatar" := Text(""), "username" := Text("用户名"),
    "nickname" := Text("新用户"), "qq" := Text(""), "email" := Text(""),
    "role" := Text("user"), "createdAt" := Null]

  /** The profile the store starts with. */
  const Initial: Object := map[
    "id" := Text(""), "avatar" := Text(""), "username" := Text("用户名"),
    "nickname" := Text("昵称"), "qq" := Text(""), "email" := Text(""),
    "role" := Text("user"), "createdAt" := Null]

  /** The profile `logout` resets to: the initial one without `role`. */
  const SignedOut: Object := map[
    "id" := Text(""), "avatar" := Text(""), "username" := Text("用户名"),
    "nickname" := Text("昵称"), "qq" := Text(""), "email" := Text(""),
    "createdAt" := Null]

  /** The key of `info` each profile key is read from: `id` comes from `_id`. */
  function Source(k: string): string {
    if k == "id" then "_id" else k
  }

  /** `{ id: info._id || '', avatar: info.avatar || '', … }`: each profile key from `info`
      when truthy there, else its default. */
  function Profile(info: Object): (r: Object)
    ensures r.Keys == Defaults.Keys
    ensures forall k :: k in r && Present(info, Source(k)) ==> r[k] == info[Source(k)]
    ensures forall k :: k in r && !Present(info, Source(k)) ==> r[k] == Defaults[k]
  {
    map k | k in Defaults :: Or(info, Source(k), Defaults[k])
  }

  /** `userInfo.role === 'admin'`. */
  predicate AdminProfile(u: Object) {
    KeyEquals(u, "role", Text("admin"))
  }

  /** After `setUserInfo(info)` the user is an admin exactly when `info.role` is `admin`. */
  lemma AdminAfterSetIff(u: Object, info: Object)
    ensures AdminProfile(Spread(u, Profile(info))) <==> KeyEquals(info, "role", Text("admin"))
  {
    assert "role" in Defaults;
  }

  /** Neither the initial nor the signed-out profile is an admin's. */
  lemma NoAdminByDefault()
    ensures !AdminProfile(Initial) && !AdminProfile(SignedOut)
    ensures "role" !in SignedOut
  {
  }

  class UserStore {
    const browser: Browser
    var userInfo: Object
    var isAuthenticated: bool
    var isLoading: bool

    constructor (browser: Browser)
      ensures this.browser == browser
      ensures userInfo == Initial && !isAuthenticated && !isLoading
    {
      this.browser := browser;
      userInfo, isAuthenticated, isLoading := Initial, false, false;
    }

    /** The computed `isAdmin`. */
    predicate IsAdmin()
      reads this
    {
      AdminProfile(userInfo)
    }

    /** `setUserInfo(info)`: the profile keys are overwritten from `info` or their defaults,
        any other key already held is kept, and the store counts as signed in. */
    method SetUserInfo(info: Object)
      modifies this`userInfo, this`isAuthenticated
      ensures userInfo == Spread(old(userInfo), Profile(info))
      ensures isAuthenticated
      ensures IsAdmin() <==> KeyEquals(info, "role", Text("admin"))
    {
      AdminAfterSetIff(userInfo, info);
      userInfo := Spread(userInfo, Profile(info));
      isAuthenticated := true;
    }

    /** `logout()`: whatever `POST /auth/logout` answers, the token is removed, the profile is
        reset (without a role), the store is signed out and, when asked, the router goes to
        `/login`; a 401 answer has already sent the page to `/login` through the interceptor. */
    method Logout(reply: Reply, redirectToLogin: bool)
      modifies this`userInfo, this`isAuthenticated, browser`token, browser`location, browser`pushed
      ensures browser.token == None
      ensures browser.location == (if reply.Reply? && reply.status == 401 then "/login" else old(browser.location))
      ensures userInfo == SignedOut && !isAuthenticated && !IsAdmin()
      ensures browser.pushed == old(browser.pushed) + (if redirectToLogin then ["/login"] else [])
      ensures isLoading == old(isLoading)
    {
      var _ := Call(browser, reply);
      browser.token := None;
      userInfo := SignedOut;
      isAuthenticated := false;
      if redirectToLogin {
        browser.pushed := browser.pushed + ["/login"];
      }
    }

    /** `updateUserInfo(newInfo)`: after `PUT /user/profile` answers with code 200 the profile
        is merged with `newInfo` and the answer is `true`; another resolved answer gives `false`
        and a failed request is rethrown, both with the profile unchanged. */
    method UpdateUserInfo(newInfo: Object, reply: Reply) returns (ok: bool, thrown: bool)
      modifies this`userInfo, this`isLoading, browser`token, browser`location
      ensures !isLoading
      ensures browser.token == TokenAfter(old(browser.token), reply)
      ensures browser.location == LocationAfter(old(browser.location), reply)
      ensures ok ==> !thrown
      ensures thrown <==> !(reply.Reply? && Succeeds(reply.status))
      ensures ok <==> reply.Reply? && Succeeds(reply.status) && CodeIs200(reply.body)
      ensures ok ==> userInfo == Spread(old(userInfo), newInfo)
      ensures !ok ==> userInfo == old(userInfo)
    {
      isLoading := true;
      var o := Call(browser, reply);
      ok, thrown := false, false;
      match o {
        case Resolved(body) =>
          if CodeIs200(body) {
            userInfo := Spread(userInfo, newInfo);
            ok := true;
          }
        case _ =>
          thrown := true;
      }
      isLoading := false;
    }

    /** `fetchUserInfo()`: a resolved `GET /user/profile` with code 200 sets the profile from
        `data` and answers `true` (an array counts as an object without profile keys, a missing
        `data` makes `setUserInfo` throw, which is caught); a 401 signs out through `logout`
        (answered by `logoutReply`). Every other case answers `false` and nothing escapes. */
    method FetchUserInfo(reply: Reply, logoutReply: Reply) returns (ok: bool)
      modifies this`userInfo, this`isAuthenticated, this`isLoading, browser`token, browser`location, browser`pushed
      ensures !isLoading
      ensures browser.token == TokenAfter(old(browser.token), reply)
      ensures browser.location == LocationAfter(old(browser.location), reply)
      ensures browser.pushed == old(browser.pushed) + (if reply.Reply? && reply.status == 401 then ["/login"] else [])
      ensures ok <==> reply.Reply? && Succeeds(reply.status) && CodeIs200(reply.body)
                      && !reply.body.data.Missing?
      ensures ok && reply.body.data.Record? ==>
        userInfo == Spread(old(userInfo), Profile(reply.body.data.fields)) && isAuthenticated
      ensures ok && reply.body.data.Records? ==>
        userInfo == Spread(old(userInfo), Profile(map[])) && isAuthenticated
      ensures reply.Reply? && reply.status == 401 ==>
        && browser.token == None && userInfo == SignedOut && !isAuthenticated
        && browser.pushed == old(browser.pushed) + ["/login"]
      ensures !ok && !(reply.Reply? && reply.status == 401) ==>
        userInfo == old(userInfo) && isAuthenticated == old(isAuthenticated)
        && browser.pushed == old(browser.pushed)
    {
      isLoading := true;
      var o := Call(browser, reply);
      ok := false;
      match o {
        case Resolved(body) =>
          if CodeIs200(body) {
            match body.data {
              case Record(fields) =>
                SetUserInfo(fields);
                ok := true;
              case Records(_) =>
                SetUserInfo(map[]);
                ok := true;
              case Missing =>
            }
          }
        case Failed(status) =>
          if status == 401 {
            Logout(logoutReply, true);
          }
        case TypeError =>
      }
      isLoading := false;
    }
  }

  /** `response.code === 200`. */
  predicate CodeIs200(body: Body) {
    body.code.Some? && StrictEquals(body.code.value, Number(200.0))
  }
}
