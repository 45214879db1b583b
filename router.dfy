/** frontend/src/router/index.js: the route table and the global `beforeEach` guard. */
module Router {
  import opened Wrappers
  import HttpClient
  import UserStore

  /** A route's `meta`; an unknown path has none of the flags. */
  datatype Meta = Meta(requiresAuth: bool, requiresAdmin: bool)

  /** The case-insensitive comparison of a JavaScript regular expression without the `u`
      flag folds only ASCII letters onto each other. */
  function Lower(c: char): char {
    if 'A' <= c <= 'Z' then (c as int + 32) as char else c
  }

  function LowerAll(s: string): (r: string)
    ensures |r| == |s|
  {
    seq(|s|, i requires 0 <= i < |s| => Lower(s[i]))
  }

  /** vue-router compiles a record's path, with the default `strict: false` and
      `sensitive: false`, to `^<path without a trailing slash>/?$` with the `i` flag: the
      visited path matches when it spells the record's path in any letter case, with or
      without one trailing slash (`/` itself compiles to `^/?$`). */
  predicate Matches(record: string, path: string) {
    var stem := if record == "/" then "" else record;
    LowerAll(path) == stem || LowerAll(path) == stem + "/"
  }

  /** A record path of lower-case letters and inner slashes matches exactly the paths of its
      length, or one longer ending in `/`, whose letters fold onto it place by place. */
  lemma MatchesIff(record: string, path: string)
    requires |record| > 1 && record[0] == '/' && record[|record| - 1] != '/'
    requires forall i :: 0 <= i < |record| ==> Lower(record[i]) == record[i]
    ensures Matches(record, path) <==>
      && (|path| == |record| || (|path| == |record| + 1 && path[|record|] == '/'))
      && forall i :: 0 <= i < |record| ==> Lower(path[i]) == record[i]
  {
    var l := LowerAll(path);
    if l == record + "/" {
      assert l[|record|] == Lower(path[|record|]) == '/';
      assert forall i :: 0 <= i < |record| ==> l[i] == record[i];
    }
    if |path| == |record| + 1 && path[|record|] == '/' && forall i :: 0 <= i < |record| ==> Lower(path[i]) == record[i] {
      assert l == record + "/";
    }
    if |path| == |record| && forall i :: 0 <= i < |record| ==> Lower(path[i]) == record[i] {
      assert l == record;
    }
  }

  /** The only redirect in the table: `/` goes to `/home`. */
  function Resolve(path: string): (r: string)
    ensures path == "/" ==> r == "/home"
    ensures path != "/" && path != "" ==> r == path
  {
    if path == "" || path == "/" then "/home" else path
  }

  /** The redirect record `/` matches the empty path and `/`, and nothing else. */
  lemma RootMatches(path: string)
    ensures Matches("/", path) <==> path == "" || path == "/"
  {
    if |path| == 1 {
      assert LowerAll(path)[0] == Lower(path[0]);
    }
  }

  /** The `meta` of the route a path matches; an unknown path has none of the flags. */
  function MetaOf(path: string): Meta {
    if Matches("/profile", path) then Meta(true, false)
    else if Matches("/admin", path) then Meta(true, true)
    else Meta(false, false)
  }

  /** Only the spellings of `/profile` and `/admin` need a token, and only those of `/admin` an
      admin. */
  lemma TableFlags(path: string)
    ensures MetaOf(path).requiresAuth <==> Matches("/profile", path) || Matches("/admin", path)
    ensures MetaOf(path).requiresAdmin <==> Matches("/admin", path)
    ensures MetaOf(path).requiresAdmin ==> MetaOf(path).requiresAuth
  {
  }

  /** The two exact paths are flagged; any case or a trailing slash is too, but a doubled
      slash is not. */
  lemma SpellingsShareMeta()
    ensures MetaOf("/admin") == MetaOf("/Admin") == MetaOf("/admin/") == Meta(true, true)
    ensures MetaOf("/profile") == MetaOf("/PROFILE/") == Meta(true, false)
    ensures MetaOf("/admin//") == Meta(false, false)
  {
    assert LowerAll("/admin//")[1] == 'a';
  }

  /** The argument of the single `next` call: none, or a redirect target. */
  datatype Next = Proceed | Redirect(path: string)

  /** The guard's cascade for the resolved target `to`, once the user info is in. The admin
      check comes first, then the token check, then the sign-in pages. */
  function Decide(to: string, hasToken: bool, isAdmin: bool): (n: Next)
    ensures n == Redirect("/home") <==> MetaOf(to).requiresAdmin && !isAdmin
    ensures n == Redirect("/login") <==>
      !(MetaOf(to).requiresAdmin && !isAdmin) && MetaOf(to).requiresAuth && !hasToken
    ensures n == Redirect("/profile") <==> (to == "/login" || to == "/register") && hasToken
    ensures n == Proceed <==>
      && !(MetaOf(to).requiresAdmin && !isAdmin)
      && !(MetaOf(to).requiresAuth && !hasToken)
      && !((to == "/login" || to == "/register") && hasToken)
  {
    assert "/home" != "/profile" by { assert |"/home"| != |"/profile"|; }
    assert MetaOf("/login") == MetaOf("/register") == Meta(false, false) by {
      assert LowerAll("/login")[1] == 'l' && LowerAll("/register")[1] == 'r';
    }
    if MetaOf(to).requiresAdmin && !isAdmin then Redirect("/home")
    else if MetaOf(to).requiresAuth && !hasToken then Redirect("/login")
    else if (to == "/login" || to == "/register") && hasToken then Redirect("/profile")
    else Proceed
  }

  /** Because the admin check runs first, a visitor without a token who is not an admin is
      sent to `/home`, not `/login`, when opening `/admin` in any spelling. */
  lemma TokenlessAdminVisitGoesHome()
    ensures Decide(Resolve("/admin"), false, false) == Redirect("/home")
    ensures Decide(Resolve("/Admin/"), false, false) == Redirect("/home")
    ensures Decide(Resolve("/Profile"), false, false) == Redirect("/login")
  {
  }

  /** With a token, the pages that only need one are open. */
  lemma TokenOpensProfile(isAdmin: bool)
    ensures Decide("/profile", true, isAdmin) == Proceed
    ensures Decide(Resolve("/"), true, isAdmin) == Proceed
  {
  }

  /** The sign-in check compares `to.path` exactly, so a holder of a token who opens `/Login`
      sees the sign-in page, while `/login` sends them to their profile. */
  lemma SignInCheckIsExact(isAdmin: bool)
    ensures Decide(Resolve("/login"), true, isAdmin) == Redirect("/profile")
    ensures Decide(Resolve("/Login"), true, isAdmin) == Proceed
  {
  }

  /** `router.beforeEach` for a navigation to `to`. The token is read once, before anything
      else; when it is set and the store is not signed in, `fetchUserInfo` runs first
      (answered by `reply`, and by `logoutReply` if it signs out). That call never throws, so
      the guard's own `catch` is never reached. The decision then uses the token read at the
      start and the admin flag after the fetch. */
  method BeforeEach(b: HttpClient.Browser, store: UserStore.UserStore, to: string,
                    reply: HttpClient.Reply, logoutReply: HttpClient.Reply) returns (n: Next)
    requires store.browser == b
    modifies store`userInfo, store`isAuthenticated, store`isLoading, b`token, b`location, b`pushed
    ensures n == Decide(Resolve(to), old(b.HasToken()), store.IsAdmin())
    ensures !(old(b.HasToken()) && !old(store.isAuthenticated)) ==>
      && store.userInfo == old(store.userInfo) && store.isAuthenticated == old(store.isAuthenticated)
      && store.isLoading == old(store.isLoading)
      && b.token == old(b.token) && b.location == old(b.location) && b.pushed == old(b.pushed)
    ensures old(b.HasToken()) && !old(store.isAuthenticated) ==>
      && !store.isLoading
      && b.token == HttpClient.TokenAfter(old(b.token), reply)
      && b.location == HttpClient.LocationAfter(old(b.location), reply)
    ensures old(b.HasToken()) && !old(store.isAuthenticated) && reply.Reply? && reply.status == 401 ==>
      && b.token == None && store.userInfo == UserStore.SignedOut && !store.isAuthenticated
      && b.pushed == old(b.pushed) + ["/login"]
    ensures (old(b.HasToken()) && !old(store.isAuthenticated) && reply.Reply?
      && HttpClient.Succeeds(reply.status) && UserStore.CodeIs200(reply.body) && reply.body.data.Record?) ==>
      store.userInfo == old(store.userInfo) + UserStore.Profile(reply.body.data.fields) && store.isAuthenticated
  {
    var token := b.HasToken();
    if token && !store.isAuthenticated {
      var _ := store.FetchUserInfo(reply, logoutReply);
    }
    n := Decide(Resolve(to), token, store.IsAdmin());
  }

  /** An expired token found on a visit to `/profile`: the fetch answers 401, which signs the
      store out and removes the token, yet the guard, holding the token it read first, lets
      the navigation through. */
  method ExpiredTokenOnProfile(b: HttpClient.Browser, store: UserStore.UserStore, logoutReply: HttpClient.Reply)
    returns (n: Next)
    requires store.browser == b && b.HasToken() && !store.isAuthenticated
    modifies store`userInfo, store`isAuthenticated, store`isLoading, b`token, b`location, b`pushed
    ensures n == Proceed
    ensures b.token == None && !store.isAuthenticated && b.location == "/login"
    ensures b.pushed == old(b.pushed) + ["/login"]
  {
    n := BeforeEach(b, store, "/profile", HttpClient.Reply(401, HttpClient.Body(None, HttpClient.Missing)), logoutReply);
  }
}
