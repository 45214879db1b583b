/** backend/middleware/auth.js: the plain JWT gate in front of every protected route. */
module AuthGate {
  import opened Wrappers
  import opened Text
  import opened Jwt

  /** The parts of an Express request and response that the gates read and write. */
  class Request {
    /** `req.header('Authorization')`. */
    const authorization: Option<string>
    /** `req.user`, set by a gate that admits the request. */
    var user: Option<Claims>
    /** How often `next()` has been called. */
    var nextCalls: nat
    /** The status of the response sent, if one was. */
    var status: Option<int>

    constructor (authorization: Option<string>)
      ensures this.authorization == authorization
      ensures user == None && nextCalls == 0 && status == None
    {
      this.authorization := authorization;
      user, nextCalls, status := None, 0, None;
    }
  }

  /** `authHeader.replace('Bearer ', '')`: the first occurrence is removed, wherever it is. */
  function BearerToken(header: string): string {
    ReplaceFirst(header, "Bearer ", "")
  }

  /** The client's header `Bearer <t>` gives back exactly `t`. */
  lemma BearerTokenOfHeader(t: string)
    ensures BearerToken("Bearer " + t) == t
  {
    PrefixRemovedByReplaceFirst("Bearer ", t);
  }

  /** What a gate does with a request: call `next()` with these claims, or answer `status`. */
  datatype Verdict = Admit(claims: Claims) | Reject(status: int)

  /** A header the gates accept as present: `if (!authHeader)` rejects `undefined` and `""`. */
  predicate HasHeader(header: Option<string>) {
    header.Some? && header.value != ""
  }

  /** The decision of auth.js at time `nowMs`. */
  function Check(header: Option<string>, nowMs: nat): (v: Verdict)
    ensures v.Reject? ==> v.status == 401
    ensures v.Admit? <==> HasHeader(header) && Verify(BearerToken(header.value), nowMs).Some?
    ensures v.Admit? ==> Verify(BearerToken(header.value), nowMs) == Some(v.claims)
  {
    if !HasHeader(header) then Reject(401)
    else match Verify(BearerToken(header.value), nowMs)
      case None => Reject(401)
      case Some(c) => Admit(c)
  }

  /** Runs the middleware on `req`: on admission `req.user` is the decoded payload and `next()`
      is called once with no response; otherwise a 401 is sent and `next()` is not called. */
  method Authenticate(req: Request, nowMs: nat)
    modifies req
    ensures Check(req.authorization, nowMs).Admit? ==>
      && req.user == Some(Check(req.authorization, nowMs).claims)
      && req.nextCalls == old(req.nextCalls) + 1
      && req.status == old(req.status)
    ensures Check(req.authorization, nowMs).Reject? ==>
      && req.status == Some(401)
      && req.nextCalls == old(req.nextCalls)
      && req.user == old(req.user)
  {
    if req.authorization.None? || req.authorization.value == "" {
      req.status := Some(401);
      return;
    }
    var token := BearerToken(req.authorization.value);
    var decoded := Verify(token, nowMs);
    if decoded.None? {
      req.status := Some(401);
      return;
    }
    req.user := decoded;
    req.nextCalls := req.nextCalls + 1;
  }

  /** A token issued by `jwt.sign` and sent as `Bearer <token>` is admitted during its hour
      with the issuer's id, and rejected with 401 afterwards. */
  lemma {:induction false} SignedHeaderAdmitted(id: Ids.Id, issued: nat, nowMs: nat)
    ensures Seconds(nowMs) < Seconds(issued) + Lifetime ==>
      Check(Some("Bearer " + Sign(id, issued)), nowMs) == Admit(Claims(id, Seconds(issued) + Lifetime))
    ensures Seconds(nowMs) >= Seconds(issued) + Lifetime ==>
      Check(Some("Bearer " + Sign(id, issued)), nowMs) == Reject(401)
  {
    BearerTokenOfHeader(Sign(id, issued));
  }

  /** Because only the first `Bearer ` is removed, a header with a different scheme in front
      (`Token Bearer 5`, say) keeps that scheme in the token it verifies. */
  lemma OtherSchemeKept(scheme: string, t: string)
    requires 'B' !in scheme
    ensures BearerToken(scheme + "Bearer " + t) == scheme + t
  {
    var pat := "Bearer ";
    var h, i := scheme + pat + t, |scheme|;
    assert h[i..i + |pat|] == pat;
    forall k: nat | k < i ensures !OccursAt(h, pat, k) {
      assert h[k] == scheme[k] != pat[0];
    }
    ReplaceFirstAt(h, pat, "", i);
    assert h[..i] == scheme && h[i + |pat|..] == t;
  }
}

/** backend/middleware/admin.js: the JWT gate plus a look-up of the user's role. */
module AdminGate {
  import opened Wrappers
  import opened Jwt
  import opened UserModel
  import opened Ids
  import AuthGate
  import Store

  predicate IsAdmin(users: map<Id, User>, id: Id) {
    id in users && users[id].role == "admin"
  }

  /** The decision of admin.js at time `nowMs`: 401 without a header or a valid token, 403 when
      the token's user is missing or not an admin. */
  function Check(header: Option<string>, nowMs: nat, users: map<Id, User>): (v: AuthGate.Verdict)
    ensures v.Reject? ==> v.status == 401 || v.status == 403
    ensures v.Admit? <==> AuthGate.Check(header, nowMs).Admit? && IsAdmin(users, AuthGate.Check(header, nowMs).claims.id)
    ensures v.Reject? && v.status == 403 <==>
      AuthGate.Check(header, nowMs).Admit? && !IsAdmin(users, AuthGate.Check(header, nowMs).claims.id)
  {
    match AuthGate.Check(header, nowMs)
    case Reject(s) => AuthGate.Reject(s)
    case Admit(c) => if IsAdmin(users, c.id) then AuthGate.Admit(c) else AuthGate.Reject(403)
  }

  /** Everything the admin gate lets through, the plain gate lets through with the same claims. */
  lemma AdminAdmitsOnlyAuthenticated(header: Option<string>, nowMs: nat, users: map<Id, User>)
    ensures Check(header, nowMs, users).Admit? ==> AuthGate.Check(header, nowMs) == Check(header, nowMs, users)
  {
  }

  /** Runs the middleware on `req` against the users of `db`. */
  method Authorize(req: AuthGate.Request, nowMs: nat, db: Store.Db)
    modifies req
    ensures Check(req.authorization, nowMs, db.users).Admit? ==>
      && req.user == Some(Check(req.authorization, nowMs, db.users).claims)
      && req.nextCalls == old(req.nextCalls) + 1
      && req.status == old(req.status)
    ensures Check(req.authorization, nowMs, db.users).Reject? ==>
      && req.status == Some(Check(req.authorization, nowMs, db.users).status)
      && req.nextCalls == old(req.nextCalls)
      && req.user == old(req.user)
  {
    if req.authorization.None? || req.authorization.value == "" {
      req.status := Some(401);
      return;
    }
    var token := AuthGate.BearerToken(req.authorization.value);
    var decoded := Verify(token, nowMs);
    if decoded.None? {
      req.status := Some(401);
      return;
    }
    var id := decoded.value.id;
    if id !in db.users || db.users[id].role != "admin" {
      req.status := Some(403);
      return;
    }
    req.user := decoded;
    req.nextCalls := req.nextCalls + 1;
  }
}
