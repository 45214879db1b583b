/** frontend/src/utils/axios.js: the shared axios instance, its request interceptor that sends
    the stored token and its response interceptor that unwraps bodies and handles 401. */
module HttpClient {
  import opened Wrappers
  import opened Text
  import opened Json
  import AuthGate
  import Jwt

  /** The browser state the frontend touches. */
  class Browser {
    /** `localStorage.getItem('token')`. */
    var token: Option<string>
    /** `window.location.href`. */
    var location: string
    /** The paths passed to `router.push`, oldest first. */
    var pushed: seq<string>

    constructor (token: Option<string>, location: string)
      ensures this.token == token && this.location == location && pushed == []
    {
      this.token, this.location, pushed := token, location, [];
    }

    /** `if (token)`: a stored, non-empty token. */
    predicate HasToken()
      reads this
    {
      token.Some? && token.value != ""
    }
  }

  /** The request config the interceptor receives. */
  class Config {
    var headers: map<string, string>

    constructor (headers: map<string, string>)
      ensures this.headers == headers
    {
      this.headers := headers;
    }
  }

  /** The request interceptor: `Authorization: Bearer <token>` when a token is stored, the config
      untouched otherwise. */
  method OnRequest(b: Browser, c: Config)
    modifies c
    ensures b.HasToken() ==> c.headers == old(c.headers)["Authorization" := "Bearer " + b.token.value]
    ensures !b.HasToken() ==> c.headers == old(c.headers)
  {
    if b.token.Some? && b.token.value != "" {
      c.headers := c.headers["Authorization" := "Bearer " + b.token.value];
    }
  }

  /** What travels back: the server's status and JSON body, the `data` part of it as the stores
      read it, or no response at all (network failure, timeout). */
  datatype Data = Missing | Record(fields: Object) | Records(items: seq<Object>)
  datatype Body = Body(code: Option<Value>, data: Data)
  datatype Reply = NoResponse | Reply(status: int, body: Body)

  /** axios resolves a 2xx reply and rejects every other. */
  predicate Succeeds(status: int) { 200 <= status < 300 }

  /** What the caller's `await` gets: the body, an axios error carrying the reply's status, or
      the `TypeError` the rejection handler itself throws when there is no `error.response`. */
  datatype Outcome = Resolved(body: Body) | Failed(status: int) | TypeError

  /** `err.message` of a rejection, as the stores record it. */
  function Message(o: Outcome): string
    requires !o.Resolved?
  {
    match o
    case Failed(s) => "Request failed with status code " + (if s >= 0 then Digits(s) else "-" + Digits(-s))
    case TypeError => "Cannot read properties of undefined (reading 'status')"
  }

  /** The stored token once a reply has passed the response interceptor: only a 401 clears it. */
  function TokenAfter(token: Option<string>, reply: Reply): Option<string> {
    if reply.Reply? && reply.status == 401 then None else token
  }

  /** The page once a reply has passed the response interceptor: only a 401 leaves for `/login`. */
  function LocationAfter(location: string, reply: Reply): string {
    if reply.Reply? && reply.status == 401 then "/login" else location
  }

  /** One request through both interceptors. A resolved reply gives its body; a 401 removes the
      stored token and sends the page to `/login`, and is still rejected; any other failure
      leaves the browser alone. */
  method Call(b: Browser, reply: Reply) returns (o: Outcome)
    modifies b`token, b`location
    ensures reply.NoResponse? ==> o == TypeError && b.token == old(b.token) && b.location == old(b.location)
    ensures reply.Reply? && Succeeds(reply.status) ==>
      o == Resolved(reply.body) && b.token == old(b.token) && b.location == old(b.location)
    ensures reply.Reply? && !Succeeds(reply.status) ==> o == Failed(reply.status)
    ensures reply.Reply? && !Succeeds(reply.status) && reply.status == 401 ==>
      b.token == None && b.location == "/login"
    ensures reply.Reply? && !Succeeds(reply.status) && reply.status != 401 ==>
      b.token == old(b.token) && b.location == old(b.location)
    ensures b.token == TokenAfter(old(b.token), reply) && b.location == LocationAfter(old(b.location), reply)
  {
    match reply
    case NoResponse =>
      o := TypeError;
    case Reply(status, body) =>
      if Succeeds(status) {
        o := Resolved(body);
      } else {
        if status == 401 {
          b.token := None;
          b.location := "/login";
        }
        o := Failed(status);
      }
  }

  /** The header the client builds is the one the backend's gate takes apart: the gate verifies
      exactly the stored token. */
  lemma GateSeesStoredToken(t: string, nowMs: nat)
    requires t != ""
    ensures AuthGate.Check(Some("Bearer " + t), nowMs).Admit? <==> Jwt.Verify(t, nowMs).Some?
    ensures AuthGate.Check(Some("Bearer " + t), nowMs).Admit? ==>
      Some(AuthGate.Check(Some("Bearer " + t), nowMs).claims) == Jwt.Verify(t, nowMs)
  {
    AuthGate.BearerTokenOfHeader(t);
  }
}
