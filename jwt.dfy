/** A stand-in for jsonwebtoken: a token carries the user id and the expiry (in seconds) in
    decimal, `sign` issues it with `expiresIn: '1h'` and `verify` accepts a token that decodes
    and has not expired. The signature and the process's secret key are not modelled. */
module Jwt {
  import opened Wrappers
  import opened Ids
  import opened Text

  /** `expiresIn: '1h'`, in seconds. */
  const Lifetime: nat := 3600

  /** The decoded payload `{ id, exp }` that the gates attach as `req.user`. */
  datatype Claims = Claims(id: Id, exp: nat)

  function Encode(c: Claims): string {
    Digits(c.exp) + "." + Digits(c.id)
  }

  function Decode(t: string): Option<Claims> {
    match IndexOf(t, ".")
    case None => None
    case Some(i) =>
      var e, d := t[..i], t[i + 1..];
      if e != [] && d != [] && AllDigits(e) && AllDigits(d)
      then Some(Claims(ParseDigits(d), ParseDigits(e)))
      else None
  }

  lemma DecodeEncode(c: Claims)
    ensures Decode(Encode(c)) == Some(c)
  {
    var e, d := Digits(c.exp), Digits(c.id);
    var t := Encode(c);
    assert OccursAt(t, ".", |e|);
    forall k: nat | k < |e| ensures !OccursAt(t, ".", k) {
      assert t[k] == e[k];
    }
    assert IndexOf(t, ".") == Some(|e|);
    assert t[..|e|] == e && t[|e| + 1..] == d;
    ParseDigitsOfDigits(c.exp);
    ParseDigitsOfDigits(c.id);
  }

  /** The clock jsonwebtoken compares against: whole seconds of `Date.now()`. */
  function Seconds(nowMs: nat): nat {
    nowMs / 1000
  }

  /** `jwt.sign({ id }, secret, { expiresIn: '1h' })` at time `nowMs`. */
  function Sign(id: Id, nowMs: nat): (t: string)
    ensures Decode(t) == Some(Claims(id, Seconds(nowMs) + Lifetime))
  {
    DecodeEncode(Claims(id, Seconds(nowMs) + Lifetime));
    Encode(Claims(id, Seconds(nowMs) + Lifetime))
  }

  /** `jwt.verify(t, secret)` at time `nowMs`: the payload, or `None` where it throws
      (malformed or expired; jsonwebtoken treats `now >= exp` as expired). */
  function Verify(t: string, nowMs: nat): (r: Option<Claims>)
    ensures r.Some? <==> Decode(t).Some? && Seconds(nowMs) < Decode(t).value.exp
    ensures r.Some? ==> r == Decode(t)
  {
    match Decode(t)
    case None => None
    case Some(c) => if Seconds(nowMs) < c.exp then Some(c) else None
  }

  /** A token issued at `issued` is accepted, with the issuer's id, until the hour is up. */
  lemma VerifySigned(id: Id, issued: nat, nowMs: nat)
    requires Seconds(nowMs) < Seconds(issued) + Lifetime
    ensures Verify(Sign(id, issued), nowMs) == Some(Claims(id, Seconds(issued) + Lifetime))
  {
  }

  /** ... and rejected from then on. */
  lemma VerifyExpired(id: Id, issued: nat, nowMs: nat)
    requires Seconds(nowMs) >= Seconds(issued) + Lifetime
    ensures Verify(Sign(id, issued), nowMs) == None
  {
  }

  /** A token is accepted one minute after it was issued and rejected one second after expiry. */
  lemma {:induction false} AcceptedThenExpired(id: Id, issued: nat)
    ensures Verify(Sign(id, issued), issued + 60_000).Some?
    ensures Verify(Sign(id, issued), issued + (Lifetime + 1) * 1000) == None
  {
    assert Seconds(issued + 60_000) == Seconds(issued) + 60;
    assert Seconds(issued + (Lifetime + 1) * 1000) == Seconds(issued) + Lifetime + 1;
    VerifySigned(id, issued, issued + 60_000);
    VerifyExpired(id, issued, issued + (Lifetime + 1) * 1000);
  }
}
