/** A symbolic stand-in for bcryptjs: `hash` tags its input and `compare` recomputes the tag.
    What the model relies on is that `compare(p, hash(p))` holds, that `hash` is injective and
    that a hash never equals what was hashed. bcryptjs itself reads only the first 72 bytes of a
    password, so it is not injective. */
module Bcrypt {

  const Tag: string := "$2a$10$"

  /** `bcrypt.hash(p, 10)`. */
  function Hash(p: string): (h: string)
    ensures |h| == |Tag| + |p|
  {
    Tag + p
  }

  /** `bcrypt.compare(p, h)`. */
  predicate Compare(p: string, h: string) {
    h == Hash(p)
  }

  lemma CompareAcceptsHash(p: string)
    ensures Compare(p, Hash(p))
  {
  }

  lemma {:induction false} HashInjective(p: string, q: string)
    ensures Hash(p) == Hash(q) ==> p == q
  {
    if Hash(p) == Hash(q) {
      assert p == Hash(p)[|Tag|..];
      assert q == Hash(q)[|Tag|..];
    }
  }

  /** A stored hash is never the plaintext it was made from. */
  lemma HashIsNotPlaintext(p: string)
    ensures Hash(p) != p
  {
  }

  /** A plaintext compared against a hash of its hash is rejected. */
  lemma CompareRejectsRehash(p: string)
    ensures !Compare(p, Hash(Hash(p)))
  {
  }
}
