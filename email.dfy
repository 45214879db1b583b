/** The two e-mail patterns of the backend: the anchored one the auth and user controllers test,
    `^[^\s@]+@[^\s@]+\.[^\s@]+$`, and the User schema's unanchored `match`, `.+@.+\..+`. */
module Email {
  import opened Text

  /** `[^\s@]`. */
  predicate Plain(c: char) {
    !IsSpace(c) && c != '@'
  }

  /** `[^\s@]+`. */
  predicate PlainRun(s: string) {
    s != [] && forall i :: 0 <= i < |s| ==> Plain(s[i])
  }

  /** `^[^\s@]+@[^\s@]+\.[^\s@]+$`, read off the pattern: three runs split by an `@` at `i`
      and a `.` at `j`. */
  predicate Matches(s: string) {
    exists i, j :: (0 < i < j < |s| && s[i] == '@' && s[j] == '.'
      && PlainRun(s[..i]) && PlainRun(s[i + 1..j]) && PlainRun(s[j + 1..]))
  }

  /** The same language described without the pattern: no white space, exactly one `@`, with
      text before it, and a `.` in the domain with text on both sides. */
  predicate WellFormed(s: string) {
    NoSpace(s) && Count('@', s) == 1
    && exists k, d :: (0 < k && k + 1 < d < |s| - 1 && s[k] == '@' && s[d] == '.')
  }

  /** The number of `@`s, counted over the five pieces that split `s` at `i` and `j`. */
  lemma {:induction false} CountSplit(s: string, i: nat, j: nat)
    requires i < j < |s|
    ensures Count('@', s) == Count('@', s[..i]) + Count('@', [s[i]]) + Count('@', s[i + 1..j])
      + Count('@', [s[j]]) + Count('@', s[j + 1..])
  {
    var a, b, c := s[..i], s[i + 1..j], s[j + 1..];
    assert s == a + [s[i]] + b + [s[j]] + c;
    CountAppend('@', a + [s[i]] + b + [s[j]], c);
    CountAppend('@', a + [s[i]] + b, [s[j]]);
    CountAppend('@', a + [s[i]], b);
    CountAppend('@', a, [s[i]]);
  }

  /** The characters of a run `s[lo..hi]` read in `s` itself. */
  lemma RunChars(s: string, lo: nat, hi: nat)
    requires lo <= hi <= |s| && PlainRun(s[lo..hi])
    ensures forall t :: lo <= t < hi ==> Plain(s[t])
  {
    forall t | lo <= t < hi ensures Plain(s[t]) {
      assert s[t] == s[lo..hi][t - lo];
    }
  }

  /** The three runs of a match, as facts about `s`. */
  lemma MatchChars(s: string, i: nat, j: nat)
    requires 0 < i < j < |s| && s[i] == '@' && s[j] == '.'
    requires PlainRun(s[..i]) && PlainRun(s[i + 1..j]) && PlainRun(s[j + 1..])
    ensures i + 1 < j < |s| - 1
    ensures forall t :: 0 <= t < |s| && t != i && t != j ==> Plain(s[t])
  {
    assert s[..i] == s[0..i];
    assert s[j + 1..] == s[j + 1..|s|];
    RunChars(s, 0, i);
    RunChars(s, i + 1, j);
    RunChars(s, j + 1, |s|);
  }

  lemma {:induction false} MatchesImpliesWellFormed(s: string)
    requires Matches(s)
    ensures WellFormed(s)
  {
    var i, j :| 0 < i < j < |s| && s[i] == '@' && s[j] == '.'
      && PlainRun(s[..i]) && PlainRun(s[i + 1..j]) && PlainRun(s[j + 1..]);
    MatchChars(s, i, j);
    assert NoSpace(s) by {
      forall t | 0 <= t < |s| ensures !IsSpace(s[t]) {
        if t != i && t != j { assert Plain(s[t]); }
      }
    }
    CountAbsent('@', s[..i]);
    CountAbsent('@', s[i + 1..j]);
    CountAbsent('@', s[j + 1..]);
    CountSplit(s, i, j);
    assert Count('@', [s[i]]) == 1 && Count('@', [s[j]]) == 0;
  }

  lemma {:induction false} WellFormedImpliesMatches(s: string)
    requires WellFormed(s)
    ensures Matches(s)
  {
    var k, d :| 0 < k && k + 1 < d < |s| - 1 && s[k] == '@' && s[d] == '.';
    var a, b, c := s[..k], s[k + 1..d], s[d + 1..];
    CountSplit(s, k, d);
    assert Count('@', [s[k]]) == 1;
    CountAbsent('@', a);
    CountAbsent('@', b);
    CountAbsent('@', c);
    forall t | 0 <= t < |a| ensures Plain(a[t]) { assert a[t] == s[t]; }
    forall t | 0 <= t < |b| ensures Plain(b[t]) { assert b[t] == s[k + 1 + t]; }
    forall t | 0 <= t < |c| ensures Plain(c[t]) { assert c[t] == s[d + 1 + t]; }
    assert PlainRun(a) && PlainRun(b) && PlainRun(c);
  }

  /** The pattern accepts exactly the well-formed addresses. */
  lemma MatchesIffWellFormed(s: string)
    ensures Matches(s) <==> WellFormed(s)
  {
    if Matches(s) { MatchesImpliesWellFormed(s); }
    if WellFormed(s) { WellFormedImpliesMatches(s); }
  }

  /** A character `.` matches in a JavaScript pattern: anything but a line terminator. */
  predicate LineChar(c: char) {
    c != '\n' && c != '\r' && c != '\U{2028}' && c != '\U{2029}'
  }

  /** `/.+\@.+\..+/.test(s)`: somewhere in `s`, an `@` at `i` and a later `.` at `j` with at
      least one character before, between and after, none of them a line terminator. */
  predicate MatchesLoose(s: string) {
    exists i, j :: (0 < i && i + 1 < j && j + 1 < |s| && s[i] == '@' && s[j] == '.'
      && forall t :: i - 1 <= t <= j + 1 ==> LineChar(s[t]))
  }

  /** Mongoose's `match` validator: an empty string passes, anything else must match. */
  predicate SchemaValid(s: string) {
    s == "" || MatchesLoose(s)
  }

  /** Every address the controllers accept also passes the schema, so saving it never fails. */
  lemma {:induction false} MatchesImpliesSchemaValid(s: string)
    requires Matches(s)
    ensures SchemaValid(s)
  {
    var i, j :| 0 < i < j < |s| && s[i] == '@' && s[j] == '.'
      && PlainRun(s[..i]) && PlainRun(s[i + 1..j]) && PlainRun(s[j + 1..]);
    MatchChars(s, i, j);
    forall t | i - 1 <= t <= j + 1 ensures LineChar(s[t]) {
      if t != i && t != j { assert Plain(s[t]); }
    }
  }

  /** The schema's pattern is weaker: it accepts white space and several `@`s. */
  lemma LooseAcceptsWhatStrictRejects()
    ensures MatchesLoose("a b@c@d.e") && !Matches("a b@c@d.e")
  {
    var s := "a b@c@d.e";
    assert s[3] == '@' && s[7] == '.';
    assert forall t :: 2 <= t <= 8 ==> LineChar(s[t]);
    assert IsSpace(s[1]);
    assert !NoSpace(s);
    MatchesIffWellFormed(s);
  }
}
