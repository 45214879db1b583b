/** What the handlers ask of MongoDB's `find(filter).sort({ createdAt: -1 })`: every matching
    document once, newest first. The loop below is a stand-in for the database's own scan. */
module Query {
  import opened Ids

  predicate Distinct(ids: seq<Id>) {
    forall i, j :: 0 <= i < j < |ids| ==> ids[i] != ids[j]
  }

  /** The documents named by `ids` are in non-increasing order of `at`. */
  predicate NewestFirst<T>(m: map<Id, T>, ids: seq<Id>, at: T -> int)
    requires forall i :: 0 <= i < |ids| ==> ids[i] in m
  {
    forall i, j :: 0 <= i < j < |ids| ==> at(m[ids[i]]) >= at(m[ids[j]])
  }

  lemma {:induction false} NewestExists<T>(m: map<Id, T>, rest: set<Id>, at: T -> int)
    requires rest != {} && rest <= m.Keys
    ensures exists k :: k in rest && forall r :: r in rest ==> at(m[r]) <= at(m[k])
  {
    var x :| x in rest;
    if rest != {x} {
      NewestExists(m, rest - {x}, at);
      var y :| y in rest - {x} && forall r :: r in rest - {x} ==> at(m[r]) <= at(m[y]);
      if at(m[x]) > at(m[y]) {
        assert forall r :: r in rest ==> at(m[r]) <= at(m[x]);
      } else {
        assert forall r :: r in rest ==> at(m[r]) <= at(m[y]);
      }
    }
  }

  /** Every document already listed is at least as new as every one still to list. */
  predicate NewerThanRest<T>(m: map<Id, T>, ids: seq<Id>, rest: set<Id>, at: T -> int)
    requires forall i :: 0 <= i < |ids| ==> ids[i] in m
    requires rest <= m.Keys
  {
    forall i, r :: 0 <= i < |ids| && r in rest ==> at(m[ids[i]]) >= at(m[r])
  }

  /** Listing a newest remaining document next keeps the list distinct and in order. */
  lemma AppendNewest<T>(m: map<Id, T>, ids: seq<Id>, rest: set<Id>, k: Id, at: T -> int)
    requires forall i :: 0 <= i < |ids| ==> ids[i] in m && ids[i] !in rest
    requires k in rest && rest <= m.Keys
    requires Distinct(ids) && NewestFirst(m, ids, at) && NewerThanRest(m, ids, rest, at)
    requires forall r :: r in rest ==> at(m[r]) <= at(m[k])
    ensures Distinct(ids + [k]) && NewestFirst(m, ids + [k], at)
    ensures NewerThanRest(m, ids + [k], rest - {k}, at)
  {
    var ids' := ids + [k];
    assert forall i :: 0 <= i < |ids| ==> ids'[i] == ids[i];
  }

  /** The ids of the documents of `m` that `keep` selects, each once, newest first. */
  method FindSorted<T>(m: map<Id, T>, keep: T -> bool, at: T -> int) returns (ids: seq<Id>)
    ensures forall k :: k in ids <==> k in m && keep(m[k])
    ensures Distinct(ids)
    ensures NewestFirst(m, ids, at)
  {
    ids := [];
    var rest := set k | k in m && keep(m[k]);
    while rest != {}
      invariant forall k :: k in rest ==> k in m && keep(m[k])
      invariant forall k :: k in ids ==> k in m && keep(m[k]) && k !in rest
      invariant forall k :: k in m && keep(m[k]) ==> k in ids || k in rest
      invariant Distinct(ids)
      invariant NewestFirst(m, ids, at)
      invariant NewerThanRest(m, ids, rest, at)
      decreases rest
    {
      NewestExists(m, rest, at);
      var k :| k in rest && forall r :: r in rest ==> at(m[r]) <= at(m[k]);
      AppendNewest(m, ids, rest, k, at);
      ids := ids + [k];
      rest := rest - {k};
    }
  }
}
