/** backend/controllers/post.js: the requester's posts, listed by page, created, updated and
    deleted. */
module PostController {
  import opened Wrappers
  import opened Ids
  import opened Json
  import opened PostModel
  import Query
  import Store

  const DefaultPage: int := 1
  const DefaultLimit: int := 10

  /** `{ creator: me }`, plus `status` when the query gives a truthy one. */
  predicate Matches(p: Post, me: Id, status: Option<string>) {
    p.creator == me
    && (status.Some? && status.value != "" ==> KeyEquals(p.fields, "status", Text(status.value)))
  }

  /** MongoDB's `limit(n)`: `0` means no limit, a negative `n` returns at most `-n` documents. */
  function Cap(limit: int): Option<nat> {
    if limit == 0 then None else if limit < 0 then Some(-limit) else Some(limit)
  }

  /** `skip(skip).limit(limit)` applied to the sorted ids. */
  function Window(ids: seq<Id>, skip: nat, limit: int): (r: seq<Id>)
    ensures Cap(limit).Some? ==> |r| == Min(Cap(limit).value, Max0(|ids| - skip))
    ensures Cap(limit).None? ==> |r| == Max0(|ids| - skip)
    ensures skip >= |ids| ==> r == []
    ensures skip < |ids| ==> r == ids[skip..skip + |r|]
  {
    var from := if skip <= |ids| then skip else |ids|;
    var rest := ids[from..];
    match Cap(limit)
    case None => rest
    case Some(n) => if n <= |rest| then rest[..n] else rest
  }

  function Min(a: nat, b: nat): nat { if a <= b then a else b }
  function Max0(a: int): nat { if a <= 0 then 0 else a }

  /** Consecutive pages of the same size tile the sorted list: page `k + 1` starts where page
      `k` ends. */
  lemma PagesTile(ids: seq<Id>, k: nat, size: nat)
    requires size > 0
    ensures Window(ids, k * size, size) + Window(ids, (k + 1) * size, size) == Window(ids, k * size, 2 * size)
  {
    var a, b := k * size, (k + 1) * size;
    assert b == a + size;
    if a >= |ids| {
    } else if b >= |ids| {
      assert Window(ids, a, size) == ids[a..];
    } else {
      assert Window(ids, a, size) == ids[a..b];
      if b + size <= |ids| {
        assert Window(ids, b, size) == ids[b..b + size];
        assert Window(ids, a, 2 * size) == ids[a..b + size];
      } else {
        assert Window(ids, b, size) == ids[b..];
        assert Window(ids, a, 2 * size) == ids[a..];
      }
    }
  }

  /** `GET /api/user/posts?status&page&limit` for `me`, the query numbers already coerced. 500 when
      the skip `(page - 1) * limit` is negative (MongoDB rejects it); otherwise 200 with the
      page of matching posts, newest first, and `total` the number of all matching posts,
      whatever the page. */
  method GetUserPosts(db: Store.Db, me: Id, status: Option<string>, page: Option<int>, limit: Option<int>)
    returns (code: int, total: nat, posts: seq<Id>, ghost all: seq<Id>)
    ensures forall k :: k in all <==> k in db.posts && Matches(db.posts[k], me, status)
    ensures Query.Distinct(all) && Query.NewestFirst(db.posts, all, (p: Post) => p.createdAt)
    ensures var skip := (page.GetOr(DefaultPage) - 1) * limit.GetOr(DefaultLimit);
      && (skip < 0 ==> code == 500 && posts == [])
      && (skip >= 0 ==> code == 200 && total == |all| && posts == Window(all, skip, limit.GetOr(DefaultLimit)))
  {
    var sorted := Query.FindSorted(db.posts, (p: Post) => Matches(p, me, status), (p: Post) => p.createdAt);
    all := sorted;
    var p, l := page.GetOr(DefaultPage), limit.GetOr(DefaultLimit);
    var skip := (p - 1) * l;
    if skip < 0 {
      return 500, 0, [], all;
    }
    code, total, posts := 200, |sorted|, Window(sorted, skip, l);
  }

  /** The keys of `body` among `keys`, as Mongoose keeps them once undefined ones are dropped. */
  function Pick(body: Object, keys: set<string>): (r: Object)
    ensures r.Keys == body.Keys * keys
    ensures forall k :: k in r ==> r[k] == body[k]
  {
    map k | k in body && k in keys :: body[k]
  }

  /** The keys `createPost` copies: the post fields without `status`. */
  const CreateFields: set<string> := {"title", "content", "price", "category"}

  function PostImages(filenames: seq<string>): (r: seq<string>)
    ensures |r| == |filenames|
    ensures forall i :: 0 <= i < |r| ==> r[i] == "/posts/" + filenames[i]
  {
    if filenames == [] then [] else ["/posts/" + filenames[0]] + PostImages(filenames[1..])
  }

  /** `POST /api/user/posts` by `me` with the uploaded files' stored names (`None` when `req.files` is
      unset): a new post owned by `me` whose images are `/posts/<name>` in upload order. */
  method CreatePost(db: Store.Db, me: Id, body: Object, files: Option<seq<string>>, nowMs: nat)
    returns (code: int, id: Id)
    requires db.Valid()
    modifies db`posts, db`nextId
    ensures db.Valid()
    ensures code == 200 && id !in old(db.posts)
    ensures db.posts == old(db.posts)[id := Post(Pick(body, CreateFields),
                                                 PostImages(files.GetOr([])), me, nowMs)]
  {
    id := db.NewId();
    db.posts := db.posts[id := Post(Pick(body, CreateFields), PostImages(files.GetOr([])), me, nowMs)];
    code := 200;
  }

  /** Whether `pid` names a post of `me`: the filter `{ _id, creator }`. */
  predicate Owned(posts: map<Id, Post>, pid: Id, me: Id) {
    pid in posts && posts[pid].creator == me
  }

  /** The `$set` `updatePost` sends: the post fields the body gives, over the stored ones. */
  function Merge(p: Post, body: Object): (r: Post)
    ensures r.fields.Keys == p.fields.Keys + (body.Keys * Fields)
    ensures forall k :: k in body && k in Fields ==> r.fields[k] == body[k]
    ensures forall k :: k in p.fields && !(k in body && k in Fields) ==> r.fields[k] == p.fields[k]
    ensures r.images == p.images && r.creator == p.creator && r.createdAt == p.createdAt
  {
    p.(fields := Spread(p.fields, Pick(body, Fields)))
  }

  /** Sending the same update twice is sending it once. */
  lemma MergeIdempotent(p: Post, body: Object)
    ensures Merge(Merge(p, body), body) == Merge(p, body)
  {
    assert Merge(Merge(p, body), body).fields == Merge(p, body).fields;
  }

  /** `PUT /api/user/posts/:id` by `me`: 404 with nothing changed unless the post is `me`'s;
      otherwise only that post's given fields change. */
  method UpdatePost(db: Store.Db, me: Id, pid: Id, body: Object) returns (code: int)
    requires db.Valid()
    modifies db`posts
    ensures db.Valid()
    ensures !Owned(old(db.posts), pid, me) ==> code == 404 && db.posts == old(db.posts)
    ensures Owned(old(db.posts), pid, me) ==>
      code == 200 && db.posts == old(db.posts)[pid := Merge(old(db.posts)[pid], body)]
  {
    if !(pid in db.posts && db.posts[pid].creator == me) {
      return 404;
    }
    assert db.posts[pid := Merge(db.posts[pid], body)].Keys == db.posts.Keys;
    db.posts := db.posts[pid := Merge(db.posts[pid], body)];
    code := 200;
  }

  /** `DELETE /api/user/posts/:id` by `me`: 404 with nothing changed unless the post is `me`'s;
      otherwise the post is removed. A post with images then answers 500, since the clean-up
      code refers to `path` and `unlink`, which the file never binds. */
  method DeletePost(db: Store.Db, me: Id, pid: Id) returns (code: int)
    requires db.Valid()
    modifies db`posts
    ensures db.Valid()
    ensures !Owned(old(db.posts), pid, me) ==> code == 404 && db.posts == old(db.posts)
    ensures Owned(old(db.posts), pid, me) ==>
      && db.posts == old(db.posts) - {pid}
      && code == (if old(db.posts)[pid].images != [] then 500 else 200)
  {
    if !(pid in db.posts && db.posts[pid].creator == me) {
      return 404;
    }
    var images := db.posts[pid].images;
    db.posts := db.posts - {pid};
    code := if images != [] then 500 else 200;
  }

  /** The evidently intended `deletePost`, with `path` and `unlink` bound: the owner's post is
      removed and the answer is 200 whether or not it had images. */
  method DeletePostBound(db: Store.Db, me: Id, pid: Id) returns (code: int)
    requires db.Valid()
    modifies db`posts
    ensures db.Valid()
    ensures !Owned(old(db.posts), pid, me) ==> code == 404 && db.posts == old(db.posts)
    ensures Owned(old(db.posts), pid, me) ==> code == 200 && db.posts == old(db.posts) - {pid}
  {
    if !(pid in db.posts && db.posts[pid].creator == me) {
      return 404;
    }
    db.posts := db.posts - {pid};
    code := 200;
  }

  /** As written, deleting a post with a picture removes it and still answers 500, so the
      client reports a failure for a deletion that happened. */
  method DeleteWithImageReportsFailure(db: Store.Db, me: Id, pid: Id) returns (code: int)
    requires db.Valid() && Owned(db.posts, pid, me) && db.posts[pid].images == ["/posts/1.png"]
    modifies db`posts
    ensures code == 500 && pid !in db.posts
  {
    code := DeletePost(db, me, pid);
  }
}
