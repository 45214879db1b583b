/** backend/routes/product.js: the product collection's HTTP handlers. */
module ProductRoutes {
  import opened Wrappers
  import opened Ids
  import opened Text
  import opened Json
  import opened ProductModel
  import UserModel
  import Query
  import Store

  /** `allowedUpdates` of `PUT /:id`. */
  const Updatable: set<string> := {"title", "description", "price", "category", "contact", "status"}

  /** The six fields `POST /` demands, each truthy. */
  predicate HasRequired(body: Object) {
    && Present(body, "title") && Present(body, "description") && Present(body, "price")
    && Present(body, "category") && Present(body, "contact") && Present(body, "images")
  }

  // ---------------------------------------------------------------- image paths

  /** `/my`: a path stored as `uploads/...` gets a leading `/`; any other is kept. */
  function MyImage(img: string): (r: string)
    ensures r == img || r == "/" + img
    ensures r != img <==> StartsWith(img, "uploads/")
    ensures !StartsWith(r, "uploads/")
  {
    if StartsWith(img, "uploads/") then
      assert ("/" + img)[..8][0] == '/';
      "/" + img
    else img
  }

  /** `GET /:id`: every path gets `/uploads/` in front. */
  function DetailImage(img: string): (r: string)
    ensures StartsWith(r, "/uploads/") && r[|"/uploads/"|..] == img
  {
    "/uploads/" + img
  }

  /** `DELETE /:id`: `image.replace(/^uploads[\\/]/, '')`, one leading `uploads/` or `uploads\`. */
  function StripUploads(img: string): (r: string)
    ensures |img| - |r| == 0 || |img| - |r| == 8
    ensures r == img[|img| - |r|..]
    ensures r != img <==> StartsWith(img, "uploads/") || StartsWith(img, "uploads\\")
  {
    if StartsWith(img, "uploads/") || StartsWith(img, "uploads\\") then img[8..] else img
  }

  /** Listing twice is listing once: a path `/my` produced starts with `/`, never `uploads/`. */
  lemma MyImageIdempotent(img: string)
    ensures MyImage(MyImage(img)) == MyImage(img)
  {
    if StartsWith(img, "uploads/") {
      assert MyImage(img)[0] == '/';
    }
  }

  /** The detail view reads every stored path as relative to `uploads/`: it shows what the list
      would show for that path with `uploads/` in front. */
  lemma DetailIsListOfUploadsRelative(img: string)
    ensures DetailImage(img) == MyImage("uploads/" + img)
  {
    assert StartsWith("uploads/" + img, "uploads/");
  }

  /** Deleting undoes the prefix both views assume. */
  lemma StripUndoesUploadsPrefix(img: string)
    ensures StripUploads("uploads/" + img) == img
    ensures StripUploads("uploads\\" + img) == img
  {
    assert StartsWith("uploads/" + img, "uploads/");
    assert StartsWith("uploads\\" + img, "uploads\\");
  }

  /** The two views disagree on a path stored as `uploads/...`. */
  lemma ViewsDisagreeOnUploadsPath(name: string)
    ensures MyImage("uploads/" + name) == "/uploads/" + name
    ensures DetailImage("uploads/" + name) == "/uploads/uploads/" + name
  {
    assert StartsWith("uploads/" + name, "uploads/");
    assert "/uploads/" + ("uploads/" + name) == ("/uploads/" + "uploads/") + name;
  }

  /** The URL the upload route hands out (`/uploads/products/...`) is kept by the list view,
      prefixed a second time by the detail view, and not stripped by `DELETE`. */
  lemma UploadUrlKeptByListOnly(name: string)
    ensures MyImage("/uploads/products/" + name) == "/uploads/products/" + name
    ensures DetailImage("/uploads/products/" + name) == "/uploads/" + ("/uploads/products/" + name)
    ensures StripUploads("/uploads/products/" + name) == "/uploads/products/" + name
  {
    var url := "/uploads/products/" + name;
    assert url[..8][0] == '/';
    assert !StartsWith(url, "uploads/") && !StartsWith(url, "uploads\\");
  }

  function MapImages(f: string -> string, imgs: seq<string>): (r: seq<string>)
    ensures |r| == |imgs| && forall i :: 0 <= i < |imgs| ==> r[i] == f(imgs[i])
  {
    if imgs == [] then [] else [f(imgs[0])] + MapImages(f, imgs[1..])
  }

  /** A product as `/my` answers it. */
  function MyView(p: Product): Product {
    p.(images := MapImages(MyImage, p.images))
  }

  /** A product as `GET /:id` answers it. */
  function DetailView(p: Product): Product {
    p.(images := MapImages(DetailImage, p.images))
  }

  // ---------------------------------------------------------------- pulling an id

  /** MongoDB's `$pull`: every occurrence of `x` goes, the rest keep their order. */
  function Pull(s: seq<Id>, x: Id): (r: seq<Id>)
    ensures forall y :: y in r <==> y in s && y != x
    ensures |r| <= |s|
    ensures x !in s ==> r == s
  {
    if s == [] then []
    else if s[0] == x then Pull(s[1..], x)
    else [s[0]] + Pull(s[1..], x)
  }

  /** Pulling twice is pulling once. */
  lemma {:induction false} PullIdempotent(s: seq<Id>, x: Id)
    ensures Pull(Pull(s, x), x) == Pull(s, x)
  {
  }

  // ---------------------------------------------------------------- POST /

  /** The document `POST /` builds from a body that has every required field. */
  function Requested(body: Object, price: Option<real>, me: Id, nowMs: nat): Option<Product>
    requires HasRequired(body)
  {
    Draft(body["title"], body["description"], price, body["category"],
          body["contact"], body["images"], me, nowMs)
  }

  /** A document that validates is also trimmed, so once saved it can sit in the collection. */
  lemma RequestedStorable(body: Object, price: Option<real>, me: Id, nowMs: nat)
    requires HasRequired(body)
    requires Requested(body, price, me, nowMs).Some? && SchemaValid(Requested(body, price, me, nowMs).value)
    ensures Stored(PreSave(Requested(body, price, me, nowMs).value, nowMs))
  {
    DraftProperties(body["title"], body["description"], price, body["category"],
                    body["contact"], body["images"], me, nowMs);
    PreSaveOnlyStamps(Requested(body, price, me, nowMs).value, nowMs);
  }

  /** `POST /` by `me`. `price` is `parseFloat(req.body.price)`, `None` for `NaN`. 400 when a
      required field is falsy; 500 when the document does not cast or validate; otherwise 201
      and the new product is the only change. The owner's `products` list is not touched. */
  method Create(db: Store.Db, me: Id, body: Object, price: Option<real>, nowMs: nat)
    returns (status: int, id: Option<Id>)
    requires db.Valid()
    modifies db`products, db`nextId
    ensures db.Valid()
    ensures !HasRequired(body) ==> status == 400 && id.None? && db.products == old(db.products)
    ensures HasRequired(body) ==>
      var d := Requested(body, price, me, nowMs);
      && (d.None? || !SchemaValid(d.value) ==> status == 500 && id.None? && db.products == old(db.products))
      && (d.Some? && SchemaValid(d.value) ==>
            && status == 201 && id.Some? && id.value !in old(db.products)
            && db.products == old(db.products)[id.value := PreSave(d.value, nowMs)])
  {
    if !HasRequired(body) {
      return 400, None;
    }
    var d := Requested(body, price, me, nowMs);
    if d.None? || !SchemaValid(d.value) {
      return 500, None;
    }
    RequestedStorable(body, price, me, nowMs);
    var stored := PreSave(d.value, nowMs);
    var newId := db.AddProduct(stored);
    status, id := 201, Some(newId);
  }

  // ---------------------------------------------------------------- GET /, GET /my, GET /:id

  /** `GET /`: every product, newest first. */
  method All(db: Store.Db) returns (status: int, ids: seq<Id>)
    ensures status == 200
    ensures forall k :: k in ids <==> k in db.products
    ensures Query.Distinct(ids) && Query.NewestFirst(db.products, ids, (p: Product) => p.createdAt)
  {
    ids := Query.FindSorted(db.products, (p: Product) => true, (p: Product) => p.createdAt);
    status := 200;
  }

  /** `GET /my`: the requester's products, newest first, with the `/my` image paths, and
      `count` the number returned. */
  method My(db: Store.Db, me: Id) returns (status: int, ids: seq<Id>, items: seq<Product>, count: nat)
    ensures status == 200
    ensures forall k :: k in ids <==> k in db.products && db.products[k].owner == me
    ensures Query.Distinct(ids) && Query.NewestFirst(db.products, ids, (p: Product) => p.createdAt)
    ensures |items| == |ids| == count
    ensures forall i :: 0 <= i < |ids| ==> items[i] == MyView(db.products[ids[i]])
  {
    ids := Query.FindSorted(db.products, (p: Product) => p.owner == me, (p: Product) => p.createdAt);
    items := [];
    var i := 0;
    while i < |ids|
      invariant 0 <= i <= |ids|
      invariant |items| == i
      invariant forall j :: 0 <= j < i ==> items[j] == MyView(db.products[ids[j]])
    {
      items := items + [MyView(db.products[ids[i]])];
      i := i + 1;
    }
    status, count := 200, |items|;
  }

  /** `GET /:id`: 404 for an unknown id, otherwise the product with the detail image paths. */
  method Detail(db: Store.Db, pid: Id) returns (status: int, item: Option<Product>)
    ensures pid !in db.products ==> status == 404 && item.None?
    ensures pid in db.products ==> status == 200 && item == Some(DetailView(db.products[pid]))
  {
    if pid !in db.products {
      return 404, None;
    }
    status, item := 200, Some(DetailView(db.products[pid]));
  }

  // ---------------------------------------------------------------- PUT /:id

  /** `product[k] = req.body[k]` for one whitelisted key, the string paths cast and the trimmed
      ones trimmed; `price` takes the parsed number. `None` when the value does not cast. */
  function Assign(p: Product, k: string, v: Value, price: real): Option<Product>
    requires k in Updatable
  {
    if k == "price" then Some(p.(price := price))
    else match CastString(v)
      case None => None
      case Some(s) =>
        if k == "title" then Some(p.(title := Trim(s)))
        else if k == "description" then Some(p.(description := Trim(s)))
        else if k == "category" then Some(p.(category := s))
        else if k == "contact" then Some(p.(contact := s))
        else Some(p.(status := s))
  }

  /** Whether `body[k]` casts to its path. */
  predicate Castable(body: Object, k: string)
    requires k in body
  {
    k == "price" || CastString(body[k]).Some?
  }

  /** The string the cast of `body[k]` yields, or `current` when `k` is not in `keys`. */
  function Given(body: Object, keys: set<string>, k: string, current: string): string {
    if k in keys && k in body then CastString(body[k]).GetOr("") else current
  }

  /** As `Given`, through the `trim: true` setter. */
  function GivenTrimmed(body: Object, keys: set<string>, k: string, current: string): string {
    if k in keys && k in body then Trim(CastString(body[k]).GetOr("")) else current
  }

  /** Adding `k` to the assigned keys changes what field `f` is given only when `f` is `k`. */
  lemma GivenStep(body: Object, done: set<string>, k: string, f: string, current: string)
    requires k in body
    ensures Given(body, done + {k}, f, current)
         == if f == k then CastString(body[k]).GetOr("") else Given(body, done, f, current)
    ensures GivenTrimmed(body, done + {k}, f, current)
         == if f == k then Trim(CastString(body[k]).GetOr("")) else GivenTrimmed(body, done, f, current)
  {
  }

  /** The product after the keys in `keys` have been assigned from `body`. */
  function AssignedOn(p: Product, body: Object, price: real, keys: set<string>): Product {
    p.(title := GivenTrimmed(body, keys, "title", p.title),
       description := GivenTrimmed(body, keys, "description", p.description),
       price := if "price" in keys && "price" in body then price else p.price,
       category := Given(body, keys, "category", p.category),
       contact := Given(body, keys, "contact", p.contact),
       status := Given(body, keys, "status", p.status))
  }

  /** The product once every key of `body` has been assigned, or `None` when one of them does
      not cast. Each named field takes the body's value, every other field is kept. */
  function Updated(p: Product, body: Object, price: real): (r: Option<Product>)
    requires body.Keys <= Updatable
    ensures r.Some? <==> forall k :: k in body ==> Castable(body, k)
    ensures r.Some? ==>
      && r.value.images == p.images && r.value.owner == p.owner
      && r.value.createdAt == p.createdAt && r.value.updatedAt == p.updatedAt
      && ("title" in body ==> r.value.title == Trim(body["title"].s))
      && ("title" !in body ==> r.value.title == p.title)
      && ("description" in body ==> r.value.description == Trim(body["description"].s))
      && ("description" !in body ==> r.value.description == p.description)
      && ("price" in body ==> r.value.price == price)
      && ("price" !in body ==> r.value.price == p.price)
      && ("category" in body ==> r.value.category == body["category"].s)
      && ("category" !in body ==> r.value.category == p.category)
      && ("contact" in body ==> r.value.contact == body["contact"].s)
      && ("contact" !in body ==> r.value.contact == p.contact)
      && ("status" in body ==> r.value.status == body["status"].s)
      && ("status" !in body ==> r.value.status == p.status)
  {
    if forall k :: k in body ==> Castable(body, k) then Some(AssignedOn(p, body, price, body.Keys))
    else None
  }

  /** The six whitelisted keys are pairwise different. */
  lemma UpdatableDistinct()
    ensures "title" != "description" && "title" != "price" && "title" != "category"
    ensures "title" != "contact" && "title" != "status"
    ensures "description" != "price" && "description" != "category"
    ensures "description" != "contact" && "description" != "status"
    ensures "price" != "category" && "price" != "contact" && "price" != "status"
    ensures "category" != "contact" && "category" != "status" && "contact" != "status"
  {
    assert "title"[0] != "price"[0];
    assert "category"[1] != "contact"[1];
  }

  /** Assigning one more key extends the assigned set by that key. */
  lemma AssignStep(p: Product, body: Object, price: real, done: set<string>, k: string)
    requires body.Keys <= Updatable && done <= body.Keys && k in body && k !in done
    requires Castable(body, k)
    ensures Assign(AssignedOn(p, body, price, done), k, body[k], price)
         == Some(AssignedOn(p, body, price, done + {k}))
  {
    UpdatableDistinct();
    GivenStep(body, done, k, "title", p.title);
    GivenStep(body, done, k, "description", p.description);
    GivenStep(body, done, k, "category", p.category);
    GivenStep(body, done, k, "contact", p.contact);
    GivenStep(body, done, k, "status", p.status);
    var q, r := AssignedOn(p, body, price, done), AssignedOn(p, body, price, done + {k});
    if k == "price" {
      assert r == q.(price := price);
    } else {
      var s := CastString(body[k]).value;
      if k == "title" {
        assert r == q.(title := Trim(s));
      } else if k == "description" {
        assert r == q.(description := Trim(s));
      } else if k == "category" {
        assert r == q.(category := s);
      } else if k == "contact" {
        assert r == q.(contact := s);
      } else {
        assert r == q.(status := s);
      }
    }
  }

  /** Assigning a key whose value does not cast fails. */
  lemma AssignFails(q: Product, body: Object, price: real, k: string)
    requires body.Keys <= Updatable && k in body && !Castable(body, k)
    ensures Assign(q, k, body[k], price).None?
  {
  }

  /** After a successful update the document is still trimmed, so it can be stored once it
      validates. */
  lemma UpdatedKeepsTrimmed(p: Product, body: Object, price: real)
    requires body.Keys <= Updatable && Trimmed(p) && Updated(p, body, price).Some?
    ensures Trimmed(Updated(p, body, price).value)
  {
    var u := AssignedOn(p, body, price, body.Keys);
    assert NoOuterSpace(u.title) by {
      if "title" in body {
        assert u.title == Trim(CastString(body["title"]).GetOr(""));
        TrimShape(CastString(body["title"]).GetOr(""));
      }
    }
    assert NoOuterSpace(u.description) by {
      if "description" in body {
        assert u.description == Trim(CastString(body["description"]).GetOr(""));
        TrimShape(CastString(body["description"]).GetOr(""));
      }
    }
  }

  /** Sending the same update twice is the same as sending it once. */
  lemma UpdatedIdempotent(p: Product, body: Object, price: real)
    requires body.Keys <= Updatable && Updated(p, body, price).Some?
    ensures Updated(Updated(p, body, price).value, body, price) == Updated(p, body, price)
  {
    UpdatedKeepsTrimmedTexts(p, body, price);
  }

  lemma UpdatedKeepsTrimmedTexts(p: Product, body: Object, price: real)
    requires body.Keys <= Updatable && Updated(p, body, price).Some?
    ensures "title" in body ==> Trim(Updated(p, body, price).value.title) == Updated(p, body, price).value.title
    ensures "description" in body ==> Trim(Updated(p, body, price).value.description) == Updated(p, body, price).value.description
  {
    if "title" in body { TrimIdempotent(body["title"].s); }
    if "description" in body { TrimIdempotent(body["description"].s); }
  }

  /** `updates.forEach(update => product[update] = req.body[update])`: one assignment per key of
      the body, in whatever order; `None` when one of them did not cast, which makes `save` fail. */
  method AssignAll(p: Product, body: Object, price: real) returns (q: Option<Product>)
    requires body.Keys <= Updatable
    ensures q == Updated(p, body, price)
  {
    var cur := p;
    var failed := false;
    var todo := body.Keys;
    while todo != {}
      invariant todo <= body.Keys
      invariant !failed ==> cur == AssignedOn(p, body, price, body.Keys - todo)
      invariant failed <==> exists k :: k in body.Keys - todo && !Castable(body, k)
      decreases todo
    {
      var k :| k in todo;
      if !failed {
        if Castable(body, k) {
          AssignStep(p, body, price, body.Keys - todo, k);
        } else {
          AssignFails(cur, body, price, k);
        }
        var r := Assign(cur, k, body[k], price);
        if r.None? {
          failed := true;
        } else {
          cur := r.value;
        }
      }
      assert body.Keys - (todo - {k}) == (body.Keys - todo) + {k};
      todo := todo - {k};
    }
    assert body.Keys - todo == body.Keys;
    q := if failed then None else Some(cur);
  }

  /** Whether `pid` names a product of `me`: the filter `{ _id, owner }` of `PUT /:id`. */
  predicate Owned(db: map<Id, Product>, pid: Id, me: Id) {
    pid in db && db[pid].owner == me
  }

  /** `PUT /:id` by `me`; `price` is `parseFloat(req.body.price)`, `None` for `NaN`. 400 for a key
      outside the whitelist (before any lookup), 404 for a product that is missing or not
      `me`'s, 400 for an unparseable price, 500 when the result does not cast or validate;
      only a 200 changes the store, and then only that product. */
  method Update(db: Store.Db, me: Id, pid: Id, body: Object, price: Option<real>, nowMs: nat)
    returns (status: int)
    requires db.Valid()
    modifies db`products
    ensures db.Valid()
    ensures status in {200, 400, 404, 500}
    ensures status != 200 ==> db.products == old(db.products)
    ensures !(body.Keys <= Updatable) ==> status == 400
    ensures body.Keys <= Updatable && !Owned(old(db.products), pid, me) ==> status == 404
    ensures (body.Keys <= Updatable && Owned(old(db.products), pid, me)
      && "price" in body && price.None?) ==> status == 400
    ensures (body.Keys <= Updatable && Owned(old(db.products), pid, me)
      && ("price" in body ==> price.Some?) && status != 200) ==> status == 500
    ensures status == 200 <==>
      && body.Keys <= Updatable && Owned(old(db.products), pid, me)
      && ("price" in body ==> price.Some?)
      && var u := Updated(old(db.products)[pid], body, price.GetOr(0.0));
         u.Some? && SchemaValid(u.value)
    ensures status == 200 ==>
      db.products == old(db.products)[pid := Updated(old(db.products)[pid], body, price.GetOr(0.0)).value.(updatedAt := nowMs)]
  {
    if !(body.Keys <= Updatable) {
      return 400;
    }
    if pid !in db.products || db.products[pid].owner != me {
      return 404;
    }
    if "price" in body && price.None? {
      return 400;
    }
    var p := db.products[pid];
    var n := price.GetOr(0.0);
    var q := AssignAll(p, body, n);
    if q.None? || !SchemaValid(q.value) {
      return 500;
    }
    assert db.products[pid := q.value].Keys == db.products.Keys;
    UpdatedKeepsTrimmed(p, body, n);
    var stamped := q.value.(updatedAt := nowMs);
    PreSaveOnlyStamps(stamped, nowMs);
    Store.PutProduct(db.products, pid, PreSave(stamped, nowMs));
    db.products := db.products[pid := PreSave(stamped, nowMs)];
    status := 200;
  }

  // ---------------------------------------------------------------- DELETE /:id

  /** Whether `me` is an administrator: a stored user with role `admin`. */
  predicate IsAdmin(users: map<Id, UserModel.User>, me: Id) {
    me in users && users[me].role == "admin"
  }

  /** Whether `DELETE /:id` by `me` finds its target: any product for an administrator, only
      `me`'s own for anyone else. */
  predicate MayDelete(users: map<Id, UserModel.User>, products: map<Id, Product>, me: Id, pid: Id) {
    pid in products && (IsAdmin(users, me) || products[pid].owner == me)
  }

  /** `DELETE /:id` by `me`: 404 with nothing changed when the target is not found; otherwise
      the product is removed, its id is pulled from its owner's `products` (no other user is
      touched, and no save hook runs), and `unlink` lists the file paths the handler deletes. */
  method Delete(db: Store.Db, me: Id, pid: Id) returns (status: int, unlink: seq<string>)
    requires db.Valid()
    modifies db`products, db`users
    ensures db.Valid()
    ensures !MayDelete(old(db.users), old(db.products), me, pid) ==>
      status == 404 && unlink == [] && db.products == old(db.products) && db.users == old(db.users)
    ensures MayDelete(old(db.users), old(db.products), me, pid) ==>
      var p := old(db.products)[pid];
      && status == 200
      && db.products == old(db.products) - {pid}
      && db.users == (if p.owner in old(db.users)
                      then old(db.users)[p.owner := old(db.users)[p.owner].(products := Pull(old(db.users)[p.owner].products, pid))]
                      else old(db.users))
      && unlink == MapImages(StripUploads, p.images)
  {
    var isAdmin := me in db.users && db.users[me].role == "admin";
    if !(pid in db.products && (isAdmin || db.products[pid].owner == me)) {
      return 404, [];
    }
    var p := db.products[pid];
    db.RemoveProduct(pid);
    if p.owner in db.users {
      var owner := db.users[p.owner];
      db.ReplaceUser(p.owner, owner.(products := Pull(owner.products, pid)));
    }
    unlink := MapImages(StripUploads, p.images);
    status := 200;
  }

  /** A deleted product's id is gone from its owner's list, and every other user is as before. */
  lemma DeleteTouchesOnlyOwner(users: map<Id, UserModel.User>, owner: Id, pid: Id)
    requires owner in users
    ensures var after := users[owner := users[owner].(products := Pull(users[owner].products, pid))];
      && pid !in after[owner].products
      && (forall u :: u in users && u != owner ==> after[u] == users[u])
      && after.Keys == users.Keys
  {
  }
}
