/** The three MongoDB collections the backend reads and writes, as maps from id to document. */
module Store {
  import opened Ids
  import opened UserModel
  import opened ProductModel
  import opened PostModel

  predicate UniqueUsernames(users: map<Id, User>) {
    forall a, b :: a in users && b in users && users[a].username == users[b].username ==> a == b
  }

  /** Every id in `keys` was handed out before `next`. */
  predicate IdsBelow(keys: set<Id>, next: nat) {
    forall k :: k in keys ==> k < next
  }

  predicate UsersValid(users: map<Id, User>) {
    UniqueUsernames(users) && forall k :: k in users ==> UserModel.SchemaValid(users[k])
  }

  predicate ProductsValid(products: map<Id, Product>) {
    forall k :: k in products ==> ProductModel.Stored(products[k])
  }

  /** Storing a valid user whose username is unchanged, or unused, keeps the users valid. */
  lemma PutUser(users: map<Id, User>, k: Id, u: User)
    requires UsersValid(users) && UserModel.SchemaValid(u)
    requires k in users ==> users[k].username == u.username
    requires k !in users ==> forall j :: j in users ==> users[j].username != u.username
    ensures UsersValid(users[k := u])
  {
  }

  /** Storing a storable product keeps the products valid. */
  lemma PutProduct(products: map<Id, Product>, k: Id, p: Product)
    requires ProductsValid(products) && ProductModel.Stored(p)
    ensures ProductsValid(products[k := p])
  {
  }

  class Db {
    var users: map<Id, User>
    var products: map<Id, Product>
    var posts: map<Id, Post>
    /** The next id the database hands out; every id in use is below it. */
    var nextId: nat

    ghost predicate Valid()
      reads this
    {
      && IdsBelow(users.Keys, nextId) && IdsBelow(products.Keys, nextId) && IdsBelow(posts.Keys, nextId)
      && UsersValid(users) && ProductsValid(products)
    }

    constructor ()
      ensures Valid()
      ensures users == map[] && products == map[] && posts == map[]
    {
      users, products, posts, nextId := map[], map[], map[], 0;
    }

    /** A fresh ObjectId. */
    method NewId() returns (id: Id)
      requires Valid()
      modifies this`nextId
      ensures Valid()
      ensures id !in users && id !in products && id !in posts
      ensures nextId == old(nextId) + 1 && id == old(nextId)
    {
      id := nextId;
      nextId := nextId + 1;
    }

    /** `new Product(...).save()` of a storable document: it gets a fresh id and is the only
        change to the products. */
    method AddProduct(p: Product) returns (id: Id)
      requires Valid() && ProductModel.Stored(p)
      modifies this`products, this`nextId
      ensures Valid()
      ensures id !in old(products) && products == old(products)[id := p]
    {
      id := NewId();
      PutProduct(products, id, p);
      products := products[id := p];
    }

    /** `Product.findByIdAndDelete(pid)`: only that product goes. */
    method RemoveProduct(pid: Id)
      requires Valid()
      modifies this`products
      ensures Valid()
      ensures products == old(products) - {pid}
    {
      assert ProductsValid(products - {pid});
      products := products - {pid};
    }

    /** Saving a stored user back with its username unchanged. */
    method ReplaceUser(k: Id, u: User)
      requires Valid() && k in users && users[k].username == u.username && UserModel.SchemaValid(u)
      modifies this`users
      ensures Valid()
      ensures users == old(users)[k := u]
    {
      PutUser(users, k, u);
      users := users[k := u];
    }
  }
}
