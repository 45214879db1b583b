/** backend/models/Product.js: the Product document, its schema validators, setters, defaults
    and the pre-save hook. */
module ProductModel {
  import opened Wrappers
  import opened Ids
  import opened Text
  import opened Json

  const TitleMax: nat := 50
  const DescriptionMax: nat := 500

  /** The `category` enum, in the schema's order. */
  const Categories: seq<string> := [
    "物品/教材", "物品/电子外设", "物品/运动器材", "物品/宿舍用品",
    "信息/家教", "信息/租房", "信息/兼职",
    "代替/代抄", "代替/代课", "代替/代写", "代替/快递代取", "代替/刷课",
    "失物/校园卡", "失物/其他",
    "宝藏/电子教材", "宝藏/考试资料"
  ]

  /** The `status` enum and its default. */
  const Statuses: seq<string> := ["available", "sold", "removed"]
  const DefaultStatus: string := "available"

  datatype Product = Product(
    title: string,
    description: string,
    price: real,
    category: string,
    images: seq<string>,
    contact: string,
    status: string,
    owner: Id,
    createdAt: nat,
    updatedAt: nat)

  /** The validators `save` runs: `required`, `maxlength`, `min`, `enum` and the `required`
      of each image string. `owner` is an id, so always present. */
  predicate SchemaValid(p: Product) {
    && p.title != "" && |p.title| <= TitleMax
    && p.description != "" && |p.description| <= DescriptionMax
    && p.price >= 0.0
    && p.category in Categories
    && (forall i :: 0 <= i < |p.images| ==> p.images[i] != "")
    && p.contact != ""
    && p.status in Statuses
  }

  /** What the `trim: true` setters guarantee of every title and description ever assigned. */
  predicate Trimmed(p: Product) {
    NoOuterSpace(p.title) && NoOuterSpace(p.description)
  }

  /** A document as it can sit in the collection. */
  predicate Stored(p: Product) {
    SchemaValid(p) && Trimmed(p)
  }

  /** Casting a JSON value to a `String` path. Mongoose also casts numbers; the model lets only
      strings through, and anything else makes `save` fail. */
  function CastString(v: Value): Option<string> {
    match v
    case Text(s) => Some(s)
    case _ => None
  }

  /** `Array.isArray(images) ? images : [images]`, cast to an array of strings. */
  function ImagesOf(v: Value): Option<seq<string>> {
    match v
    case Strings(items) => Some(items)
    case Text(s) => Some([s])
    case _ => None
  }

  /** `new Product({ title, description, price, category, contact, images, owner })` at time
      `now`: the setters trim, `status` and the timestamps take their defaults. `None` when a
      value cannot be cast (then `save` rejects). `price` is the result of `parseFloat`, `None`
      standing for `NaN`. */
  function Draft(title: Value, description: Value, price: Option<real>, category: Value,
                 contact: Value, images: Value, owner: Id, now: nat): Option<Product>
  {
    var t, d, c, ct, im := CastString(title), CastString(description), CastString(category),
                           CastString(contact), ImagesOf(images);
    if t.Some? && d.Some? && price.Some? && c.Some? && ct.Some? && im.Some? then
      Some(Product(Trim(t.value), Trim(d.value), price.value, c.value, im.value, ct.value,
                   DefaultStatus, owner, now, now))
    else None
  }

  /** A new document belongs to the requester, is `available`, keeps the given image array or
      wraps a single path, and has trimmed texts. */
  lemma DraftProperties(title: Value, description: Value, price: Option<real>,
                                           category: Value, contact: Value, images: Value,
                                           owner: Id, now: nat)
    requires Draft(title, description, price, category, contact, images, owner, now).Some?
    ensures var p := Draft(title, description, price, category, contact, images, owner, now).value;
      && p.owner == owner && p.status == DefaultStatus && p.createdAt == now
      && (images.Strings? ==> p.images == images.items)
      && (images.Text? ==> p.images == [images.s])
      && Trimmed(p)
  {
    TrimShape(CastString(title).value);
    TrimShape(CastString(description).value);
  }

  /** The pre-save hook: `this.updatedAt = Date.now()`. */
  function PreSave(p: Product, now: nat): Product {
    p.(updatedAt := now)
  }

  /** Saving stamps `updatedAt` and changes no other field, so it keeps a document storable. */
  lemma PreSaveOnlyStamps(p: Product, now: nat)
    ensures PreSave(p, now).updatedAt == now
    ensures PreSave(p, now).(updatedAt := p.updatedAt) == p
    ensures Stored(p) ==> Stored(PreSave(p, now))
  {
  }

  /** Sixteen categories, no two alike. */
  lemma CategoriesDistinct()
    ensures |Categories| == 16
    ensures forall i, j :: 0 <= i < j < |Categories| ==> Categories[i] != Categories[j]
  {
  }
}
