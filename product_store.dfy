/** frontend/src/stores/product.js: the Pinia store caching the user's product list and the
    product on display. */
module ProductStore {
  import opened Wrappers
  import opened Json
  import opened HttpClient
  import Text
  import ProductModel

  // ---------------------------------------------------------------- categories

  /** `{ value, label }`; `label` is a Dafny keyword, hence `caption`. */
  datatype CategoryOption = CategoryOption(value: string, caption: string)

  /** `getCategories()`: the options the forms offer, in the form's order. */
  function GetCategories(): seq<CategoryOption> {
    [ CategoryOption("物品/电子外设", "电子外设"), CategoryOption("物品/教材", "教材"),
      CategoryOption("物品/运动器材", "运动器材"), CategoryOption("物品/宿舍用品", "宿舍用品"),
      CategoryOption("信息/家教", "家教"), CategoryOption("信息/兼职", "兼职"),
      CategoryOption("信息/租房", "租房"), CategoryOption("代替/代课", "代课"),
      CategoryOption("代替/代抄", "代抄"), CategoryOption("代替/代写", "代写"),
      CategoryOption("代替/刷课", "刷课"), CategoryOption("代替/快递代取", "快递代取"),
      CategoryOption("失物/校园卡", "校园卡"), CategoryOption("失物/其他", "其他"),
      CategoryOption("宝藏/电子教材", "电子教材"), CategoryOption("宝藏/考试资料", "考试资料") ]
  }

  /** Some option of the form carries `c`. */
  predicate Offered(c: string) {
    exists i :: 0 <= i < |GetCategories()| && GetCategories()[i].value == c
  }

  /** Where each option's value sits in the schema's enum. */
  const SchemaIndex: seq<nat> := [1, 0, 2, 3, 4, 6, 5, 8, 7, 9, 11, 10, 12, 13, 14, 15]

  /** Option `i` carries the schema's category `SchemaIndex[i]`, and no two options share one. */
  lemma OptionsFollowSchemaIndex()
    ensures |GetCategories()| == |ProductModel.Categories| == |SchemaIndex| == 16
    ensures forall i :: 0 <= i < 16 ==>
      SchemaIndex[i] < 16 && GetCategories()[i].value == ProductModel.Categories[SchemaIndex[i]]
    ensures forall i, j :: 0 <= i < j < 16 ==> SchemaIndex[i] != SchemaIndex[j]
  {
  }

  /** The option that carries the schema's `k`-th category. */
  const OptionIndex: seq<nat> := [1, 0, 2, 3, 4, 6, 5, 8, 7, 9, 11, 10, 12, 13, 14, 15]

  lemma OptionIndexInverts()
    ensures |OptionIndex| == 16
    ensures forall k :: 0 <= k < 16 ==> OptionIndex[k] < 16 && SchemaIndex[OptionIndex[k]] == k
  {
  }

  lemma {:induction false} SchemaCategoryOffered(c: string)
    requires c in ProductModel.Categories
    ensures Offered(c)
  {
    OptionsFollowSchemaIndex();
    var k :| 0 <= k < 16 && ProductModel.Categories[k] == c;
    OptionIndexInverts();
    var i := OptionIndex[k];
    assert SchemaIndex[i] == k;
    assert GetCategories()[i].value == c;
  }

  lemma {:induction false} OfferedInSchema(c: string)
    requires Offered(c)
    ensures c in ProductModel.Categories
  {
    OptionsFollowSchemaIndex();
    var i :| 0 <= i < 16 && GetCategories()[i].value == c;
    assert c == ProductModel.Categories[SchemaIndex[i]];
  }

  /** The form offers exactly the categories the schema accepts. */
  lemma CategoriesAgreeWithSchema(c: string)
    ensures Offered(c) <==> c in ProductModel.Categories
  {
    if c in ProductModel.Categories { SchemaCategoryOffered(c); }
    if Offered(c) { OfferedInSchema(c); }
  }

  // ---------------------------------------------------------------- list maintenance

  /** `p._id === id || p.id === id`. */
  predicate IsItem(p: Object, id: string) {
    KeyEquals(p, "_id", Text(id)) || KeyEquals(p, "id", Text(id))
  }

  /** `{ ...product, id: product._id || product.id }`. */
  function Normalise(p: Object): (r: Object)
    ensures forall k :: k in p && k != "id" ==> k in r && r[k] == p[k]
    ensures Present(p, "_id") ==> r.Keys == p.Keys + {"id"} && r["id"] == p["_id"]
    ensures !Present(p, "_id") ==> r == p
  {
    if Present(p, "_id") then p["id" := p["_id"]] else p
  }

  /** Once normalised, an item is found by either key exactly when its `_id` is `id`. */
  lemma NormalisedMatchesById(p: Object, id: string)
    requires Present(p, "_id")
    ensures IsItem(Normalise(p), id) <==> KeyEquals(p, "_id", Text(id))
  {
  }

  /** Normalising twice is normalising once. */
  lemma NormaliseIdempotent(p: Object)
    ensures Normalise(Normalise(p)) == Normalise(p)
  {
  }

  function NormaliseAll(items: seq<Object>): (r: seq<Object>)
    ensures |r| == |items| && forall i :: 0 <= i < |items| ==> r[i] == Normalise(items[i])
  {
    if items == [] then [] else [Normalise(items[0])] + NormaliseAll(items[1..])
  }

  /** `{ ...s }` for a string `s`: one key per character, `"0"`, `"1"`, …, holding it. */
  function SpreadChars(s: string): Object {
    if s == [] then map[] else SpreadChars(s[..|s| - 1])[Text.Digits(|s| - 1) := Text([s[|s| - 1]])]
  }

  lemma DigitsInjective(a: nat, b: nat)
    ensures Text.Digits(a) == Text.Digits(b) ==> a == b
  {
    Text.ParseDigitsOfDigits(a);
    Text.ParseDigitsOfDigits(b);
  }

  /** The object spread from a string holds each character under its index and nothing else. */
  lemma {:induction false} SpreadCharsAt(s: string)
    ensures forall i :: 0 <= i < |s| ==> Text.Digits(i) in SpreadChars(s) && SpreadChars(s)[Text.Digits(i)] == Text([s[i]])
    ensures forall k :: k in SpreadChars(s) ==> exists i :: 0 <= i < |s| && k == Text.Digits(i)
  {
    if s != [] {
      var n := |s| - 1;
      var t := s[..n];
      SpreadCharsAt(t);
      forall i | 0 <= i < n
        ensures Text.Digits(i) in SpreadChars(s) && SpreadChars(s)[Text.Digits(i)] == Text([s[i]])
      {
        DigitsInjective(i, n);
        assert t[i] == s[i];
      }
    }
  }

  /** An object spread from a string has no `_id`, so normalising leaves it as it is. */
  lemma SpreadCharsNormalised(s: string)
    ensures Normalise(SpreadChars(s)) == SpreadChars(s)
  {
    NoIdKey(s);
  }

  /** Every key spread from a string is a decimal index, which `_id` is not. */
  lemma {:induction false} NoIdKey(s: string)
    ensures "_id" !in SpreadChars(s)
  {
    if s != [] {
      NoIdKey(s[..|s| - 1]);
      var d := Text.Digits(|s| - 1);
      assert Text.IsDigit(d[0]) && "_id"[0] == '_';
    }
  }

  function SpreadAll(items: seq<string>): (r: seq<Object>)
    ensures |r| == |items| && forall i :: 0 <= i < |items| ==> r[i] == SpreadChars(items[i])
  {
    if items == [] then [] else [SpreadChars(items[0])] + SpreadAll(items[1..])
  }

  /** The array `response.data.data || response.data` reads from a reply's `data`, if it is
      one: the list itself, or the truthy array under the key `data` of an object. An object
      without one falls back to itself, which has no `map`, and a missing `data` cannot be
      read at all. */
  function ListOf(data: Data): Option<seq<Object>> {
    match data
    case Records(items) => Some(items)
    case Record(f) => if "data" in f && f["data"].Strings? then Some(SpreadAll(f["data"].items)) else None
    case Missing => None
  }

  /** Only an array, or an object whose `data` is an array, gives a list; the object's `data`
      is taken only when it is truthy, and of the truthy values only an array can be mapped. */
  lemma ListOfCases(data: Data)
    ensures ListOf(data).Some? <==> data.Records? || (data.Record? && Present(data.fields, "data") && data.fields["data"].Strings?)
    ensures data.Records? ==> ListOf(data) == Some(data.items)
    ensures ListOf(Record(map["data" := Strings([])])) == Some([])
  {
    assert SpreadAll([]) == [];
  }

  /** `findIndex(p => p._id === id || p.id === id)`, `None` for `-1`. */
  function FindIndex(list: seq<Object>, id: string): (r: Option<nat>)
    ensures r.Some? ==> (r.value < |list| && IsItem(list[r.value], id)
      && forall j :: 0 <= j < r.value ==> !IsItem(list[j], id))
    ensures r.None? ==> forall j :: 0 <= j < |list| ==> !IsItem(list[j], id)
  {
    if list == [] then None
    else if IsItem(list[0], id) then Some(0)
    else match FindIndex(list[1..], id)
      case None => None
      case Some(i) => Some(i + 1)
  }

  /** The local list after `updateProduct(id, updates)`: the first entry for `id` merged with
      `updates`, everything else as it was. */
  function MergeFirst(list: seq<Object>, id: string, updates: Object): (r: seq<Object>)
    ensures |r| == |list|
    ensures FindIndex(list, id).None? ==> r == list
    ensures FindIndex(list, id).Some? ==>
      var i := FindIndex(list, id).value;
      && r[i] == Spread(list[i], updates)
      && forall j :: 0 <= j < |list| && j != i ==> r[j] == list[j]
  {
    match FindIndex(list, id)
    case None => list
    case Some(i) => list[i := Spread(list[i], updates)]
  }

  /** `filter(p => p._id !== id && p.id !== id)`. */
  function Without(list: seq<Object>, id: string): (r: seq<Object>)
    ensures forall p :: p in r <==> p in list && !IsItem(p, id)
    ensures |r| <= |list|
    ensures (forall j :: 0 <= j < |list| ==> !IsItem(list[j], id)) ==> r == list
  {
    if list == [] then []
    else if IsItem(list[0], id) then Without(list[1..], id)
    else [list[0]] + Without(list[1..], id)
  }

  /** Filtering works entry by entry, so the entries kept stay in their order. */
  lemma {:induction false} WithoutAppend(a: seq<Object>, b: seq<Object>, id: string)
    ensures Without(a + b, id) == Without(a, id) + Without(b, id)
  {
    if a == [] {
      assert a + b == b;
    } else {
      assert (a + b)[1..] == a[1..] + b;
      WithoutAppend(a[1..], b, id);
    }
  }

  /** `currentProduct.value && (currentProduct.value._id === id || … .id === id)`. */
  predicate Showing(current: Option<Object>, id: string) {
    current.Some? && IsItem(current.value, id)
  }

  /** The message of an error the action itself raises while reading the response. */
  const ReadError: string := "TypeError"

  class ProductStore {
    const browser: Browser
    /** The full list is only filled by `fetchProducts`, which is not part of this model. */
    var products: seq<Object>
    var myProducts: seq<Object>
    var isLoading: bool
    var error: Option<string>
    var currentProduct: Option<Object>

    constructor (browser: Browser)
      ensures this.browser == browser
      ensures products == [] && myProducts == [] && !isLoading && error == None && currentProduct == None
    {
      this.browser := browser;
      products, myProducts, isLoading, error, currentProduct := [], [], false, None, None;
    }

    /** `fetchMyProducts()`: when the answer's `data`, or the array under its own `data`, can
        be mapped, every item gets `id` from `_id`; otherwise the error is recorded and
        rethrown and the list is kept. */
    method FetchMyProducts(reply: Reply) returns (thrown: bool)
      modifies this`myProducts, this`isLoading, this`error, browser`token, browser`location
      ensures !isLoading
      ensures browser.token == TokenAfter(old(browser.token), reply)
      ensures browser.location == LocationAfter(old(browser.location), reply)
      ensures !thrown <==> reply.Reply? && Succeeds(reply.status) && ListOf(reply.body.data).Some?
      ensures !thrown ==> myProducts == NormaliseAll(ListOf(reply.body.data).value) && error == old(error)
      ensures thrown ==> myProducts == old(myProducts) && error.Some?
    {
      isLoading := true;
      var o := Call(browser, reply);
      thrown := true;
      match o {
        case Resolved(body) =>
          match ListOf(body.data) {
            case Some(items) =>
              myProducts := NormaliseAll(items);
              thrown := false;
            case None =>
              error := Some(ReadError);
          }
        case _ =>
          error := Some(Message(o));
      }
      isLoading := false;
    }

    /** `updateProduct(id, updates)`: after `PUT /products/:id` resolves, the first local entry
        for `id` and the product on display, if it is that one, are merged with `updates`. A
        failed request changes neither. */
    method UpdateProduct(id: string, updates: Object, reply: Reply) returns (thrown: bool)
      modifies this`myProducts, this`currentProduct, this`isLoading, this`error, browser`token, browser`location
      ensures !isLoading
      ensures browser.token == TokenAfter(old(browser.token), reply)
      ensures browser.location == LocationAfter(old(browser.location), reply)
      ensures thrown <==> !(reply.Reply? && Succeeds(reply.status))
      ensures !thrown ==>
        && myProducts == MergeFirst(old(myProducts), id, updates)
        && currentProduct == (if Showing(old(currentProduct), id)
                              then Some(Spread(old(currentProduct).value, updates))
                              else old(currentProduct))
        && error == old(error)
      ensures thrown ==> myProducts == old(myProducts) && currentProduct == old(currentProduct) && error.Some?
    {
      isLoading := true;
      var o := Call(browser, reply);
      if !o.Resolved? {
        error := Some(Message(o));
        isLoading := false;
        return true;
      }
      myProducts := MergeFirst(myProducts, id, updates);
      if currentProduct.Some? && IsItem(currentProduct.value, id) {
        currentProduct := Some(Spread(currentProduct.value, updates));
      }
      isLoading := false;
      thrown := false;
    }

    /** `deleteProduct(id)`: after `DELETE /products/:id` resolves, every local entry for `id`
        goes and the product on display is cleared if it is that one. A failed request changes
        neither. */
    method DeleteProduct(id: string, reply: Reply) returns (thrown: bool)
      modifies this`myProducts, this`currentProduct, this`isLoading, this`error, browser`token, browser`location
      ensures !isLoading
      ensures browser.token == TokenAfter(old(browser.token), reply)
      ensures browser.location == LocationAfter(old(browser.location), reply)
      ensures thrown <==> !(reply.Reply? && Succeeds(reply.status))
      ensures !thrown ==>
        && myProducts == Without(old(myProducts), id)
        && currentProduct == (if Showing(old(currentProduct), id) then None else old(currentProduct))
        && error == old(error)
      ensures thrown ==> myProducts == old(myProducts) && currentProduct == old(currentProduct) && error.Some?
    {
      isLoading := true;
      var o := Call(browser, reply);
      if !o.Resolved? {
        error := Some(Message(o));
        isLoading := false;
        return true;
      }
      myProducts := Without(myProducts, id);
      if currentProduct.Some? && IsItem(currentProduct.value, id) {
        currentProduct := None;
      }
      isLoading := false;
      thrown := false;
    }

    /** `reset()`: both lists empty, nothing on display, no error, not loading. */
    method Reset()
      modifies this`products, this`myProducts, this`currentProduct, this`isLoading, this`error
      ensures products == [] && myProducts == [] && currentProduct == None
      ensures !isLoading && error == None
    {
      products, myProducts, currentProduct, isLoading, error := [], [], None, false, None;
    }
  }
}
