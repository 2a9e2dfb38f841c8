/**
 * The catalog source: the static category table loaded at start-up, the
 * inventory service's answer for one product code, and the per-category fetch
 * that keeps only the products the service reports as in stock.
 */
module Catalog {
  import opened Wrappers

  type Code = string

  /** One configured product: its external code and its display name. */
  datatype Product = Product(code: Code, name: string)

  /** One configured category with its products in configuration order. */
  datatype Category = Category(name: string, products: seq<Product>)

  /**
   * The first row of an inventory answer: `stock` (absent when the row has no
   * such field) and the `value` of each entry of `salePrices` (an absent or
   * empty `salePrices` is the empty sequence).
   */
  datatype Row = Row(stock: Option<int>, salePrices: seq<Option<int>>)

  /** The inventory service's answer to one lookup: HTTP status and `rows`. */
  datatype Response = Response(status: int, rows: seq<Row>)

  /** A live catalog entry: price in major currency units, quantity in stock. */
  datatype Item = Item(name: string, price: int, quantity: int, code: Code)

  predicate DistinctProductCodes(ps: seq<Product>) {
    forall i, j | 0 <= i < j < |ps| :: ps[i].code != ps[j].code
  }

  predicate DistinctItemCodes(items: seq<Item>) {
    forall i, j | 0 <= i < j < |items| :: items[i].code != items[j].code
  }

  predicate InStock(items: seq<Item>) {
    forall i | 0 <= i < |items| :: items[i].quantity > 0
  }

  /**
   * The table is a JSON object of JSON objects: category names are distinct
   * and, within one category, product codes are distinct.
   */
  predicate WellFormed(config: seq<Category>) {
    && (forall i, j | 0 <= i < j < |config| :: config[i].name != config[j].name)
    && (forall i | 0 <= i < |config| :: DistinctProductCodes(config[i].products))
  }

  /** The products configured under `category`; none for an unknown category. */
  function ProductsOf(config: seq<Category>, category: string): seq<Product> {
    if config == [] then []
    else if config[0].name == category then config[0].products
    else ProductsOf(config[1..], category)
  }

  /** A category the table does not name has no products. */
  lemma {:induction false} ProductsOfUnknown(config: seq<Category>, category: string)
    requires forall i | 0 <= i < |config| :: config[i].name != category
    ensures ProductsOf(config, category) == []
  {
    if config != [] {
      assert forall i | 0 <= i < |config[1..]| :: config[1..][i] == config[i + 1];
      ProductsOfUnknown(config[1..], category);
    }
  }

  lemma {:induction false} ProductsOfNamed(config: seq<Category>, i: nat)
    requires WellFormed(config) && i < |config|
    ensures ProductsOf(config, config[i].name) == config[i].products
  {
    if i > 0 {
      assert config[0].name != config[i].name;
      assert WellFormed(config[1..]) by {
        forall k | 0 <= k < |config[1..]| ensures DistinctProductCodes(config[1..][k].products) {
          assert config[1..][k] == config[k + 1];
        }
      }
      assert config[1..][i - 1] == config[i];
      ProductsOfNamed(config[1..], i - 1);
    }
  }

  lemma ProductsOfDistinct(config: seq<Category>, category: string)
    requires WellFormed(config)
    ensures DistinctProductCodes(ProductsOf(config, category))
  {
    if exists i :: 0 <= i < |config| && config[i].name == category {
      var i :| 0 <= i < |config| && config[i].name == category;
      ProductsOfNamed(config, i);
    } else {
      ProductsOfUnknown(config, category);
    }
  }

  /** The stock figure of a row; a missing `stock` reads as 0. */
  function Stock(row: Row): int {
    row.stock.GetOr(0)
  }

  /**
   * The price in major units: the first sale price's `value` (0 if missing)
   * divided by 100 and rounded down; 0 when there is no sale price at all.
   */
  function Price(salePrices: seq<Option<int>>): (p: int)
    ensures salePrices == [] ==> p == 0
    ensures salePrices != [] ==>
      var v := salePrices[0].GetOr(0);
      100 * p <= v < 100 * p + 100
  {
    if salePrices == [] then 0 else salePrices[0].GetOr(0) / 100
  }

  /** The three conditions under which a looked-up code becomes an item. */
  predicate Admits(resp: Response) {
    resp.status == 200 && |resp.rows| > 0 && Stock(resp.rows[0]) > 0
  }

  /** The item built for product `p` from an answer the fetch admits. */
  function ItemOf(p: Product, resp: Response): Item
    requires Admits(resp)
  {
    Item(p.name, Price(resp.rows[0].salePrices), Stock(resp.rows[0]), p.code)
  }

  /** What one product contributes to its category's list. */
  function Offer(p: Product, resp: Response): seq<Item> {
    if Admits(resp) then [ItemOf(p, resp)] else []
  }

  /** The category list the inventory service yields for `products`, in order. */
  function Filtered(products: seq<Product>, remote: Code -> Response): seq<Item> {
    if products == [] then []
    else
      var n := |products| - 1;
      Filtered(products[..n], remote) + Offer(products[n], remote(products[n].code))
  }

  /**
   * The fetched list is exactly the admitted products, each turned into its
   * item, in configuration order: `idx` names, for each result, the position
   * of the product it came from; positions increase, and every admitted
   * position is named.
   */
  lemma {:induction false} FilteredSelection(products: seq<Product>, remote: Code -> Response)
    returns (idx: seq<nat>)
    ensures |idx| == |Filtered(products, remote)|
    ensures forall k | 0 <= k < |idx| :: SelectedAt(products, remote, Filtered(products, remote), idx, k)
    ensures forall k, l | 0 <= k < l < |idx| :: idx[k] < idx[l]
    ensures forall j | 0 <= j < |products| && Admits(remote(products[j].code)) :: j in idx
  {
    if products == [] {
      idx := [];
    } else {
      var n := |products| - 1;
      var prefix := products[..n];
      var pre := FilteredSelection(prefix, remote);
      var r := Filtered(products, remote);
      var rp := Filtered(prefix, remote);
      var last := Offer(products[n], remote(products[n].code));
      assert r == rp + last;
      idx := if Admits(remote(products[n].code)) then pre + [n] else pre;
      forall k | 0 <= k < |idx| ensures SelectedAt(products, remote, r, idx, k) {
        if k < |pre| {
          assert SelectedAt(prefix, remote, rp, pre, k);
          assert prefix[pre[k]] == products[pre[k]];
          assert r[k] == rp[k] && idx[k] == pre[k];
        } else {
          assert r[k] == last[0] && idx[k] == n;
        }
      }
      forall k, l | 0 <= k < l < |idx| ensures idx[k] < idx[l] {
        if l == |pre| {
          assert SelectedAt(prefix, remote, rp, pre, k);
        }
      }
      forall j | 0 <= j < |products| && Admits(remote(products[j].code)) ensures j in idx {
        if j < n {
          assert prefix[j] == products[j];
          assert j in pre;
        }
      }
    }
  }

  /** Result `k` is the item of the admitted product at position `idx[k]`. */
  predicate SelectedAt(products: seq<Product>, remote: Code -> Response, r: seq<Item>, idx: seq<nat>, k: nat)
    requires k < |idx| && |idx| == |r|
  {
    && idx[k] < |products|
    && Admits(remote(products[idx[k]].code))
    && r[k] == ItemOf(products[idx[k]], remote(products[idx[k]].code))
  }

  /** Every fetched item is in stock (quantity at least 1). */
  lemma FilteredInStock(products: seq<Product>, remote: Code -> Response)
    ensures InStock(Filtered(products, remote))
  {
    var r := Filtered(products, remote);
    var idx := FilteredSelection(products, remote);
    forall k | 0 <= k < |r| ensures r[k].quantity > 0 {
      assert SelectedAt(products, remote, r, idx, k);
    }
  }

  /** Distinct configured codes give a fetched list without repeated codes. */
  lemma FilteredDistinct(products: seq<Product>, remote: Code -> Response)
    requires DistinctProductCodes(products)
    ensures DistinctItemCodes(Filtered(products, remote))
  {
    var r := Filtered(products, remote);
    var idx := FilteredSelection(products, remote);
    forall k, l | 0 <= k < l < |r| ensures r[k].code != r[l].code {
      assert SelectedAt(products, remote, r, idx, k);
      assert SelectedAt(products, remote, r, idx, l);
    }
  }

  /** Each fetched item carries the code and name of a configured product. */
  lemma FilteredFromProducts(products: seq<Product>, remote: Code -> Response)
    ensures forall it | it in Filtered(products, remote) :: Product(it.code, it.name) in products
  {
    var r := Filtered(products, remote);
    var idx := FilteredSelection(products, remote);
    forall it | it in r ensures Product(it.code, it.name) in products {
      var k :| 0 <= k < |r| && r[k] == it;
      assert SelectedAt(products, remote, r, idx, k);
      assert products[idx[k]] == Product(it.code, it.name);
    }
  }

  /**
   * A configured product is in the fetched list exactly when the service's
   * answer for its code is admitted.
   */
  lemma FilteredMembership(products: seq<Product>, remote: Code -> Response, j: nat)
    requires j < |products| && DistinctProductCodes(products)
    ensures (exists k | 0 <= k < |Filtered(products, remote)| :: Filtered(products, remote)[k].code == products[j].code)
            <==> Admits(remote(products[j].code))
  {
    var r := Filtered(products, remote);
    var idx := FilteredSelection(products, remote);
    if Admits(remote(products[j].code)) {
      assert j in idx;
      var k :| 0 <= k < |idx| && idx[k] == j;
      assert SelectedAt(products, remote, r, idx, k);
      assert r[k].code == products[j].code;
    } else {
      forall k | 0 <= k < |r| ensures r[k].code != products[j].code {
        assert SelectedAt(products, remote, r, idx, k);
        assert idx[k] != j;
      }
    }
  }

  /**
   * The loop of the inventory fetch: one lookup per configured code, skipping
   * failed lookups, empty answers and non-positive stock, never stopping early.
   */
  method FetchCategory(products: seq<Product>, remote: Code -> Response) returns (items: seq<Item>)
    ensures items == Filtered(products, remote)
  {
    items := [];
    var i := 0;
    while i < |products|
      invariant 0 <= i <= |products|
      invariant items == Filtered(products[..i], remote)
    {
      var p := products[i];
      var resp := remote(p.code);
      if resp.status == 200 && |resp.rows| > 0 {
        var row := resp.rows[0];
        var stock := row.stock.GetOr(0);
        if stock > 0 {
          var price := 0;
          if |row.salePrices| > 0 {
            price := row.salePrices[0].GetOr(0) / 100;
          }
          items := items + [Item(p.name, price, stock, p.code)];
        }
      }
      assert products[..i + 1][..i] == products[..i];
      i := i + 1;
    }
    assert products[..i] == products;
  }
}
