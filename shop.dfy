/**
 * The bot's shared state and the handlers that read and change it: the
 * per-category catalog cache, and the one dict that holds every user's cart
 * under the user's id and the user's phone number under `id + "_phone"`.
 * Each handler is one atomic step; the inventory service's answers are the
 * `remote` parameter and the operator delivery's outcome is the `sent` flag.
 */
module ShopState {
  import opened Wrappers
  import opened Catalog
  import opened Lookup
  import opened Cart
  import opened Pricing

  /** A user's key in the store: `str(user.id)`, which never contains `_`. */
  type UserId = s: string | '_' !in s

  /** The key under which the user's phone number is stored. */
  function PhoneKey(u: UserId): string {
    u + "_phone"
  }

  /** Phone keys never coincide with a user's own key, nor with each other. */
  lemma PhoneKeySeparate(u: UserId, v: UserId)
    ensures PhoneKey(v) != u
    ensures PhoneKey(u) == PhoneKey(v) ==> u == v
  {
    assert PhoneKey(v)[|v|] == '_';
    if PhoneKey(u) == PhoneKey(v) {
      assert |u| == |v|;
      assert u == PhoneKey(u)[..|u|] && v == PhoneKey(v)[..|v|];
    }
  }

  /** A value of the store: a cart's code list or a phone number. */
  datatype Slot = Codes(codes: seq<Code>) | PhoneNumber(phone: string)

  /** User keys hold code lists; phone keys (those with `_`) hold numbers. */
  predicate SlotsTyped(store: map<string, Slot>) {
    forall k | k in store :: store[k].Codes? <==> '_' !in k
  }

  /** What fetching each category from the inventory service yields now. */
  function Fetched(config: seq<Category>, remote: Code -> Response): string -> seq<Item> {
    category => Filtered(ProductsOf(config, category), remote)
  }

  /**
   * What a lookup sees for `category`: the cached list when there is one, or
   * else the list fetching it yields (`source`).
   */
  function Live(cache: map<string, seq<Item>>, source: string -> seq<Item>, category: string): seq<Item> {
    if category in cache then cache[category] else source(category)
  }

  /** The items of the first `n` categories, one category after the other. */
  function Listing(config: seq<Category>, n: nat, cache: map<string, seq<Item>>,
                   source: string -> seq<Item>): seq<Item>
    requires n <= |config|
  {
    if n == 0 then []
    else Listing(config, n - 1, cache, source) + Live(cache, source, config[n - 1].name)
  }

  /** The whole catalogue that lookups and searches scan. */
  function Catalogue(config: seq<Category>, cache: map<string, seq<Item>>,
                     source: string -> seq<Item>): seq<Item>
  {
    Listing(config, |config|, cache, source)
  }

  /**
   * `cache'` is `cache` with further categories filled in from `source`: old
   * entries are kept as they were, new ones are that category's fetch.
   */
  predicate Extends(cache: map<string, seq<Item>>, cache': map<string, seq<Item>>, source: string -> seq<Item>) {
    && (forall k | k in cache :: k in cache' && cache'[k] == cache[k])
    && (forall k | k in cache' && k !in cache :: cache'[k] == source(k))
  }

  lemma ExtendsTransitive(c0: map<string, seq<Item>>, c1: map<string, seq<Item>>,
                          c2: map<string, seq<Item>>, source: string -> seq<Item>)
    requires Extends(c0, c1, source) && Extends(c1, c2, source)
    ensures Extends(c0, c2, source)
  {
  }

  /** A category's live list is the same before and after the cache is filled further. */
  lemma ExtendsKeepsLive(cache: map<string, seq<Item>>, cache': map<string, seq<Item>>,
                         source: string -> seq<Item>, category: string)
    requires Extends(cache, cache', source)
    ensures Live(cache', source, category) == Live(cache, source, category)
  {
  }

  /** Filling the cache from the same inventory changes no category's list. */
  lemma {:induction false} ExtendsKeepsListing(config: seq<Category>, cache: map<string, seq<Item>>,
                                               cache': map<string, seq<Item>>, source: string -> seq<Item>, n: nat)
    requires n <= |config| && Extends(cache, cache', source)
    ensures Listing(config, n, cache', source) == Listing(config, n, cache, source)
  {
    if n > 0 {
      ExtendsKeepsListing(config, cache, cache', source, n - 1);
      ExtendsKeepsLive(cache, cache', source, config[n - 1].name);
    }
  }

  /** The first `n` categories all have a cached list. */
  predicate AllCached(config: seq<Category>, n: nat, cache: map<string, seq<Item>>)
    requires n <= |config|
  {
    n == 0 || (config[n - 1].name in cache && AllCached(config, n - 1, cache))
  }

  /** A cache holding the first `n` categories holds each of them. */
  lemma {:induction false} AllCachedEach(config: seq<Category>, n: nat, cache: map<string, seq<Item>>)
    requires n <= |config| && AllCached(config, n, cache)
    ensures forall j | 0 <= j < n :: config[j].name in cache
  {
    if n > 0 {
      AllCachedEach(config, n - 1, cache);
    }
  }

  /** Filling the cache further keeps the first `n` categories cached. */
  lemma {:induction false} AllCachedExtends(config: seq<Category>, n: nat, cache: map<string, seq<Item>>,
                                            cache': map<string, seq<Item>>, source: string -> seq<Item>)
    requires n <= |config| && AllCached(config, n, cache) && Extends(cache, cache', source)
    ensures AllCached(config, n, cache')
  {
    if n > 0 {
      AllCachedExtends(config, n - 1, cache, cache', source);
    }
  }

  /**
   * Fetching category `i` into a cache that extends `start` yields its live
   * list, which extends the listing by one category, and keeps the cache an
   * extension of `start`.
   */
  lemma FetchStep(config: seq<Category>, start: map<string, seq<Item>>, before: map<string, seq<Item>>,
                  after: map<string, seq<Item>>, source: string -> seq<Item>, i: nat, items: seq<Item>)
    requires i < |config|
    requires Extends(start, before, source) && Extends(before, after, source)
    requires items == Live(before, source, config[i].name)
    ensures Listing(config, i + 1, start, source) == Listing(config, i, start, source) + items
    ensures Extends(start, after, source)
  {
    ExtendsKeepsLive(start, before, source, config[i].name);
    ExtendsTransitive(start, before, after, source);
  }

  /**
   * Scanning category `i` after a miss in the first `i`: a hit there is the
   * hit of the whole catalogue, a miss extends the miss to `i + 1`.
   */
  lemma ScanStep(config: seq<Category>, cache: map<string, seq<Item>>, source: string -> seq<Item>,
                 i: nat, items: seq<Item>, code: Code)
    requires i < |config| && Find(Listing(config, i, cache, source), code) == None
    requires items == Live(cache, source, config[i].name)
    ensures Find(Listing(config, i + 1, cache, source), code) == Find(items, code)
    ensures Find(items, code).Some? ==> Find(items, code) == Find(Catalogue(config, cache, source), code)
  {
    FindAppend(Listing(config, i, cache, source), items, code);
    if Find(items, code).Some? {
      FindInPrefix(config, i + 1, |config|, cache, source, code);
    }
  }

  /** A match among the first `m` categories is the match of the whole scan. */
  lemma {:induction false} FindInPrefix(config: seq<Category>, m: nat, n: nat, cache: map<string, seq<Item>>,
                                        source: string -> seq<Item>, code: Code)
    requires m <= n <= |config|
    requires Find(Listing(config, m, cache, source), code).Some?
    ensures Find(Listing(config, n, cache, source), code) == Find(Listing(config, m, cache, source), code)
    decreases n
  {
    if n > m {
      FindInPrefix(config, m, n - 1, cache, source, code);
      FindAppend(Listing(config, n - 1, cache, source), Live(cache, source, config[n - 1].name), code);
    }
  }

  /**
   * `k` names one of the first `n` categories that the scan for `code` reaches,
   * that is, one whose predecessors do not hold the code.
   */
  predicate Reached(config: seq<Category>, n: nat, cache: map<string, seq<Item>>,
                    source: string -> seq<Item>, code: Code, k: string)
    requires n <= |config|
  {
    && n > 0
    && ((config[n - 1].name == k && Find(Listing(config, n - 1, cache, source), code).None?)
        || Reached(config, n - 1, cache, source, code, k))
  }

  /** A category reached among the first `m` is reached among the first `n`. */
  lemma {:induction false} ReachedGrows(config: seq<Category>, m: nat, n: nat, cache: map<string, seq<Item>>,
                                        source: string -> seq<Item>, code: Code, k: string)
    requires m <= n <= |config| && Reached(config, m, cache, source, code, k)
    ensures Reached(config, n, cache, source, code, k)
    decreases n
  {
    if n > m {
      ReachedGrows(config, m, n - 1, cache, source, code, k);
    }
  }

  /** Further caching does not change which categories a scan reaches. */
  lemma {:induction false} ExtendsKeepsReached(config: seq<Category>, n: nat, cache: map<string, seq<Item>>,
                                               cache': map<string, seq<Item>>, source: string -> seq<Item>,
                                               code: Code, k: string)
    requires n <= |config| && Extends(cache, cache', source)
    ensures Reached(config, n, cache', source, code, k) == Reached(config, n, cache, source, code, k)
  {
    if n > 0 {
      ExtendsKeepsReached(config, n - 1, cache, cache', source, code, k);
      ExtendsKeepsListing(config, cache, cache', source, n - 1);
    }
  }

  /**
   * Each lookup of a code of `codes` against `base` left every category it
   * reached cached in `cache`.
   */
  predicate CoversLookups(config: seq<Category>, base: map<string, seq<Item>>, cache: map<string, seq<Item>>,
                          source: string -> seq<Item>, codes: seq<Code>)
  {
    forall c, j | c in codes && 0 <= j < |config| && Find(Listing(config, j, base, source), c).None? ::
      config[j].name in cache
  }

  /** Every category `cache` holds beyond `base` was reached by a lookup of a code of `codes`. */
  predicate OnlyLookups(config: seq<Category>, base: map<string, seq<Item>>, cache: map<string, seq<Item>>,
                        source: string -> seq<Item>, codes: seq<Code>)
  {
    forall k | k in cache && k !in base :: exists c | c in codes :: Reached(config, |config|, base, source, c, k)
  }

  /**
   * The end of a scan for `code` that stopped after `h` categories, at a hit
   * or at the end: it cached exactly the categories it reached.
   */
  lemma ScanCaches(config: seq<Category>, h: nat, base: map<string, seq<Item>>, cache: map<string, seq<Item>>,
                   source: string -> seq<Item>, code: Code)
    requires h <= |config| && AllCached(config, h, cache)
    requires h == |config| || Find(Listing(config, h, base, source), code).Some?
    requires forall k | k in cache && k !in base :: Reached(config, h, base, source, code, k)
    ensures CoversLookups(config, base, cache, source, [code])
    ensures OnlyLookups(config, base, cache, source, [code])
  {
    AllCachedEach(config, h, cache);
    forall j | h <= j < |config| ensures Find(Listing(config, j, base, source), code).Some? {
      FindInPrefix(config, h, j, base, source, code);
    }
    forall k | k in cache && k !in base ensures exists c | c in [code] :: Reached(config, |config|, base, source, c, k) {
      ReachedGrows(config, h, |config|, base, source, code, k);
      assert code in [code];
    }
  }

  /**
   * One more lookup, of `c` against the cache `mid` that earlier lookups
   * against `base` left: together they cover and explain `codes + [c]`.
   */
  lemma LookupsAccumulate(config: seq<Category>, base: map<string, seq<Item>>, mid: map<string, seq<Item>>,
                          cache: map<string, seq<Item>>, source: string -> seq<Item>, codes: seq<Code>, c: Code)
    requires Extends(base, mid, source) && Extends(mid, cache, source)
    requires CoversLookups(config, base, mid, source, codes) && OnlyLookups(config, base, mid, source, codes)
    requires CoversLookups(config, mid, cache, source, [c]) && OnlyLookups(config, mid, cache, source, [c])
    ensures CoversLookups(config, base, cache, source, codes + [c])
    ensures OnlyLookups(config, base, cache, source, codes + [c])
  {
    forall j | 0 <= j <= |config| ensures Listing(config, j, mid, source) == Listing(config, j, base, source) {
      ExtendsKeepsListing(config, base, mid, source, j);
    }
    forall k | k in cache && k !in base
      ensures exists d | d in codes + [c] :: Reached(config, |config|, base, source, d, k)
    {
      if k in mid {
        var d :| d in codes && Reached(config, |config|, base, source, d, k);
        assert d in codes + [c];
      } else {
        assert c in [c];
        ExtendsKeepsReached(config, |config|, base, mid, source, c, k);
        assert c in codes + [c];
      }
    }
  }

  /** The two lookup facts depend only on which codes were looked up. */
  lemma LookupsSameCodes(config: seq<Category>, base: map<string, seq<Item>>, cache: map<string, seq<Item>>,
                         source: string -> seq<Item>, codes: seq<Code>, codes': seq<Code>)
    requires forall c :: c in codes <==> c in codes'
    requires CoversLookups(config, base, cache, source, codes) && OnlyLookups(config, base, cache, source, codes)
    ensures CoversLookups(config, base, cache, source, codes') && OnlyLookups(config, base, cache, source, codes')
  {
    forall k | k in cache && k !in base
      ensures exists c | c in codes' :: Reached(config, |config|, base, source, c, k)
    {
      var c :| c in codes && Reached(config, |config|, base, source, c, k);
      assert c in codes';
    }
  }

  /** The codes of a summary's first `i + 1` entries extend those of its first `i`. */
  lemma KeysPrefixStep(summary: seq<Tally>, i: nat)
    requires i < |summary|
    ensures Keys(summary)[..i + 1] == Keys(summary)[..i] + [summary[i].code]
  {
  }

  /** Looking up every code of a cart's summary is looking up every code of the cart. */
  lemma SummaryLookups(config: seq<Category>, base: map<string, seq<Item>>, cache: map<string, seq<Item>>,
                       source: string -> seq<Item>, cart: seq<Code>, summary: seq<Tally>)
    requires |summary| == |Distinct(cart)|
    requires forall i | 0 <= i < |summary| ::
      summary[i] == Tally(Distinct(cart)[i], multiset(cart)[Distinct(cart)[i]])
    requires CoversLookups(config, base, cache, source, Keys(summary)[..|summary|])
    requires OnlyLookups(config, base, cache, source, Keys(summary)[..|summary|])
    ensures CoversLookups(config, base, cache, source, cart)
    ensures OnlyLookups(config, base, cache, source, cart)
  {
    assert Keys(summary)[..|summary|] == Keys(summary);
    SummaryCodes(cart, summary);
    LookupsSameCodes(config, base, cache, source, Keys(summary), cart);
  }

  /**
   * Every cached list is a fetch result: all in stock, no repeated code, each
   * item a product configured under that category.
   */
  predicate CacheSound(config: seq<Category>, cache: map<string, seq<Item>>) {
    forall k | k in cache :: SoundList(config, k, cache[k])
  }

  predicate SoundList(config: seq<Category>, category: string, items: seq<Item>) {
    && InStock(items)
    && DistinctItemCodes(items)
    && forall it | it in items :: Product(it.code, it.name) in ProductsOf(config, category)
  }

  /** The user's cart in `store`; an unknown user has the empty cart. */
  function CartIn(store: map<string, Slot>, u: UserId): seq<Code> {
    if u in store && store[u].Codes? then store[u].codes else []
  }

  /** The user's stored phone number in `store`, if any. */
  function PhoneIn(store: map<string, Slot>, u: UserId): Option<string> {
    var k := PhoneKey(u);
    if k in store && store[k].PhoneNumber? then Some(store[k].phone) else None
  }

  /**
   * Writing a user's cart entry touches no other user's cart and no phone
   * number, and keeps user keys holding carts.
   */
  lemma CartWriteIsolated(store: map<string, Slot>, u: UserId, codes: seq<Code>)
    ensures CartIn(store[u := Codes(codes)], u) == codes
    ensures forall v: UserId | v != u :: CartIn(store[u := Codes(codes)], v) == CartIn(store, v)
    ensures forall v: UserId :: PhoneIn(store[u := Codes(codes)], v) == PhoneIn(store, v)
    ensures SlotsTyped(store) ==> SlotsTyped(store[u := Codes(codes)])
  {
    forall v: UserId ensures PhoneKey(v) != u {
      PhoneKeySeparate(u, v);
    }
  }

  /**
   * Writing a user's phone entry touches no cart and no other user's phone
   * number, and keeps phone keys holding numbers.
   */
  lemma PhoneWriteIsolated(store: map<string, Slot>, u: UserId, phone: string)
    ensures PhoneIn(store[PhoneKey(u) := PhoneNumber(phone)], u) == Some(phone)
    ensures forall v: UserId | v != u ::
      PhoneIn(store[PhoneKey(u) := PhoneNumber(phone)], v) == PhoneIn(store, v)
    ensures forall v: UserId :: CartIn(store[PhoneKey(u) := PhoneNumber(phone)], v) == CartIn(store, v)
    ensures SlotsTyped(store) ==> SlotsTyped(store[PhoneKey(u) := PhoneNumber(phone)])
  {
    assert PhoneKey(u)[|u|] == '_';
    forall v: UserId ensures PhoneKey(u) != v && (v != u ==> PhoneKey(v) != PhoneKey(u)) {
      PhoneKeySeparate(v, u);
    }
  }

  /** The reply to "show my cart". */
  datatype CartView = Refreshed | Itemized(lines: seq<Line>, total: int)

  /** The request delivered to the operator. */
  datatype Order = Order(phone: string, lines: seq<Line>, total: int)

  /** The outcome of the manual-request checkout. */
  datatype Checkout = AskForPhone | EmptyCartAlert | Sent(order: Order) | SendFailed(order: Order)

  class Shop {
    /** The category table, in configuration order. */
    const config: seq<Category>
    /** `PRODUCT_CACHE`: category to the list fetched for it. */
    var cache: map<string, seq<Item>>
    /** `USER_CARTS`: carts under user keys, phone numbers under phone keys. */
    var store: map<string, Slot>

    ghost predicate Valid()
      reads this
    {
      WellFormed(config) && CacheSound(config, cache) && SlotsTyped(store)
    }

    constructor (config: seq<Category>)
      requires WellFormed(config)
      ensures Valid()
      ensures this.config == config && cache == map[] && store == map[]
    {
      this.config := config;
      cache := map[];
      store := map[];
    }

    /** The user's cart; an unknown user has the empty cart. */
    function CartOf(u: UserId): seq<Code>
      reads this
    {
      CartIn(store, u)
    }

    /** The stored phone number of the user, if any. */
    function PhoneOf(u: UserId): Option<string>
      reads this
    {
      PhoneIn(store, u)
    }

    /**
     * The checkout's phone test `if not phone`: it fails when the phone key is
     * missing and when the stored number is the empty text.
     */
    predicate HasPhone(u: UserId)
      reads this
      ensures Valid() ==> (HasPhone(u) <==> PhoneKey(u) in store && store[PhoneKey(u)] != PhoneNumber(""))
    {
      PhoneOf(u).Some? && PhoneOf(u).value != ""
    }

    /**
     * The state of the pricing loop: the cache is a consistent extension of
     * `start`, and it holds exactly the categories the lookups of `done` reached.
     */
    ghost predicate LookedUp(start: map<string, seq<Item>>, remote: Code -> Response, done: seq<Code>)
      reads this
    {
      && Valid()
      && Extends(start, cache, Fetched(config, remote))
      && CoversLookups(config, start, cache, Fetched(config, remote), done)
      && OnlyLookups(config, start, cache, Fetched(config, remote), done)
    }

    /**
     * A category's items: the cached list when there is one; otherwise the
     * fetch from the inventory service, which is then cached for good.
     */
    method Fetch(category: string, remote: Code -> Response) returns (items: seq<Item>)
      requires Valid()
      modifies this
      ensures Valid() && store == old(store)
      ensures items == Live(old(cache), Fetched(config, remote), category)
      ensures category in old(cache) ==> cache == old(cache)
      ensures category !in old(cache) ==> cache == old(cache)[category := items]
      ensures Extends(old(cache), cache, Fetched(config, remote))
    {
      if category in cache {
        return cache[category];
      }
      var products := ProductsOf(config, category);
      items := FetchCategory(products, remote);
      FilteredInStock(products, remote);
      ProductsOfDistinct(config, category);
      FilteredDistinct(products, remote);
      FilteredFromProducts(products, remote);
      cache := cache[category := items];
    }

    /**
     * The first live item with the code, scanning categories in configuration
     * order and fetching each category not yet cached on the way.
     */
    method ProductByCode(code: Code, remote: Code -> Response) returns (r: Option<Item>)
      requires Valid()
      modifies this
      ensures Valid() && store == old(store)
      ensures Extends(old(cache), cache, Fetched(config, remote))
      ensures r == Find(Catalogue(config, old(cache), Fetched(config, remote)), code)
      ensures CoversLookups(config, old(cache), cache, Fetched(config, remote), [code])
      ensures OnlyLookups(config, old(cache), cache, Fetched(config, remote), [code])
    {
      ghost var start := cache;
      for i := 0 to |config|
        invariant Valid() && store == old(store)
        invariant Extends(start, cache, Fetched(config, remote))
        invariant Find(Listing(config, i, start, Fetched(config, remote)), code) == None
        invariant AllCached(config, i, cache)
        invariant forall k | k in cache && k !in start :: Reached(config, i, start, Fetched(config, remote), code, k)
      {
        r := ScanCategory(i, code, remote, start);
        if r.Some? {
          ScanCaches(config, i + 1, start, cache, Fetched(config, remote), code);
          return;
        }
      }
      ScanCaches(config, |config|, start, cache, Fetched(config, remote), code);
      return None;
    }

    /** One round of the lookup: fetch category `i` and scan it for the code. */
    method ScanCategory(i: nat, code: Code, remote: Code -> Response, ghost start: map<string, seq<Item>>)
      returns (r: Option<Item>)
      requires Valid() && i < |config|
      requires Extends(start, cache, Fetched(config, remote))
      requires Find(Listing(config, i, start, Fetched(config, remote)), code) == None
      requires AllCached(config, i, cache)
      requires forall k | k in cache && k !in start :: Reached(config, i, start, Fetched(config, remote), code, k)
      modifies this
      ensures Valid() && store == old(store)
      ensures Extends(start, cache, Fetched(config, remote))
      ensures r == Find(Listing(config, i + 1, start, Fetched(config, remote)), code)
      ensures r.Some? ==> r == Find(Catalogue(config, start, Fetched(config, remote)), code)
      ensures config[i].name in cache && AllCached(config, i + 1, cache)
      ensures forall k | k in cache && k !in start :: Reached(config, i + 1, start, Fetched(config, remote), code, k)
    {
      ghost var before := cache;
      var items := Fetch(config[i].name, remote);
      ExtendsKeepsLive(start, before, Fetched(config, remote), config[i].name);
      ExtendsTransitive(start, before, cache, Fetched(config, remote));
      AllCachedExtends(config, i, before, cache, Fetched(config, remote));
      ScanStep(config, start, Fetched(config, remote), i, items, code);
      r := ScanItems(items, code);
    }

    /**
     * The name search: every live item whose lower-cased name contains the
     * lower-cased query, in category order; every category ends up cached.
     */
    method Search(query: string, remote: Code -> Response) returns (results: seq<Item>)
      requires Valid()
      modifies this
      ensures Valid() && store == old(store)
      ensures Extends(old(cache), cache, Fetched(config, remote))
      ensures forall i | 0 <= i < |config| :: config[i].name in cache
      ensures results == Matches(Catalogue(config, old(cache), Fetched(config, remote)), query)
    {
      ghost var start := cache;
      results := [];
      for i := 0 to |config|
        invariant Valid() && store == old(store)
        invariant Extends(start, cache, Fetched(config, remote))
        invariant AllCached(config, i, cache)
        invariant results == Matches(Listing(config, i, start, Fetched(config, remote)), query)
      {
        var found := SearchCategory(i, query, remote, start);
        results := results + found;
      }
      AllCachedEach(config, |config|, cache);
    }

    /** One round of the search: fetch category `i` and keep its matching items. */
    method SearchCategory(i: nat, query: string, remote: Code -> Response, ghost start: map<string, seq<Item>>)
      returns (found: seq<Item>)
      requires Valid() && i < |config|
      requires Extends(start, cache, Fetched(config, remote)) && AllCached(config, i, cache)
      modifies this
      ensures Valid() && store == old(store)
      ensures Extends(start, cache, Fetched(config, remote)) && AllCached(config, i + 1, cache)
      ensures Matches(Listing(config, i + 1, start, Fetched(config, remote)), query)
           == Matches(Listing(config, i, start, Fetched(config, remote)), query) + found
    {
      ghost var before := cache;
      var items := Fetch(config[i].name, remote);
      FetchStep(config, start, before, cache, Fetched(config, remote), i, items);
      AllCachedExtends(config, i, before, cache, Fetched(config, remote));
      MatchesAppend(Listing(config, i, start, Fetched(config, remote)), items, query);
      found := Matches(items, query);
    }

    /** `add_<code>` and `increase_<code>`: one more of `code` in the cart. */
    method AddCode(u: UserId, code: Code)
      requires Valid()
      modifies this
      ensures Valid() && cache == old(cache)
      ensures store == old(store)[u := Codes(old(CartOf(u)) + [code])]
      ensures multiset(CartOf(u)) == old(multiset(CartOf(u))) + multiset{code}
      ensures forall v: UserId | v != u :: CartOf(v) == old(CartOf(v))
      ensures forall v: UserId :: PhoneOf(v) == old(PhoneOf(v))
    {
      var cart := if u in store then store[u].codes else [];
      CartWriteIsolated(store, u, cart + [code]);
      store := store[u := Codes(cart + [code])];
    }

    /**
     * `decrease_<code>` and `remove_<code>`: one fewer of `code` when the cart
     * holds it; otherwise nothing changes.
     */
    method RemoveCode(u: UserId, code: Code)
      requires Valid()
      modifies this
      ensures Valid() && cache == old(cache)
      ensures store == if code in old(CartOf(u))
                       then old(store)[u := Codes(RemoveFirst(old(CartOf(u)), code))]
                       else old(store)
      ensures multiset(CartOf(u)) == old(multiset(CartOf(u))) - multiset{code}
      ensures forall v: UserId | v != u :: CartOf(v) == old(CartOf(v))
      ensures forall v: UserId :: PhoneOf(v) == old(PhoneOf(v))
    {
      var cart := if u in store then store[u].codes else [];
      if code in cart {
        CartWriteIsolated(store, u, RemoveFirst(cart, code));
        store := store[u := Codes(RemoveFirst(cart, code))];
      }
    }

    /** `clear_cart`: the cart becomes empty; the phone number stays. */
    method ClearCart(u: UserId)
      requires Valid()
      modifies this
      ensures Valid() && cache == old(cache)
      ensures store == old(store)[u := Codes([])]
      ensures CartOf(u) == []
      ensures PhoneKey(u) in store <==> PhoneKey(u) in old(store)
      ensures PhoneKey(u) in store ==> store[PhoneKey(u)] == old(store)[PhoneKey(u)]
      ensures forall v: UserId | v != u :: CartOf(v) == old(CartOf(v))
      ensures forall v: UserId :: PhoneOf(v) == old(PhoneOf(v))
    {
      CartWriteIsolated(store, u, []);
      PhoneKeySeparate(u, u);
      store := store[u := Codes([])];
    }

    /** A shared contact: the number is stored (replacing any earlier one). */
    method SavePhone(u: UserId, phone: string)
      requires Valid()
      modifies this
      ensures Valid() && cache == old(cache)
      ensures store == old(store)[PhoneKey(u) := PhoneNumber(phone)]
      ensures PhoneOf(u) == Some(phone)
      ensures forall v: UserId | v != u :: PhoneOf(v) == old(PhoneOf(v))
      ensures forall v: UserId :: CartOf(v) == old(CartOf(v))
    {
      PhoneWriteIsolated(store, u, phone);
      store := store[PhoneKey(u) := PhoneNumber(phone)];
    }

    /**
     * The pricing loop of the cart view and the checkout: summarize the codes,
     * resolve each through the code lookup, keep the lines that resolve and
     * add up price times quantity.
     */
    method PriceCart(cart: seq<Code>, remote: Code -> Response) returns (lines: seq<Line>, total: int)
      requires Valid()
      modifies this
      ensures Valid() && store == old(store)
      ensures Extends(old(cache), cache, Fetched(config, remote))
      ensures lines == PricedLines(SummaryOf(cart), Catalogue(config, old(cache), Fetched(config, remote)))
      ensures total == Total(lines)
      ensures total == CartValue(cart, Catalogue(config, old(cache), Fetched(config, remote)))
      ensures CoversLookups(config, old(cache), cache, Fetched(config, remote), cart)
      ensures OnlyLookups(config, old(cache), cache, Fetched(config, remote), cart)
    {
      ghost var start := cache;
      ghost var catalogue := Catalogue(config, start, Fetched(config, remote));
      var summary := Summarize(cart);
      lines, total := [], 0;
      ghost var done: seq<Code> := [];
      for i := 0 to |summary|
        invariant LookedUp(start, remote, done) && store == old(store)
        invariant done == Keys(summary)[..i]
        invariant lines == PricedLines(summary[..i], catalogue)
        invariant total == Total(lines)
      {
        lines, total := PriceEntry(summary[i], lines, total, remote, start, done);
        KeysPrefixStep(summary, i);
        done := done + [summary[i].code];
        PricedPrefixStep(summary, i, catalogue);
      }
      assert summary[..|summary|] == summary;
      SummaryLookups(config, start, cache, Fetched(config, remote), cart, summary);
      TotalIsCartValue(cart, catalogue);
    }

    /**
     * One round of the pricing loop: look up the entry's code against the
     * catalogue as it stood at `start` and, when it resolves, add its line and
     * price times quantity. The categories the lookup reaches join those the
     * lookups of the codes `done` reached.
     */
    method PriceEntry(t: Tally, lines: seq<Line>, total: int, remote: Code -> Response,
                      ghost start: map<string, seq<Item>>, ghost done: seq<Code>)
      returns (lines': seq<Line>, total': int)
      requires LookedUp(start, remote, done) && total == Total(lines)
      modifies this
      ensures LookedUp(start, remote, done + [t.code]) && store == old(store)
      ensures lines' == lines + LineFor(t, Catalogue(config, start, Fetched(config, remote)))
      ensures total' == Total(lines')
    {
      ghost var before := cache;
      var item := ProductByCode(t.code, remote);
      ExtendsKeepsListing(config, start, before, Fetched(config, remote), |config|);
      ExtendsTransitive(start, before, cache, Fetched(config, remote));
      LookupsAccumulate(config, start, before, cache, Fetched(config, remote), done, t.code);
      lines', total' := AddLine(t, item, lines, total, Catalogue(config, start, Fetched(config, remote)));
    }

    /** "Show my cart": a short notice for an empty cart, else the priced lines. */
    method ShowCart(u: UserId, remote: Code -> Response) returns (view: CartView)
      requires Valid()
      modifies this
      ensures Valid() && store == old(store)
      ensures Extends(old(cache), cache, Fetched(config, remote))
      ensures old(CartOf(u)) == [] ==> view == Refreshed && cache == old(cache)
      ensures old(CartOf(u)) != [] ==>
        var catalogue := Catalogue(config, old(cache), Fetched(config, remote));
        view == Itemized(PricedLines(SummaryOf(old(CartOf(u))), catalogue),
                         CartValue(old(CartOf(u)), catalogue))
      ensures old(CartOf(u)) != [] ==>
        && CoversLookups(config, old(cache), cache, Fetched(config, remote), old(CartOf(u)))
        && OnlyLookups(config, old(cache), cache, Fetched(config, remote), old(CartOf(u)))
    {
      var cart := CartOf(u);
      if cart == [] {
        return Refreshed;
      }
      var lines, total := PriceCart(cart, remote);
      view := Itemized(lines, total);
    }

    /**
     * `send_request`: without a phone number the user is asked for one;
     * with an empty cart an alert is shown; otherwise the priced request goes
     * to the operator and the cart is emptied exactly when `sent`, that is when
     * both the delivery and the confirmation to the user succeed.
     */
    method SendRequest(u: UserId, remote: Code -> Response, sent: bool) returns (outcome: Checkout)
      requires Valid()
      modifies this
      ensures Valid()
      ensures Extends(old(cache), cache, Fetched(config, remote))
      ensures !old(HasPhone(u)) ==> outcome == AskForPhone && unchanged(this)
      ensures old(HasPhone(u)) && old(CartOf(u)) == [] ==> outcome == EmptyCartAlert && unchanged(this)
      ensures old(HasPhone(u)) && old(CartOf(u)) != [] ==>
        var catalogue := Catalogue(config, old(cache), Fetched(config, remote));
        var order := Order(old(PhoneOf(u)).value, PricedLines(SummaryOf(old(CartOf(u))), catalogue),
                           CartValue(old(CartOf(u)), catalogue));
        && outcome == (if sent then Sent(order) else SendFailed(order))
        && store == (if sent then old(store)[u := Codes([])] else old(store))
        && (CartOf(u) == [] <==> sent)
      ensures old(HasPhone(u)) && old(CartOf(u)) != [] ==>
        && CoversLookups(config, old(cache), cache, Fetched(config, remote), old(CartOf(u)))
        && OnlyLookups(config, old(cache), cache, Fetched(config, remote), old(CartOf(u)))
    {
      if !HasPhone(u) {
        return AskForPhone;
      }
      var phone := PhoneOf(u).value;
      var cart := CartOf(u);
      if cart == [] {
        return EmptyCartAlert;
      }
      var lines, total := PriceCart(cart, remote);
      var order := Order(phone, lines, total);
      if sent {
        store := store[u := Codes([])];
        outcome := Sent(order);
      } else {
        outcome := SendFailed(order);
      }
    }
  }
}
