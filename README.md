# Furniture-shop bot: catalog, cart and checkout core

This project models the logic at the centre of a Telegram bot that sells furniture. It leaves out the bot framework and the HTTP plumbing and keeps these parts:

- **Catalog fetch** (`get_products_from_api`). For each product code configured under a category, the bot asks the inventory service about it. It keeps the code only when:
  - the answer's status is 200;
  - the answer has at least one row;
  - the first row's stock is positive.

  The price is the first sale-price value floor-divided by 100, or 0 when there are no sale prices. Items keep the configured order.
- **Catalog cache** (`PRODUCT_CACHE`). The first fetch of a category stores its list. Later fetches return the stored list and do not ask the service again.
- **Code lookup** (`get_product_by_code`). It scans the categories in configuration order, fetching each one on the way. It returns the first item whose code matches, or nothing.
- **Cart store** (`USER_CARTS`). This one dict holds:
  - each user's cart, a list of codes where repetition is quantity, under the user's id;
  - the user's phone number under `id + "_phone"`.

  Add and increase append a code. Decrease and remove delete the first occurrence, and only when the cart holds it. Clear empties the cart. A shared contact stores the phone number.
- **Cart pricing** (the loops of `show_cart` and `send_request`). The pricer counts the codes in order of first occurrence. It resolves each code through the lookup, drops codes that do not resolve and adds up price times quantity.
- **Checkout** (`send_request`):
  - with no phone number, the user is asked for one;
  - with an empty cart, an alert is shown;
  - otherwise the priced request goes to the operator, and the cart is emptied exactly when the whole delivery succeeds: the message to the operator and then the confirmation to the user. If the order reaches the operator but the confirmation fails, the cart is kept.
- **Callback data**. Button data is routed by prefix. The code is taken as `data.split("_")[1]`.
- **Name search** (`handle_search_query`). It keeps every live item whose lower-cased name contains the lower-cased query, category by category.

The modules:

- `Catalog` (catalog.dfy): the configuration, the service's answers, the price rule and the filter `Filtered`, with the fetch loop `FetchCategory` proved against it.
- `Lookup` (lookup.dfy): the first-match lookup `Find`, the scanning loop `ScanItems`, lower-casing, substring search and `Matches`.
- `Cart` (cart.dfy): removal of the first occurrence, and the summary `SummaryOf` with its loop `Summarize`.
- `Pricing` (pricing.dfy): priced lines and totals, and their agreement with `CartValue`, the sum of unit price times occurrences.
- `Callback` (callback.dfy): `Split`/`Join`, and `Decode`/`Encode` of button data.
- `ShopState` (shop.dfy): the class `Shop`, which holds the cache and the store and has one method per handler.

The inventory service's answers are a parameter `remote: Code -> Response`, a snapshot of what the service would answer for each code. The list a lookup or search sees is `Catalogue(config, cache, Fetched(config, remote))`. It is built category by category from the cached list, or else from what a fetch yields now. The predicate `Extends` says that a method only adds fetch results to the cache and never changes a cached list. That is why a lookup's result can be stated against the cache as it was before the call.

The handlers are kept separate from how the bot wires them together. The lookup inside the pricing loop is a `ProductByCode` call. After an increase, a decrease or a removal (lines 167, 178 and 232), the bot calls `show_cart(callback.message)`. That message is the bot's own, so `from_user` there is the bot and not the user `u`. The bot's cart is always empty, so what the user sees is the refresh notice "♻️ Корзина обновлена.", not their cart. The model therefore has no `ShowCart(u)` after those handlers: `ShowCart` is the "🛍 Корзина" button handler alone. The store is typed: a key without `_` holds a cart, and a key with `_` holds a phone number. A user id is `str` of an integer and so never contains `_`.

## Model

| member | source | states |
|---|---|---|
| Catalog.Price | draft.py:65-68 | No sale prices gives 0; otherwise the result is the floor of the first sale price's value (0 when it has none) divided by 100 (`100*p <= v < 100*p + 100`) |
| Catalog.ProductsOfNamed | draft.py:51 | A configured category's lookup yields exactly its configured products, in order |
| Catalog.ProductsOfUnknown | draft.py:51 | An unconfigured category yields no products (`.get(category, {})`) |
| Catalog.ProductsOfDistinct | draft.py:51 | A category's codes never repeat, because they are the keys of a dict |
| Catalog.FilteredSelection | draft.py:53-69 | The fetch result consists of the admitted products (status 200, a row, positive stock), each at a strictly increasing position; every admitted product is selected, with its configured name, its stock and the price rule |
| Catalog.FilteredInStock | draft.py:62-64 | Every fetched item has positive stock |
| Catalog.FilteredDistinct | draft.py:53-69 | Fetched items have distinct codes when the configured codes are distinct |
| Catalog.FilteredFromProducts | draft.py:53-69 | Every fetched item is a configured (code, name) pair of the category |
| Catalog.FilteredMembership | draft.py:53-64 | A configured code appears in the fetch result if and only if the service's answer admits it |
| Catalog.FetchCategory | draft.py:50-69 | The fetch loop (skip with `continue`, append otherwise) computes `Filtered` |
| Lookup.FindSpec | draft.py:76-79 | The lookup finds nothing if and only if no item has the code; otherwise it finds the first such item |
| Lookup.FindAppend | draft.py:74-78 | Scanning a concatenation finds the first part's match, if any, and otherwise the second part's |
| Lookup.ScanItems | draft.py:76-78 | The early-return scan over one category's items computes `Find` |
| Lookup.Lower | draft.py:255-259 | Lower-casing keeps the length and lower-cases each character |
| Lookup.ContainsAt | draft.py:259 | `query in name` holds if and only if the query occurs at some position of the name |
| Lookup.MatchesSound | draft.py:259 | Every search result is one of the items and its lower-cased name contains the lower-cased query |
| Lookup.MatchesComplete | draft.py:259 | Every item whose name matches is among the results |
| Lookup.CaseIgnored | draft.py:259 | Lower-casing the query or the name beforehand does not change whether the name matches, since both sides are lower-cased before the `in` test |
| Lookup.MatchesAppend | draft.py:257-260 | Searching a concatenation gives the first part's matches followed by the second part's |
| Cart.IndexOf | draft.py:176 | The position `list.remove` deletes is that of the first occurrence of the code |
| Cart.RemoveFirst | draft.py:175-176 | As `cart.remove` after the `in` test (also lines 229-230): removing an absent code changes nothing; removing a present one deletes the copy at its first position `i` (no copy before `i`), keeps everything else in order, shortens the cart by one and takes exactly one copy of the code out of its multiset |
| Cart.Distinct | draft.py:134-136 | The codes of a cart once each, holding exactly the codes the cart holds |
| Cart.BumpEntries | draft.py:136 | Counting one more code adds 1 to that code's entry, or appends it with count 1, and changes no other entry |
| Cart.SummaryCounts | draft.py:134-136 | The summary lists each distinct code in order of first occurrence, with its number of occurrences |
| Cart.SummaryCodes | draft.py:134-136 | The codes of the summary are exactly the codes of the cart |
| Cart.Summarize | draft.py:134-136 | The counting loop (also lines 198-200) yields `SummaryOf`: each distinct code with its number of occurrences |
| Pricing.PricedPrefixStep | draft.py:142-147 | One more summary entry appends its line (none when the code does not resolve), and raises the total by unit price times quantity (0 when the code does not resolve) |
| Pricing.AddLine | draft.py:144-147 | The `if item:` step appends the entry's line and adds price times quantity when the code resolves, and changes nothing otherwise; the total stays the sum of the lines |
| Pricing.PricedLinesSound | draft.py:142-148 | Every line comes from a summary entry whose code resolves, with that item's name and price and `amount = price * qty` |
| Pricing.PricedLinesComplete | draft.py:143-144 | A summary code has a line if and only if the lookup resolves it |
| Pricing.TotalBump | draft.py:134-147 | One more occurrence of a code raises the total by its unit price when it resolves, and by 0 otherwise |
| Pricing.TotalIsCartValue | draft.py:134-147 | The total over the priced lines equals the sum of unit price over every code of the cart; unresolved codes add nothing |
| Callback.Split | draft.py:122 | `split` always yields at least one part, and more than one exactly when the separator occurs |
| Callback.SplitShape | draft.py:122 | `split` yields one part more than there are separators, and no part contains the separator |
| Callback.JoinSplit | draft.py:122 | Joining the parts of a split with the separator gives back the string |
| Callback.SplitJoin | draft.py:122 | Splitting a join of separator-free parts gives back the parts |
| Callback.FieldAfter | draft.py:122 | The second field of `word_rest` is the text up to the next `_` |
| Callback.Decode | draft.py:119-237 | Routing by the registered filters (lines 119, 161, 170, 181, 224, 234): each of add, increase, decrease and remove is chosen exactly when the data starts with its prefix, send-request and clear-cart exactly when the data equals their literal; the code of the four code actions is `split("_")[1]` |
| Callback.Encode | draft.py:150-157 | The data of every button (also `add_` at line 83) is routed to the handler of the action it was made for, whatever the code; `remove_<code>` data, for which no button is built in this file, reaches the remove handler likewise |
| Callback.DecodeAdd | draft.py:119-122 | `add_<code>` reaches the add handler with the code intact when the code has no `_` |
| Callback.DecodeIncrease | draft.py:161-164 | `increase_<code>` reaches the increase handler with the code intact when the code has no `_` |
| Callback.DecodeDecrease | draft.py:170-173 | `decrease_<code>` reaches the decrease handler with the code intact when the code has no `_` |
| Callback.DecodeRemove | draft.py:224-227 | `remove_<code>` reaches the remove handler with the code intact when the code has no `_` |
| Callback.DecodeEncode | draft.py:119-237 | Every button's data routes back to the action it was made for when codes have no `_` |
| Callback.AddTruncatesCode | draft.py:122 | A code containing `_` comes back cut at its first `_` |
| ShopState.PhoneKeySeparate | draft.py:103 | A phone key never equals a user's key, and different users have different phone keys |
| ShopState.CartWriteIsolated | draft.py:123 | Writing a user's cart sets that cart, changes no other cart and no phone number, and keeps the store typed |
| ShopState.PhoneWriteIsolated | draft.py:103 | Writing a phone number sets that user's number, changes no cart and no other user's number, and keeps the store typed |
| ShopState.ReachedGrows | draft.py:74-78 | A category the scan reached within the first `m` categories is reached within any longer prefix |
| ShopState.ExtendsKeepsReached | draft.py:40-71 | Further caching does not change which categories a scan for a code reaches |
| ShopState.ScanCaches | draft.py:73-79 | When the scan stops, at a hit or after the last category, every category before the hit is cached, and every newly cached category is one the scan reached |
| ShopState.LookupsAccumulate | draft.py:142-143 | Lookups in a row leave cached every category any of them reached, and cache no other new category |
| ShopState.LookupsSameCodes | draft.py:142-143 | What the lookups cache depends only on the set of codes looked up |
| ShopState.SummaryLookups | draft.py:134-143 | Looking up each summary code caches what looking up each cart code would |
| ShopState.ExtendsKeepsListing | draft.py:40-71 | Further caching does not change what the scan of the first `n` categories sees |
| ShopState.AllCachedEach | draft.py:257-258 | After the search loop over `n` categories, each of them is cached |
| ShopState.AllCachedExtends | draft.py:40-71 | Further caching keeps cached categories cached |
| ShopState.FetchStep | draft.py:257-258 | Fetching category `i` yields exactly the next block of the catalogue |
| ShopState.ScanStep | draft.py:74-78 | A hit in category `i` after misses in the earlier ones is the hit of the whole catalogue; a miss extends the miss |
| ShopState.FindInPrefix | draft.py:74-78 | A match among the first categories is the match of the full scan |
| ShopState.Shop.constructor | draft.py:26-29 | The shop starts with the configured categories, an empty cache and an empty store |
| ShopState.Shop.Fetch | draft.py:40-71 | A cached category returns its list and leaves the cache unchanged; otherwise the list is the filtered fetch and is stored under the category; the cache only grows by fetch results |
| ShopState.Shop.ProductByCode | draft.py:73-79 | The result is the first item with the code in the catalogue seen in configuration order, or None; the cache only gains fetch results and the carts are untouched; afterwards every category up to and including the one holding the first match (every category on a miss) is cached, and no other category was added |
| ShopState.Shop.ScanCategory | draft.py:75-78 | One round of the lookup: a hit is the catalogue-wide first match; a miss extends the miss by one category; category `i` is now cached along with all before it, and every newly cached category is one the scan reached |
| ShopState.Shop.Search | draft.py:253-260 | The results are exactly the matching items of the catalogue in category order, and every category ends up cached |
| ShopState.Shop.SearchCategory | draft.py:258-260 | One round of the search adds exactly the matches of the next category |
| ShopState.Shop.AddCode | draft.py:119-124 | Add, and increase at lines 161-166: the user's cart gains one copy of the code at the end; other carts, all phone numbers and the cache are unchanged |
| ShopState.Shop.RemoveCode | draft.py:170-177 | Decrease, and remove at lines 224-231: the user's cart loses the first copy of the code when it holds one and is unchanged otherwise; counts drop by one or stay; nothing else changes |
| ShopState.Shop.ClearCart | draft.py:234-237 | The user's cart becomes empty; the phone entry and every other cart are unchanged |
| ShopState.Shop.HasPhone | draft.py:184-186 | The checkout's `if not phone` test: it fails exactly when no number is stored under the phone key or the stored number is empty |
| ShopState.Shop.SavePhone | draft.py:99-103 | The user's phone number is stored, replacing any earlier one; carts and other numbers are unchanged |
| ShopState.Shop.PriceCart | draft.py:134-148 | The pricing of the cart view (also lines 198-213): the lines are the priced summary against the catalogue as it stood, and the total is their sum and equals the cart's value; afterwards the categories cached are exactly those the lookup of some cart code reached, on top of the earlier cache |
| ShopState.Shop.PriceEntry | draft.py:142-147 | One round of the pricing loop: the entry's line (if its code resolves) is appended, the total rises by unit price times quantity, and the categories this lookup reached join those already reached |
| ShopState.Shop.ShowCart | draft.py:126-158 | An empty cart gives the refresh notice and fetches nothing; otherwise the view holds the priced lines and the cart's value, and the categories newly cached are exactly those the lookup of some cart code reached |
| ShopState.Shop.SendRequest | draft.py:181-222 | With no (or an empty) phone number, the user is asked for one and nothing changes; with an empty cart, an alert is shown and nothing changes; otherwise the order carries the phone, lines and total, and the cart becomes empty if and only if both the message to the operator and the confirmation to the user succeeded (lines 216-219); on the priced path the categories newly cached are exactly those the lookup of some cart code reached |

## Left out

- Network I/O to the inventory service (URL, headers, token, JSON decoding, lines 44-58): each code's answer is the `remote` parameter. An answer the code cannot parse, or a request that raises, is not modelled.
- The service's answers are taken as fixed for the length of one handler. A change between two requests inside one handler is not modelled.
- `bot.send_message` and the confirmation message (lines 217-218) are foreign calls: the `sent` flag is whether the whole `try` block succeeded.
- Loading `data.env` and `products.json` (lines 13-27) is file I/O: the category table is the constructor's argument. `WellFormed` requires distinct category names and distinct codes per category, as the keys of the JSON object are.
- The aiogram dispatch and all rendering are UI:
  - keyboards;
  - message texts, including the formatted line texts;
  - the per-item listing of `show_products_by_category` (106-117) and of the search results (261-268);
  - the `/start` menu (86-97), the search prompt (240-242) and the bonus-bot link (244-251).
- Each handler is one atomic step. The interleaving of concurrent handlers at `await` points is concurrency and is not modelled.
- `int(stock)` and `int(value)` coercion of non-integer JSON numbers is not modelled: stock and prices are integers. This hides one case. A fractional stock between 0 and 1 (say 0.5) passes the `stock <= 0` test at line 63 and then becomes quantity 0 at line 69. Catalog.FilteredInStock therefore holds only under the integer reading. A missing `stock` counts as 0 and a missing `value` counts as 0, as in the source. A `null` stock, which would raise in the source, is not modelled.
- Lookup.LowerChar: lower-casing covers ASCII and the basic Russian alphabet (plus Ё). Python's full Unicode `str.lower` is library behaviour and is not modelled.
- Logging (lines 31-35, 221) is output only.
- ShopState.Shop.ShowCart and SendRequest: the view and the order hold the priced lines and the total, not the text built from them.
