# Storefront cart and catalog, modelled in Dafny

A model of the logic at the core of a small clothing storefront. The storefront loads its
products from a remote table, shows them filtered by category, keeps a cart, and hands the
order to WhatsApp as a pre-filled message link.

- `catalog.dfy` (module `Catalog`). The loader. Table rows whose fields may be missing are
  turned into `Product`s with the falsy defaults (`''`, `0`, `'Disponible'`, `'Autre'`, the
  first image's URL). A failed query gives the empty catalog. `GetCategories` returns the
  sorted distinct categories.
- `cart.dfy` (module `Cart`). The pure side of the cart store: the new cart that `addToCart`,
  `removeFromCart` and `updateQuantity` compute from the old one, and the `total` and
  `cartCount` folds. It also defines the invariant these handlers keep: at most one item per
  product id, and no quantity below 1.
- `catalog_view.dfy` (module `CatalogView`). `filteredProducts` for the selected category (the
  sentinel `"all"` shows everything) and the category list (distinct, non-empty, ascending).
- `checkout.dfy` (modules `Checkout`, `CheckoutExample`). The client details and their
  partial update. The order message is the greeting, one `- {q}x {nom} ({prix} DH)` line per
  item, the total, and the two client lines, joined by the literal three characters `%0A`.
  It is appended to the fixed `https://wa.me/212696044246?text=` prefix. Checkout is allowed
  only when both client fields are non-empty.
- `shop.dfy` (module `Shop`). The component's state as a class `ShopContent`: the selected
  category, the cart, whether the cart panel is open, the client details, and `saved`, the cart
  as last written to local storage. Each handler is a method that replaces these fields, as
  the component's state setters do.
- `string_order.dfy`, `decimal.dfy` and `wrappers.dfy` are supporting modules. They hold the
  default string order of `Array.prototype.sort`, `[...new Set(xs)]`, the decimal rendering of
  whole numbers in template literals, and `Option`.

Behaviour of the code that a reader might not expect, and that the model keeps:

- Only the literal `%0A` separators are inserted. Nothing else is percent-encoded: names,
  quantities and client text are copied into the URL unchanged (`src/app/ShopContent.tsx:125-130`).
  `Checkout.MessageEnding` and `CheckoutExample.ExampleOrder` show the client text arriving in
  the URL as typed.
- The defaults are `'Disponible'` for the availability and `'Autre'` for the category.
- Rows with a zero or negative price are kept. A zero or missing price becomes 0, and a negative
  price stays as it is.
- The cart is saved by an effect that runs after each change of the cart. The model keeps the
  saved copy in the field `saved`, which each cart-changing method sets to the new cart.

## Model

| member | source | states |
|---|---|---|
| Catalog.TextOr | src/lib/airtable.ts:30 | `field \|\| fallback` on a text field gives the field's value when it is present and non-empty, and the fallback when it is missing or empty; so it is empty only when the fallback is |
| Catalog.NumberOrZero | src/lib/airtable.ts:31 | `prix \|\| 0` equals the price when present and 0 when missing (a present 0 and a missing price both give 0) |
| Catalog.FirstImageUrl | src/lib/airtable.ts:27-32 | the image is the first attachment's url when the list is non-empty and that url exists, otherwise `''`; a non-empty image always comes from that url |
| Catalog.Normalise | src/lib/airtable.ts:25-35 | the product keeps the row's id; name and price are the row's values or `''` / 0; the image is the first attachment's url or `''`; availability and category are never empty, and each is either the row's value or the default |
| Catalog.AvailabilityDefault | src/lib/airtable.ts:33 | the availability is `'Disponible'` exactly when the row's is missing, empty or already `'Disponible'` |
| Catalog.CategoryDefault | src/lib/airtable.ts:34 | the category is `'Autre'` exactly when the row's is missing, empty or already `'Autre'` |
| Catalog.NormaliseAll | src/lib/airtable.ts:25-36 | one product per row, in row order, each the normalised row |
| Catalog.GetProducts | src/lib/airtable.ts:16-41 | a failed query yields `[]`; otherwise the rows normalised one by one, in order (so as many products as rows, with the rows' ids and fields), all with non-empty category and availability |
| Catalog.CategoryValues | src/lib/airtable.ts:45 | `products.map(p => p.categorie)`: same length, the i-th product's category at position i |
| Catalog.GetCategories | src/lib/airtable.ts:43-47 | strictly ascending (so no duplicates), no empty string, and holds exactly the categories of the loaded products; `[]` when the query fails |
| Catalog.NormaliseToRecord | src/lib/airtable.ts:25-36 | a product survives being written back as a full row and normalised again exactly when its availability and category are non-empty |
| Catalog.NormaliseIdempotent | src/lib/airtable.ts:25-36 | normalising an already normalised product changes nothing |
| StringOrder.LessIrreflexive | src/lib/airtable.ts:46 | no string sorts before itself under the default sort order |
| StringOrder.LessTransitive | src/lib/airtable.ts:46 | the default sort order is transitive |
| StringOrder.LessTotal | src/lib/airtable.ts:46 | any two different strings are ordered one way or the other |
| StringOrder.Less | src/lib/airtable.ts:46 | the default sort order, lexicographic on characters with a proper prefix first; LessIrreflexive, LessTransitive and LessTotal make it a strict total order |
| StringOrder.Insert | src/lib/airtable.ts:46 | inserting adds exactly one occurrence of the string (length and multiset) |
| StringOrder.Sort | src/lib/airtable.ts:46 | `sort()` returns a permutation of its input (same multiset) |
| StringOrder.InsertSorted | src/lib/airtable.ts:46 | inserting into an ascending list keeps it ascending |
| StringOrder.SortSorted | src/lib/airtable.ts:46 | the sorted list is ascending |
| StringOrder.Dedupe | src/lib/airtable.ts:45 | `[...new Set(xs)]` holds no string twice and holds exactly the strings of `xs` |
| StringOrder.UniqueSorted | src/lib/airtable.ts:45-46 | `[...new Set(xs)].sort()`; UniqueSortedSpec shows it is strictly ascending with exactly the strings of `xs`, and StrictlySortedUnique that it is the only such list |
| StringOrder.StrictlySortedDistinct | src/lib/airtable.ts:45-46 | a strictly ascending list holds no string twice, so the category list has no repeats |
| StringOrder.UniqueSortedSpec | src/lib/airtable.ts:45-46 | `[...new Set(xs)].sort()` is strictly ascending and holds exactly the strings of `xs` |
| StringOrder.StrictlySortedUnique | src/lib/airtable.ts:45-46 | two strictly ascending lists holding the same strings are equal, so the category list is fully determined by the set of categories |
| Decimal.NatToDecimal | src/app/ShopContent.tsx:126 | a non-negative whole number renders as a non-empty string of digits with no leading zero (only 0 starts with `0`), one digit exactly below 10 |
| Decimal.IntToDecimal | src/app/ShopContent.tsx:126 | a whole number renders with a leading `-` exactly when negative, and as its digits otherwise |
| Decimal.DecimalRoundTrip | src/app/ShopContent.tsx:126 | reading the rendered digits back gives the number |
| Decimal.IntToDecimalInjective | src/app/ShopContent.tsx:129 | different numbers render differently |
| Cart.AddToCart | src/app/ShopContent.tsx:339-350 | the length grows by one exactly when the id was absent; items keep their products in place; the product's id is in the result |
| Cart.AddIds | src/app/ShopContent.tsx:341-349 | after an add, the ids in the cart are the earlier ids plus the added product's |
| Cart.AddValid | src/app/ShopContent.tsx:339-350 | adding keeps ids unique and every quantity at least 1 |
| Cart.AddExisting | src/app/ShopContent.tsx:341-347 | adding a product already present adds 1 to that item's quantity and changes nothing else |
| Cart.AddNew | src/app/ShopContent.tsx:349 | adding an absent product appends it with quantity 1 after the unchanged earlier items |
| Cart.RepeatedAdd | src/app/ShopContent.tsx:339-350 | n adds (n >= 1) of a product absent from a valid cart leave one item for it, with quantity n, at the end |
| Cart.RemoveFromCart | src/app/ShopContent.tsx:354-356 | the result holds exactly the items of the cart whose id differs, and is no longer |
| Cart.RemoveDropsId | src/app/ShopContent.tsx:355 | no item with the removed id remains |
| Cart.RemoveAbsent | src/app/ShopContent.tsx:355 | removing an absent id is a no-op |
| Cart.RemoveValid | src/app/ShopContent.tsx:354-356 | removal keeps the cart invariant |
| Cart.RemoveAt | src/app/ShopContent.tsx:355 | on a cart with unique ids, removing the id at index k drops exactly that item and keeps the rest in order |
| Cart.RemoveAppend | src/app/ShopContent.tsx:355 | removal distributes over concatenation, so the kept items keep their relative order |
| Cart.UpdateQuantity | src/app/ShopContent.tsx:358-368 | a quantity of at most 0 is `removeFromCart`; a positive one keeps the length and every item's product in place |
| Cart.UpdateValid | src/app/ShopContent.tsx:358-368 | updating keeps the cart invariant |
| Cart.UpdateAt | src/app/ShopContent.tsx:363-367 | a positive quantity sets exactly the matching item's quantity, with no upper clamp |
| Cart.UpdateAbsent | src/app/ShopContent.tsx:358-368 | updating an absent id changes nothing, whatever the quantity |
| Cart.DecrementRequest | src/app/ShopContent.tsx:200 | the "-" button asks for at least 1, and for one less whenever the quantity is above 1 |
| Cart.DecrementKeepsItem | src/app/ShopContent.tsx:200 | the "-" button never removes an item: it keeps the length and sets `max(1, q - 1)` on that item |
| Cart.Total | src/app/ShopContent.tsx:122 | the sum of price x quantity over the items; TotalAppend, TotalReplace and the aggregate lemmas give its change under each handler |
| Cart.CartCount | src/app/ShopContent.tsx:379 | the sum of the quantities; CartCountAppend and the aggregate lemmas give its change under each handler, CartCountBounds its relation to the number of items |
| Cart.IncrementIsAdd | src/app/ShopContent.tsx:208 | the "+" button changes the cart exactly as adding the item's product again |
| Cart.TotalAppend | src/app/ShopContent.tsx:122 | the total of a concatenation is the sum of the totals |
| Cart.CartCountAppend | src/app/ShopContent.tsx:379 | the count of a concatenation is the sum of the counts |
| Cart.TotalReplace | src/app/ShopContent.tsx:122 | replacing one item changes the total by the difference of the two items' price x quantity, and the count by the difference of their quantities |
| Cart.OneMoreAggregates | src/app/ShopContent.tsx:122 | one more of an item raises the total by its price and the count by 1 |
| Cart.AddExistingAggregates | src/app/ShopContent.tsx:341-347 | adding a product already present raises the total by the stored item's price and the count by 1 |
| Cart.AddNewAggregates | src/app/ShopContent.tsx:349 | adding a new product raises the total by its price and the count by 1 |
| Cart.RemoveAggregates | src/app/ShopContent.tsx:354-356 | removing the item at k lowers the total by its price x quantity and the count by its quantity |
| Cart.UpdateAggregates | src/app/ShopContent.tsx:358-368 | setting a positive quantity q on the item at k replaces its amount by price x q in the total and its quantity by q in the count |
| Cart.CartCountBounds | src/app/ShopContent.tsx:379-396 | on a cart with quantities of at least 1 the count is at least the number of items, so the badge shows exactly when the cart is non-empty |
| Cart.RepeatedAddTotal | src/app/ShopContent.tsx:339-350 | n adds of a new product raise the total by n x its price and the count by n |
| CatalogView.InCategory | src/app/ShopContent.tsx:377 | the filter holds exactly the catalog's products of that category and is no longer than the catalog |
| CatalogView.FilteredProducts | src/app/ShopContent.tsx:374-377 | the sentinel `"all"` shows the catalog unchanged; any other selection shows exactly the products of that category |
| CatalogView.InCategoryAppend | src/app/ShopContent.tsx:377 | filtering distributes over concatenation (relative order preserved) |
| CatalogView.InCategoryAll | src/app/ShopContent.tsx:377 | a catalog wholly in the category is shown unchanged |
| CatalogView.InCategorySubsequence | src/app/ShopContent.tsx:377 | the filtered view is a subsequence of the catalog |
| CatalogView.NonEmpty | src/app/ShopContent.tsx:320 | `.filter(Boolean)` keeps exactly the non-empty strings |
| CatalogView.Categories | src/app/ShopContent.tsx:320 | the category list is strictly ascending, duplicate-free, has no empty string, and holds exactly the non-empty categories of the products |
| CatalogView.CategoriesUnique | src/app/ShopContent.tsx:320 | any strictly ascending list of exactly those categories is the category list |
| CatalogView.CategoriesOfLoadedCatalog | src/app/ShopContent.tsx:320 | for a loaded catalog the displayed category list equals `getCategories` |
| Checkout.UpdateClientInfo | src/app/ShopContent.tsx:370-372 | each field is the supplied value when supplied, the previous value otherwise |
| Checkout.UpdateClientInfoIdempotent | src/app/ShopContent.tsx:370-372 | applying a patch twice equals applying it once; an empty patch changes nothing |
| Checkout.ItemLine | src/app/ShopContent.tsx:126 | the line of one item; MessageItemLine places it in the message and ExampleOrder shows its text for a concrete item |
| Checkout.ItemLines | src/app/ShopContent.tsx:125-127 | one line per cart item, the i-th line for the i-th item |
| Checkout.Join | src/app/ShopContent.tsx:127 | `lines.join(sep)`; JoinAt gives where each line and separator stands and OffsetsIncrease that the lines keep their order |
| Checkout.JoinAt | src/app/ShopContent.tsx:127 | in `lines.join(sep)` line i stands at its offset, followed by the separator unless it is last, and the last line ends the text |
| Checkout.OffsetsIncrease | src/app/ShopContent.tsx:125-127 | a later line starts after an earlier one ends |
| Checkout.Message | src/app/ShopContent.tsx:129 | the order text; MessageItemLine, MessageEnding and FooterDeterminesTotal give where the item lines, the total and the client details stand in it |
| Checkout.MessageItemLine | src/app/ShopContent.tsx:125-129 | the i-th item's line stands in the message after the greeting and the lines of the earlier items |
| Checkout.MessageEnding | src/app/ShopContent.tsx:129-130 | the message, and the URL, end with the footer, whose last part is `%0AMa localisation : ` and the location exactly as typed |
| Checkout.FooterDeterminesTotal | src/app/ShopContent.tsx:129 | equal footers come from equal totals |
| Checkout.WhatsAppUrl | src/app/ShopContent.tsx:130 | the URL is the fixed `wa.me` prefix followed by the message, unchanged |
| Checkout.CheckoutEnabled | src/app/ShopContent.tsx:256 | the button is enabled exactly when both client fields are non-empty; ShopContent.WhatsAppCheckout produces a link only then |
| Checkout.CheckoutVisible | src/app/ShopContent.tsx:229 | the checkout controls are shown exactly when the panel is open (line 136) and the cart is non-empty; ShopContent.WhatsAppCheckout produces a link only then |
| CheckoutExample.ExampleOrder | src/app/ShopContent.tsx:124-130 | two jackets at 500 DH for Ali Ben in Casablanca give the line `- 2x Veste (500 DH)`, a total of 1000 DH, and the client text with its space left as is |
| Shop.ShopContent.constructor | src/app/ShopContent.tsx:314-317 | first render: category `"all"`, an empty closed cart, empty client fields |
| Shop.ShopContent.AddToCart | src/app/ShopContent.tsx:339-352 | the cart becomes `addToCart` of the old one and is saved, the panel opens, the invariant holds, and nothing else changes |
| Shop.ShopContent.RemoveFromCart | src/app/ShopContent.tsx:354-356 | the cart becomes `removeFromCart` of the old one and is saved; the invariant holds and nothing else changes |
| Shop.ShopContent.UpdateQuantity | src/app/ShopContent.tsx:358-368 | the cart becomes `updateQuantity` of the old one (removal for q <= 0) and is saved; the invariant holds and nothing else changes |
| Shop.ShopContent.UpdateClientInfo | src/app/ShopContent.tsx:370-372 | the client details become the merge of the old ones with the patch; nothing else changes |
| Shop.ShopContent.SelectCategory | src/app/ShopContent.tsx:275-305 | the selected category becomes the button's value; nothing else changes |
| Shop.ShopContent.SetCartOpen | src/app/ShopContent.tsx:384-397 | the panel opens or closes; nothing else changes |
| Shop.ShopContent.Total | src/app/ShopContent.tsx:122 | the panel total is the cart total of the current cart |
| Shop.ShopContent.CartCount | src/app/ShopContent.tsx:379-396 | the badge count is at least the number of items when no quantity is below 1 (which Valid guarantees), so the badge shows exactly when the cart has items |
| Shop.ShopContent.FilteredProducts | src/app/ShopContent.tsx:374-377 | the grid shows the whole catalog for `"all"`, and otherwise exactly the catalog products of the selected category |
| Shop.ShopContent.Categories | src/app/ShopContent.tsx:320 | the category buttons are the catalog's category list, strictly ascending with exactly its non-empty categories (CatalogView.Categories) |
| Shop.ShopContent.WhatsAppCheckout | src/app/ShopContent.tsx:124-132 | a link is produced exactly when the panel is open, the cart is non-empty and both client fields are filled (lines 136, 229, 256), and it is the WhatsApp URL of the cart and client |

## Left out

- The remote table client is not modelled: the `Airtable` setup, the environment variables, and the `select(...).all()` query, including its `{Nom} != ''` filter. Only its outcome is modelled, as `FetchOutcome`: the rows, or a failure. The failure's diagnostic log line is not modelled either.
- Loading the cart from local storage on mount is not modelled, because it is JSON parsing in browser storage. This covers the `JSON.parse` call and its caught failure. Saving is modelled only as the `saved` field, not as JSON text.
- Rendering and animation are not modelled. This covers the product card's mouse-tilt math (floating point), the framer-motion effects, and the JSX markup. `src/app/layout.tsx` and `src/app/page.tsx` are not part of this model; they hold no cart or catalog logic.
- `window.open` is not modelled: `WhatsAppCheckout` returns the link it would open.
- Product prices, quantities and totals are modelled as whole numbers. JavaScript numbers are floating point: fractional prices, rounding, `NaN`, and the exponent notation that `${n}` uses from 1e21 up are not modelled.
- The string order is lexicographic on Dafny characters (Unicode scalar values). JavaScript's default sort compares UTF-16 code units. The two agree except for characters outside the Basic Multilingual Plane, compared with characters from U+E000 to U+FFFF.
- Fields of the wrong JavaScript type (a number in `nom`, say) are not modelled: each field of `RawRecord` holds its declared type or is absent. Likewise, a `Partial<ClientInfo>` key given with the value `undefined` is modelled as an absent key.
- The cart holds product values. JavaScript holds references to the same product objects. Products are never mutated after loading, so this makes no difference.
