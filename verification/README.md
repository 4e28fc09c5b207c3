# Doceline storefront: page state model

A Dafny model of the page-level logic of the Doceline bakery storefront, a
single-page shop for cookies and brownies. The page holds four pieces of
state, of which the model keeps three: the cart (an ordered list of lines,
each a product and a quantity), the active main tab (cookie or brownie) and
the active sub-filter (all, clássico or recheado). The model covers:

- the cart reducer: `addToCart` merges a product into the line with the same id
  or appends a new line of quantity one, and `updateQuantity` applies a signed
  change to the line with an id, clamps the result at zero and then removes
  every line left at zero;
- the badge number, the sum of the line quantities folded from the left;
- the two-stage catalog filter: first by the main tab, then by the sub-filter,
  where `All` places no restriction on the category;
- the tab and sub-filter handlers: the header's tab buttons reset the
  sub-filter, the footer's menu links do not;
- the header's derived display state: open exactly when `10 <= hour < 22`, the
  `Aberto`/`Fechado` label, and a badge drawn only for a positive count.

Modules: `Catalog` (catalog.dfy) holds products and the filter. `Cart`
(cart.dfy) holds the reducer and the count. `Navbar` (navbar.dfy) holds the
status and badge display logic. `Page` (page.dfy) holds the page state, the
events and what the page derives from them.

The cart invariant, `Cart.Valid`, says ids are unique and every quantity is at
least one. Both operations keep it, so every state a session can reach
satisfies it (`Page.Reachable`). The properties that need it are stated under
it. `AddToCart` merges into every line carrying the id, as the source's `map`
does, and `AddToCartExisting` shows that under the invariant this is exactly
one line.

The catalog constant lives in a file that is not part of this model, so the
catalog is an input sequence. The hour of day is an input in `0..23`, because
the clock and the once-a-minute timer are not modelled.

The header's tab buttons set the main tab and reset the sub-filter to `All`
(App.tsx:47-50). The footer's menu links (App.tsx:118-119) set the main tab
alone and keep the sub-filter, so after a footer link the new tab can still be
narrowed to one category. `Page.NavbarTabShowsWholeType` and
`Page.FooterTabKeepsSubFilter` state the two behaviours.

## Model

| member | source | states |
|---|---|---|
| Cart.AddToCart | App.tsx:16-23 | If the id is in the cart, the length is unchanged, every line keeps its product, lines with the id gain exactly one unit and every other line is untouched. If the id is absent, the old cart is kept as a prefix and one line of quantity one is appended. Either way the id is in the result. |
| Cart.Increment | App.tsx:20 | The merge keeps the length and every line's product, and a line changes exactly when it carries the id, in which case it gains exactly one unit. |
| Cart.AddToCartExisting | App.tsx:18-20 | With unique ids, adding a product already in the cart increments exactly that line by one; every other line and the order stay the same. |
| Cart.AddTwice | App.tsx:16-23 | Adding a product twice to a cart that lacks it yields the old cart plus one line of quantity two. |
| Cart.AddToCartValid | App.tsx:16-22 | Adding keeps ids unique and quantities positive. |
| Cart.AddToCartCount | App.tsx:16-23 | With unique ids, the count after adding is exactly one more than before. |
| Cart.IncrementCount | App.tsx:20 | The merge raises the count by the number of lines that carry the id. |
| Cart.UniqueOccursOnce | App.tsx:18 | With unique ids, an id that is in the cart is on exactly one line. |
| Cart.Clamp | App.tsx:30 | The new quantity is the larger of zero and `quantity + delta`: never negative, never below `quantity + delta`, and equal to one of the two. |
| Cart.Adjust | App.tsx:28-33 | The mapped cart has the same length and products. Lines with other ids are untouched, and a line with the id takes the larger of zero and `quantity + delta`. |
| Cart.Prune | App.tsx:34 | The filtered cart has only positive quantities, and a cart that already had only positive quantities is returned unchanged. |
| Cart.PruneMembership | App.tsx:34 | A line survives the filter exactly when it was in the cart with a positive quantity. |
| Cart.UpdateQuantity | App.tsx:27-35 | No line is left with quantity zero or less, whatever the cart and the change. |
| Cart.UpdateQuantityValid | App.tsx:27-35 | Updating keeps ids unique and quantities positive. |
| Cart.UpdateQuantityNoop | App.tsx:28-34 | For a cart of positive lines, an unknown id or a zero change returns the same cart. |
| Cart.UpdateQuantityTarget | App.tsx:28-34 | In a valid cart, if `quantity + delta` is positive the target line takes that quantity and nothing else changes. Otherwise the target line is cut out, the others keep their order, and no line with the id remains. |
| Cart.UpdateQuantityOthers | App.tsx:28-34 | The lines with other ids keep their quantities and their relative order. |
| Cart.UpdateQuantityCount | App.tsx:27-35 | In a valid cart, the count moves by exactly the clamped change of the target line. |
| Cart.Count | App.tsx:45 | The left fold of the quantities is at least the number of lines when every quantity is positive, and never negative when no quantity is. |
| Cart.CountAppend | App.tsx:45 | The count of two carts joined together is the sum of their counts. |
| Cart.CountBounds | App.tsx:45 | With positive quantities, the count is at least the number of lines, so it is positive exactly when the cart is not empty. |
| Catalog.FilterByType | App.tsx:38 | The first stage keeps only products of the active type and never grows the list. |
| Catalog.FilterByCategory | App.tsx:39 | The second stage keeps only products the sub-filter admits and never grows the list. |
| Catalog.FilteredProducts | App.tsx:37-39 | A product is in the shown list exactly when it is in the catalog, has the active type and passes the sub-filter, and the shown list keeps the catalog's order. |
| Catalog.FilteredIsSelect | App.tsx:37-39 | The two stages together equal a single pass over the catalog with the combined predicate. |
| Catalog.SelectMultiplicity | App.tsx:37-39 | The single pass keeps a product as often as the catalog holds it when the product matches, and never otherwise. |
| Catalog.SelectIsSubsequence | App.tsx:37-39 | The single pass keeps the catalog's order. |
| Catalog.FilteredProductsSpec | App.tsx:37-39 | A product is shown exactly when it is in the catalog, has the active type and passes the sub-filter. It is shown as often as it occurs in the catalog, and the shown list is an order-preserving subsequence of the catalog. |
| Catalog.AllShowsWholeType | App.tsx:39 | With the sub-filter `All`, the page shows every product of the active type. |
| Catalog.EmptyStateExactly | App.tsx:91 | The empty-category message appears exactly when no catalog product matches both filters. |
| Page.Step | App.tsx:10-139 | Each event changes only its own part of the page state. The header tab sets the tab and resets the sub-filter, the footer tab sets only the tab, a sub-filter button sets only the sub-filter, and cart events leave both selectors alone. |
| Page.StepValid | App.tsx:16-35 | Every event keeps the cart valid. |
| Page.RunValid | App.tsx:16-35 | Any sequence of events from a valid cart keeps the cart valid. |
| Page.Reachable | App.tsx:11-45 | From a fresh session, every reachable cart has unique ids and positive quantities, and its badge is drawn exactly when it has a line. |
| Page.BadgeIffNonEmpty | components/Navbar.tsx:102-106 | For a cart of positive lines, the badge is drawn exactly when the cart has at least one line. |
| Page.AddRaisesBadge | App.tsx:45 | In any reachable state, adding a product raises the badge number by exactly one. |
| Page.NavbarTabShowsWholeType | App.tsx:47-50 | The header's tab change sets the tab, resets the sub-filter to `All`, keeps the cart, and shows every product of the new tab. |
| Page.FooterTabKeepsSubFilter | App.tsx:118-119 | The footer's tab change sets the tab, keeps the sub-filter and the cart, and shows exactly the new tab's products that the old sub-filter admits. |
| Page.SubFilterButtons | App.tsx:66-83 | A sub-filter button sets the sub-filter alone, and the page then shows exactly the active tab's products in that category, or all of them for `All`. |
| Navbar.IsOpen | components/Navbar.tsx:17-18 | The shop is open exactly for the hours 10 to 21, listed one by one. |
| Navbar.Boundaries | components/Navbar.tsx:18 | Hour 10 is open and hour 9 is closed. Hour 21 is open, and hours 22 and 23 are closed. |
| Navbar.HourText | components/Navbar.tsx:52 | An hour from 10 to 99 is printed as two decimal digits whose value is that hour. |
| Navbar.RangeTextInjective | components/Navbar.tsx:52 | Two printed hour ranges are the same text only when they name the same opening and closing hours. |
| Navbar.SignAgreesWithStatus | components/Navbar.tsx:52 | The printed hours `10h-22h` are the rendering of the opening and closing hours the status uses, and whatever range reads as that text, the status says open exactly inside it. |
| Navbar.LabelAtHour | components/Navbar.tsx:90 | At a given hour the label reads `Aberto` exactly when `10 <= hour < 22`, and `Fechado` otherwise. |

## Left out

- JSX markup, styling, images, the heading text and `window.scrollTo`: these are presentation only.
- The `isCartOpen` flag: `addToCart` also opens the cart drawer, and the header's cart button toggles it. It is UI state with no effect on the cart or the filter.
- The `Cart` and `WhatsAppButton` components: the `components/Cart` and `components/WhatsAppButton` modules are not part of this model. The quantity deltas that the cart drawer sends are taken as arbitrary integers.
- components/ProductCard.tsx: it renders a product and forwards its add button to `addToCart`, which the `AddProduct` event stands for. The price formatting there is floating-point.
- The `setInterval`/`clearInterval` timer and `new Date().getHours()`: they are clock I/O. The hour is an input, and the status is the value `checkStatus` computes for that hour.
- The green and amber colours of the status dot: presentation of the same open/closed value.
- The catalog constant and the product fields other than id, type and category: the `constants` and `types` modules are not part of this model, and name, description, price and image do not affect the logic.
- Cart.UpdateQuantity: quantities and deltas are JavaScript numbers, which are doubles. The model uses unbounded integers, so it does not cover non-integer, NaN or out-of-range deltas. Within integer counts the two agree.
- Cart.AddToCartExisting: the source finds a line with `find` and then increments every line with that id. Only with unique ids is that exactly one line, so the lemma assumes the invariant that every reachable cart keeps.
- The initial status: the header starts with `isOpen` false (components/Navbar.tsx:12), so for the moment before the first `checkStatus` it shows `Fechado` whatever the hour. The model gives the status that `checkStatus` computes.
- The recheck interval: the status is recomputed every 60 seconds (components/Navbar.tsx:22), so the label can lag the clock by up to a minute around 10h and 22h. The model has no clock and computes the status for the given hour.
