/** The page-level state holder: the cart, the active main tab and the active
    sub-filter, the user events that change them, and the values the page
    derives from them (the visible products and the badge). */
module Page {
  import opened Catalog
  import opened Cart
  import Navbar

  /** The state the page keeps between events. */
  datatype PageState = PageState(cart: seq<CartItem>, tab: ProductType, sub: SubFilter)

  /** A fresh session: an empty cart, the cookie tab, no category restriction. */
  const Initial: PageState := PageState([], Cookie, All)

  /** The user intents that reach the page. */
  datatype Event =
    | NavbarTab(tab: ProductType)             // a tab button in the header
    | FooterTab(tab: ProductType)             // a menu link in the footer
    | PickSubFilter(sub: SubFilter)           // Todos / Clássicos / Recheados
    | AddProduct(product: Product)            // a product card's add button
    | ChangeQuantity(id: string, delta: int)  // a quantity button in the cart

  /** The effect of one event on the page state. */
  function Step(s: PageState, e: Event): (t: PageState)
    ensures e.NavbarTab? ==> t.tab == e.tab && t.sub == All && t.cart == s.cart
    ensures e.FooterTab? ==> t.tab == e.tab && t.sub == s.sub && t.cart == s.cart
    ensures e.PickSubFilter? ==> t.tab == s.tab && t.sub == e.sub && t.cart == s.cart
    ensures e.AddProduct? || e.ChangeQuantity? ==> t.tab == s.tab && t.sub == s.sub
  {
    match e
    case NavbarTab(tab) => s.(tab := tab, sub := All)
    case FooterTab(tab) => s.(tab := tab)
    case PickSubFilter(sub) => s.(sub := sub)
    case AddProduct(p) => s.(cart := AddToCart(s.cart, p))
    case ChangeQuantity(id, delta) => s.(cart := UpdateQuantity(s.cart, id, delta))
  }

  /** The state after a sequence of events, applied in order. */
  function Run(s: PageState, events: seq<Event>): PageState
  {
    if |events| == 0 then s else Step(Run(s, events[..|events| - 1]), events[|events| - 1])
  }

  /** The number on the cart badge. */
  function CartCount(s: PageState): int
  {
    Count(s.cart)
  }

  /** The products on screen for a catalog. */
  function Shown(s: PageState, catalog: seq<Product>): seq<Product>
  {
    FilteredProducts(catalog, s.tab, s.sub)
  }

  /** Every event keeps the cart valid. */
  lemma StepValid(s: PageState, e: Event)
    requires Valid(s.cart)
    ensures Valid(Step(s, e).cart)
  {
    match e
    case AddProduct(p) => AddToCartValid(s.cart, p);
    case ChangeQuantity(id, delta) => UpdateQuantityValid(s.cart, id, delta);
    case _ =>
  }

  /** Any sequence of events keeps the cart valid. */
  lemma {:induction false} RunValid(s: PageState, events: seq<Event>)
    requires Valid(s.cart)
    ensures Valid(Run(s, events).cart)
    decreases |events|
  {
    if |events| > 0 {
      RunValid(s, events[..|events| - 1]);
      StepValid(Run(s, events[..|events| - 1]), events[|events| - 1]);
    }
  }

  /** In every state a session can reach, the cart has unique ids and positive
      quantities, and the badge is drawn exactly when the cart has a line. */
  lemma Reachable(events: seq<Event>)
    ensures Valid(Run(Initial, events).cart)
    ensures Navbar.ShowBadge(CartCount(Run(Initial, events))) <==> |Run(Initial, events).cart| > 0
  {
    RunValid(Initial, events);
    BadgeIffNonEmpty(Run(Initial, events).cart);
  }

  /** For a cart of positive lines, the badge is drawn exactly when the cart has a line. */
  lemma BadgeIffNonEmpty(cart: seq<CartItem>)
    requires AllPositive(cart)
    ensures Navbar.ShowBadge(Count(cart)) <==> |cart| > 0
  {
    CountBounds(cart);
  }

  /** In a reachable state, one more add raises the badge number by one. */
  lemma AddRaisesBadge(events: seq<Event>, p: Product)
    ensures CartCount(Run(Initial, events + [AddProduct(p)])) == CartCount(Run(Initial, events)) + 1
  {
    RunValid(Initial, events);
    assert (events + [AddProduct(p)])[..|events|] == events;
    AddToCartCount(Run(Initial, events).cart, p);
  }

  /** The header's tab buttons select the tab and reset the sub-filter, so the
      new tab shows every one of its products, in catalog order. */
  lemma NavbarTabShowsWholeType(s: PageState, tab: ProductType, catalog: seq<Product>)
    ensures Step(s, NavbarTab(tab)) == PageState(s.cart, tab, All)
    ensures Shown(Step(s, NavbarTab(tab)), catalog) == FilterByType(catalog, tab)
  {
    AllShowsWholeType(catalog, tab);
  }

  /** The footer's menu links select the tab but keep the sub-filter, so the new
      tab shows only those of its products that the old sub-filter admits. */
  lemma FooterTabKeepsSubFilter(s: PageState, tab: ProductType, catalog: seq<Product>)
    ensures Step(s, FooterTab(tab)) == PageState(s.cart, tab, s.sub)
    ensures forall p :: p in Shown(Step(s, FooterTab(tab)), catalog)
                        <==> p in catalog && p.kind == tab && Admits(s.sub, p.category)
  {
    FilteredProductsSpec(catalog, tab, s.sub);
  }

  /** The sub-filter buttons narrow the current tab to one category, or lift the
      restriction, without touching the tab or the cart. */
  lemma SubFilterButtons(s: PageState, sub: SubFilter, catalog: seq<Product>)
    ensures Step(s, PickSubFilter(sub)) == PageState(s.cart, s.tab, sub)
    ensures forall p :: p in Shown(Step(s, PickSubFilter(sub)), catalog)
                        <==> p in catalog && p.kind == s.tab && Admits(sub, p.category)
  {
    FilteredProductsSpec(catalog, s.tab, sub);
  }
}
