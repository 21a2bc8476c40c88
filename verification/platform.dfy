/** The hosted commerce platform, abstracted to what the storefront's cart code
    can observe: carts by id, the signed-in customer's active cart, products,
    and a log of every cart request that reached it. Applying cart actions to
    line items is the platform's business; the model records the actions and
    bumps the cart version. */
module Platform {
  import opened Common

  datatype LineItem = LineItem(id: string, productId: string, variantId: Option<int>, quantity: int)

  /** A discount applied directly to the cart. */
  datatype DirectDiscount = DirectDiscount(id: string, value: int, target: string)

  /** The expanded discount-code object: its code and the English name and
      description, when present. */
  datatype DiscountCodeObj = DiscountCodeObj(code: string, nameEn: Option<string>, descriptionEn: Option<string>)

  /** A discount code attached to the cart, with its reference possibly expanded. */
  datatype DiscountCodeInfo = DiscountCodeInfo(id: string, obj: Option<DiscountCodeObj>, state: string)

  datatype Cart = Cart(
    id: string,
    version: int,
    lineItems: seq<LineItem>,
    directDiscounts: Option<seq<DirectDiscount>>,
    discountCodes: Option<seq<DiscountCodeInfo>>,
    totalCent: int,
    currency: string,
    taxedNetCent: Option<int>,
    anonymousId: Option<string>)

  datatype Availability = Availability(availableQuantity: Option<int>, isOnStock: Option<bool>)
  datatype Variant = Variant(id: int, availability: Option<Availability>)
  datatype ProductData = ProductData(masterVariant: Variant, variants: Option<seq<Variant>>)

  /** A product; `current` is its published projection, when there is one. */
  datatype Product = Product(current: Option<ProductData>)

  /** The two ways the storefront addresses carts: through the signed-in
      customer's `me().carts()` or through the anonymous `carts()` endpoint. */
  datatype Route = MeCarts | AnonCarts

  datatype CartAction =
    | AddLineItem(productId: string, quantity: int)
    | RemoveLineItem(lineItemId: string, removeQuantity: Option<int>)
    | ChangeLineItemQuantity(lineItemId: string, quantity: int)
    | AddDiscountCode(code: string)
    | RemoveDiscountCode(typeId: string, discountCodeId: string)

  /** One posted cart update, as sent. */
  datatype Update = Update(route: Route, cartId: string, version: int, actions: seq<CartAction>)

  datatype CartDraft = CartDraft(currency: string, country: string, anonymousId: Option<string>)

  /** The platform. `down` makes every call reject with `failure`; an unknown
      id or a stale version is rejected with `failure` too. */
  datatype Store = Store(
    carts: map<string, Cart>,
    active: Option<string>,
    products: map<string, Product>,
    updates: seq<Update>,
    drafts: seq<(Route, CartDraft)>,
    down: bool,
    failure: Thrown)

  /** Every cart is stored under its own id. */
  predicate IdsMatch(s: Store) {
    forall k :: k in s.carts ==> s.carts[k].id == k
  }

  /** GET `me().activeCart()`. */
  function ActiveCart(s: Store): (r: Call<Cart>)
    ensures r.Returns? <==> !s.down && s.active.Some? && s.active.value in s.carts
    ensures r.Returns? ==> r.value == s.carts[s.active.value]
    ensures r.Throws? ==> r.error == s.failure
  {
    if !s.down && s.active.Some? && s.active.value in s.carts then Returns(s.carts[s.active.value])
    else Throws(s.failure)
  }

  /** GET `carts().withId(id)`. */
  function CartById(s: Store, id: string): (r: Call<Cart>)
    ensures r.Returns? <==> !s.down && id in s.carts
    ensures r.Returns? ==> r.value == s.carts[id]
    ensures r.Throws? ==> r.error == s.failure
  {
    if !s.down && id in s.carts then Returns(s.carts[id]) else Throws(s.failure)
  }

  /** GET `products().withId(id)`. */
  function ProductById(s: Store, id: string): (r: Call<Product>)
    ensures r.Returns? <==> !s.down && id in s.products
    ensures r.Returns? ==> r.value == s.products[id]
  {
    if !s.down && id in s.products then Returns(s.products[id]) else Throws(s.failure)
  }

  /** POST a cart update. The request is logged whether or not it is
      accepted; an accepted update on the current version bumps it. */
  function PostUpdate(s: Store, u: Update): (r: (Store, Call<Cart>))
    ensures IdsMatch(s) ==> IdsMatch(r.0)
    ensures r.0 == s.(updates := s.updates + [u], carts := r.0.carts)
    ensures r.1.Returns? <==> !s.down && u.cartId in s.carts && s.carts[u.cartId].version == u.version
    ensures r.1.Returns? ==>
      r.1.value == s.carts[u.cartId].(version := u.version + 1)
      && r.0.carts == s.carts[u.cartId := r.1.value]
    ensures r.1.Throws? ==> r.0.carts == s.carts && r.1.error == s.failure
  {
    var logged := s.(updates := s.updates + [u]);
    if !s.down && u.cartId in s.carts && s.carts[u.cartId].version == u.version then
      var c := s.carts[u.cartId].(version := u.version + 1);
      (logged.(carts := s.carts[u.cartId := c]), Returns(c))
    else (logged, Throws(s.failure))
  }

  /** The id the platform gives the n-th cart created through the storefront. */
  function NewCartId(n: nat): string {
    "cart-" + NatToString(n)
  }

  /** POST a cart draft. The new cart is empty at version 1; created through
      `me().carts()` it becomes the customer's active cart. */
  function PostDraft(s: Store, route: Route, d: CartDraft): (r: (Store, Call<Cart>))
    ensures IdsMatch(s) ==> IdsMatch(r.0)
    ensures r.0.drafts == s.drafts + [(route, d)]
    ensures r.0.updates == s.updates && r.0.products == s.products
    ensures r.0.down == s.down && r.0.failure == s.failure
    ensures r.1.Returns? <==> !s.down && NewCartId(|s.drafts|) !in s.carts
    ensures r.1.Returns? ==>
      && r.1.value.id == NewCartId(|s.drafts|)
      && r.1.value.lineItems == []
      && r.1.value.anonymousId == d.anonymousId
      && r.0.carts == s.carts[r.1.value.id := r.1.value]
      && r.0.active == (if route == MeCarts then Some(r.1.value.id) else s.active)
    ensures r.1.Throws? ==> r.0.carts == s.carts && r.0.active == s.active
  {
    var logged := s.(drafts := s.drafts + [(route, d)]);
    var id := NewCartId(|s.drafts|);
    if !s.down && id !in s.carts then
      var c := Cart(id, 1, [], Some([]), Some([]), 0, d.currency, None, d.anonymousId);
      var active := if route == MeCarts then Some(id) else s.active;
      (logged.(carts := s.carts[id := c], active := active), Returns(c))
    else (logged, Throws(s.failure))
  }
}
