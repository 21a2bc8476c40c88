/** The read side of the cart coordinator: the stock check for a product
    variant, resolving the current cart, creating a cart, and the emptiness
    test. The browser's `localStorage` and the cart-change notification count
    travel with the platform in a `World`. */
module CartQueries {
  import opened Common
  import opened Platform

  /** The platform, the browser's `localStorage`, and how many times cart
      subscribers have been notified. */
  datatype World = World(store: Store, storage: map<string, string>, notified: nat)

  /** Whether the facade holds an authenticated root, and whether it believes
      a customer is signed in. */
  datatype Session = Session(hasRoot: bool, loginned: bool)

  const ANON_CART_KEY := "anonymousCartId"
  const UNKNOWN_ERROR := "Unknown error"

  /** `localStorage.getItem(key)`: null is None. */
  function GetItem(w: World, key: string): Option<string> {
    if key in w.storage then Some(w.storage[key]) else None
  }

  datatype AvailabilityResult = AvailabilityResult(available: bool, message: Option<string>, availableQuantity: Option<int>)

  function Unavailable(message: string): AvailabilityResult {
    AvailabilityResult(false, Some(message), None)
  }

  /** `variants.find(v => v.id === id)`: the first variant with that id. */
  function FindVariant(vs: seq<Variant>, id: int): (r: Option<Variant>)
    ensures r.Some? <==> exists i :: 0 <= i < |vs| && vs[i].id == id
    ensures r.Some? ==>
      exists i :: 0 <= i < |vs| && vs[i] == r.value && r.value.id == id && forall k :: 0 <= k < i ==> vs[k].id != id
  {
    if |vs| == 0 then None
    else if vs[0].id == id then Some(vs[0])
    else
      var r := FindVariant(vs[1..], id);
      if r.Some? then
        var i :| 0 <= i < |vs[1..]| && vs[1..][i] == r.value && r.value.id == id
          && forall k :: 0 <= k < i ==> vs[1..][k].id != id;
        assert vs[i + 1] == r.value;
        r
      else
        r
  }

  /** The variant the check looks at: the master variant when no truthy id is
      asked for or the master's own id is, otherwise the variant with that id. */
  function SelectVariant(pd: ProductData, variantId: Option<int>): (r: Option<Variant>)
    ensures !TruthyNum(variantId) ==> r == Some(pd.masterVariant)
    ensures variantId == Some(pd.masterVariant.id) ==> r == Some(pd.masterVariant)
    ensures r.Some? && r.value != pd.masterVariant ==> variantId.Some? && r.value.id == variantId.value
    ensures TruthyNum(variantId) && variantId.value != pd.masterVariant.id ==>
      (r.Some? <==> exists i :: 0 <= i < |pd.variants.GetOr([])| && pd.variants.GetOr([])[i].id == variantId.value)
  {
    if variantId == Some(pd.masterVariant.id) || !TruthyNum(variantId) then Some(pd.masterVariant)
    else FindVariant(pd.variants.GetOr([]), variantId.value)
  }

  /** The quantity the stock check compares against: a missing count is 0. */
  function StockOf(a: Availability): int {
    a.availableQuantity.GetOr(0)
  }

  /** The variant the check of `productId` would inspect, when the product is
      readable, published and has that variant. */
  function Inspected(s: Store, productId: string, variantId: Option<int>): Option<Variant> {
    if !s.down && productId in s.products && s.products[productId].current.Some? then
      SelectVariant(s.products[productId].current.value, variantId)
    else None
  }

  /** `checkItemAvailability`. The requested quantity is optional because a
      caller may pass `undefined`, against which no stock count compares as
      smaller. */
  function CheckItemAvailability(s: Store, productId: string, requested: Option<int>, variantId: Option<int>): (r: AvailabilityResult)
    ensures r.available <==>
      var v := Inspected(s, productId, variantId);
      && v.Some? && v.value.availability.Some?
      && v.value.availability.value.isOnStock == Some(true)
      && (requested.None? || requested.value <= StockOf(v.value.availability.value))
    ensures r.available ==>
      r.message.None? && r.availableQuantity == Some(StockOf(Inspected(s, productId, variantId).value.availability.value))
    ensures !r.available ==> r.message.Some?
    ensures ProductById(s, productId).Throws? ==> r == Unavailable("Availability check failed")
    ensures ProductById(s, productId).Returns? && ProductById(s, productId).value.current.None? ==>
      r == Unavailable("Product not found")
    ensures var p := ProductById(s, productId);
      p.Returns? && p.value.current.Some? && Inspected(s, productId, variantId).None? ==>
        r == Unavailable("Variant not found")
    ensures var v := Inspected(s, productId, variantId);
      v.Some? && v.value.availability.None? ==> r == Unavailable("Availability data not available")
    ensures var v := Inspected(s, productId, variantId);
      v.Some? && v.value.availability.Some? && v.value.availability.value.isOnStock != Some(true) ==>
        r == Unavailable("Product is out of stock")
    ensures var v := Inspected(s, productId, variantId);
      v.Some? && v.value.availability.Some? && v.value.availability.value.isOnStock == Some(true)
      && requested.Some? && StockOf(v.value.availability.value) < requested.value ==>
        var q := StockOf(v.value.availability.value);
        r == AvailabilityResult(false, Some("Only " + IntToString(q) + " items available"), Some(q))
  {
    match ProductById(s, productId)
    case Throws(_) => Unavailable("Availability check failed")
    case Returns(product) =>
      if product.current.None? then Unavailable("Product not found")
      else
        var variant := SelectVariant(product.current.value, variantId);
        if variant.None? then Unavailable("Variant not found")
        else if variant.value.availability.None? then Unavailable("Availability data not available")
        else
          var availability := variant.value.availability.value;
          var qty := availability.availableQuantity.GetOr(0);
          var onStock := availability.isOnStock.GetOr(false);
          if !onStock then Unavailable("Product is out of stock")
          else if requested.Some? && qty < requested.value then
            AvailabilityResult(false, Some("Only " + IntToString(qty) + " items available"), Some(qty))
          else AvailabilityResult(true, None, Some(qty))
  }

  /** The read `getCart` issues, if any. */
  datatype CartRead = ReadActive | ReadById(id: string)

  /** `getCart`: the active cart when authenticated; otherwise the cart whose
      id is stored under `anonymousCartId`, and no request at all when that id
      is missing or empty. */
  function GetCart(w: World, sess: Session): (r: (Option<CartRead>, Envelope<Cart>))
    ensures r.1.success <==> r.1.response.Some?
    ensures sess.hasRoot ==> r.0 == Some(ReadActive)
    ensures !sess.hasRoot && !Truthy(GetItem(w, ANON_CART_KEY)) ==>
      r == (None, Failure("No active cart found"))
    ensures !sess.hasRoot && Truthy(GetItem(w, ANON_CART_KEY)) ==>
      r.0 == Some(ReadById(w.storage[ANON_CART_KEY]))
    ensures r.0 == Some(ReadActive) ==>
      match ActiveCart(w.store)
      case Returns(c) => r.1 == Envelope(Some(c), true, "Active cart retrieved")
      case Throws(e) => r.1 == Failure(MessageOr(e, UNKNOWN_ERROR))
    ensures r.0.Some? && r.0.value.ReadById? ==>
      match CartById(w.store, r.0.value.id)
      case Returns(c) => r.1 == Envelope(Some(c), true, "Anonymous cart retrieved")
      case Throws(e) => r.1 == Failure(MessageOr(e, UNKNOWN_ERROR))
  {
    if sess.hasRoot then
      match ActiveCart(w.store)
      case Returns(c) => (Some(ReadActive), Envelope(Some(c), true, "Active cart retrieved"))
      case Throws(e) => (Some(ReadActive), Failure(MessageOr(e, UNKNOWN_ERROR)))
    else
      var cartId := GetItem(w, ANON_CART_KEY);
      if !Truthy(cartId) then (None, Failure("No active cart found"))
      else match CartById(w.store, cartId.value)
        case Returns(c) => (Some(ReadById(cartId.value)), Envelope(Some(c), true, "Anonymous cart retrieved"))
        case Throws(e) => (Some(ReadById(cartId.value)), Failure(MessageOr(e, UNKNOWN_ERROR)))
  }

  /** The cart `getCart` resolves to, when it resolves to one: exactly the
      active cart, or exactly the stored anonymous cart. */
  lemma GetCartResolves(w: World, sess: Session)
    ensures var c := GetCart(w, sess).1.response;
      c.Some? ==>
        if sess.hasRoot then w.store.active.Some? && c.value == w.store.carts[w.store.active.value]
        else ANON_CART_KEY in w.storage && c.value == w.store.carts[w.storage[ANON_CART_KEY]]
  {
  }

  /** The draft `createCart` posts: always EUR and DE, with an anonymous id
      exactly when nobody is signed in. */
  function NewCartDraft(loginned: bool): (d: CartDraft)
    ensures d.currency == "EUR" && d.country == "DE"
    ensures d.anonymousId.Some? <==> !loginned
    ensures d.anonymousId.Some? ==> d.anonymousId.value == "anonymousId"
  {
    CartDraft("EUR", "DE", if loginned then None else Some("anonymousId"))
  }

  /** `createCart`: signed in, through `me().carts()` (reporting success with
      no response when the root is missing); anonymous, through `carts()`. */
  function CreateCart(w: World, sess: Session): (r: (World, Envelope<Cart>))
    ensures r.0.storage == w.storage && r.0.notified == w.notified
    ensures sess.loginned && !sess.hasRoot ==> r == (w, Envelope(None, true, "Cart created successfully"))
    ensures sess.loginned && sess.hasRoot ==>
      var (s', c) := PostDraft(w.store, MeCarts, NewCartDraft(true));
      r.0.store == s' && (c.Returns? ==> r.1 == Envelope(Some(c.value), true, "Cart created successfully"))
        && (c.Throws? ==> r.1 == Failure(MessageOr(c.error, UNKNOWN_ERROR)))
    ensures !sess.loginned ==>
      var (s', c) := PostDraft(w.store, AnonCarts, NewCartDraft(false));
      r.0.store == s' && (c.Returns? ==> r.1 == Envelope(Some(c.value), true, "Cart created successfully"))
        && (c.Throws? ==> r.1 == Failure(MessageOr(c.error, UNKNOWN_ERROR)))
    ensures r.1.response.Some? ==> r.1.success
    ensures |r.0.store.drafts| <= |w.store.drafts| + 1
    ensures && r.0.store.products == w.store.products && r.0.store.down == w.store.down
      && r.0.store.failure == w.store.failure && r.0.store.updates == w.store.updates
      && w.store.drafts <= r.0.store.drafts
    ensures r.1.response.Some? ==>
      r.1.response.value.id == NewCartId(|w.store.drafts|) && |r.0.store.drafts| == |w.store.drafts| + 1
  {
    if sess.loginned && !sess.hasRoot then (w, Envelope(None, true, "Cart created successfully"))
    else
      var route := if sess.loginned then MeCarts else AnonCarts;
      var (s', c) := PostDraft(w.store, route, NewCartDraft(sess.loginned));
      match c
      case Returns(cart) => (w.(store := s'), Envelope(Some(cart), true, "Cart created successfully"))
      case Throws(e) => (w.(store := s'), Failure(MessageOr(e, UNKNOWN_ERROR)))
  }

  /** The direct read `clearCart` and `isCartEmpty` both make: the active cart
      when authenticated, else the stored anonymous id or `''`. */
  function ReadCurrentCart(w: World, sess: Session): (r: Call<Cart>)
    ensures sess.hasRoot ==> r == ActiveCart(w.store)
    ensures !sess.hasRoot ==> r == CartById(w.store, OrElse(GetItem(w, ANON_CART_KEY), ""))
  {
    if sess.hasRoot then ActiveCart(w.store)
    else CartById(w.store, OrElse(GetItem(w, ANON_CART_KEY), ""))
  }

  /** `isCartEmpty`: true exactly when the read fails or the cart read has no
      line items. */
  function IsCartEmpty(w: World, sess: Session): (r: bool)
    ensures r <==> ReadCurrentCart(w, sess).Throws? || |ReadCurrentCart(w, sess).value.lineItems| == 0
  {
    match ReadCurrentCart(w, sess)
    case Returns(c) => |c.lineItems| == 0
    case Throws(_) => true
  }

  /** Fail-safe: `isCartEmpty` answers false only for a cart that was read and
      has at least one line item. */
  lemma NotEmptyMeansItems(w: World, sess: Session)
    ensures !IsCartEmpty(w, sess) ==>
      exists c :: ReadCurrentCart(w, sess) == Returns(c) && |c.lineItems| > 0
  {
    if !IsCartEmpty(w, sess) {
      var c := ReadCurrentCart(w, sess).value;
      assert ReadCurrentCart(w, sess) == Returns(c);
    }
  }
}
