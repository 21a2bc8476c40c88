/** The write side of the cart coordinator: adding a product (creating a cart
    and retrying when there is none), removing a line item, changing a line
    item's quantity, and clearing the cart. Every successful update notifies
    the cart subscribers once; removal notifies on every path. */
module CartUpdates {
  import opened Common
  import opened Platform
  import opened CartQueries

  const MAX_ATTEMPTS_REACHED := "Maximum attempts reached. Failed to add item to cart."
  const NOT_ENOUGH_STOCK := "Not enough stock"
  const NO_ACTIVE_CART := "No active cart found"

  /** The route the signed-in or anonymous branch posts through. */
  function RouteFor(sess: Session): Route {
    if sess.loginned then MeCarts else AnonCarts
  }

  /** `loginned ? apiRoot && post(...) : post(...)` as `addToCart` and
      `removeFromCart` write it: signed in without a root, nothing is sent and
      the response is undefined. */
  function PostForSession(s: Store, sess: Session, c: Cart, actions: seq<CartAction>): (r: (Store, Call<Option<Cart>>))
    ensures sess.loginned && !sess.hasRoot ==> r == (s, Returns(None))
    ensures !(sess.loginned && !sess.hasRoot) ==>
      var (s', posted) := PostUpdate(s, Update(RouteFor(sess), c.id, c.version, actions));
      r.0 == s' && (posted.Returns? ==> r.1 == Returns(Some(posted.value)))
        && (posted.Throws? ==> r.1 == Throws(posted.error))
  {
    if sess.loginned && !sess.hasRoot then (s, Returns(None))
    else
      var (s', posted) := PostUpdate(s, Update(RouteFor(sess), c.id, c.version, actions));
      match posted
      case Returns(cart) => (s', Returns(Some(cart)))
      case Throws(e) => (s', Throws(e))
  }

  /** The availability gate of `addToCart`. */
  function AddGate(w: World, productId: string, quantity: int, variantId: Option<int>): AvailabilityResult {
    CheckItemAvailability(w.store, productId, Some(quantity), variantId)
  }

  /** What `addToCart` leaves alone: the catalogue, the platform switches, and
      earlier history, which it only extends. */
  predicate Extends(w: World, w': World) {
    && w'.store.products == w.store.products
    && w'.store.down == w.store.down
    && w'.store.failure == w.store.failure
    && w.store.drafts <= w'.store.drafts
    && w.store.updates <= w'.store.updates
  }

  /** One attempt of `addToCart` against a resolved cart: one add line item
      posted to that cart's id and version, a notification on success, and
      the thrown message on failure. */
  function AddToResolved(w: World, sess: Session, c: Cart, productId: string, quantity: int): (r: (World, Envelope<Cart>))
    ensures var p := PostForSession(w.store, sess, c, [AddLineItem(productId, quantity)]);
      && r.0 == w.(store := p.0, notified := w.notified + (if p.1.Returns? then 1 else 0))
      && (p.1.Returns? ==> r.1 == Envelope(p.1.value, true, "Item added to cart"))
      && (p.1.Throws? ==> r.1 == Failure(MessageOr(p.1.error, UNKNOWN_ERROR)))
    ensures Extends(w, r.0) && r.0.store.drafts == w.store.drafts && r.0.storage == w.storage
    ensures |r.0.store.updates| <= |w.store.updates| + 1
    ensures forall i :: |w.store.updates| <= i < |r.0.store.updates| ==>
      r.0.store.updates[i].actions == [AddLineItem(productId, quantity)]
    ensures r.0.notified == w.notified + (if r.1.success then 1 else 0)
    ensures r.1.success ==> r.1.message == "Item added to cart"
  {
    var (s', posted) := PostForSession(w.store, sess, c, [AddLineItem(productId, quantity)]);
    match posted
    case Returns(resp) => (w.(store := s', notified := w.notified + 1), Envelope(resp, true, "Item added to cart"))
    case Throws(e) => (w.(store := s'), Failure(MessageOr(e, UNKNOWN_ERROR)))
  }

  /** `addToCart`: checks stock first; then, below the attempt limit, adds one
      line item to the current cart, or creates a cart, remembers an anonymous
      cart's id, and tries again with the next attempt number (dropping the
      variant id, as the recursive call in `addToCart` does). */
  function AddToCart(
    w: World, sess: Session, productId: string, quantity: int,
    attempt: int, maxAttempts: int, variantId: Option<int>): (r: (World, Envelope<Cart>))
    ensures !AddGate(w, productId, quantity, variantId).available ==>
      r == (w, Failure(OrElse(AddGate(w, productId, quantity, variantId).message, NOT_ENOUGH_STOCK)))
    ensures AddGate(w, productId, quantity, variantId).available && attempt >= maxAttempts ==>
      r == (w, Failure(MAX_ATTEMPTS_REACHED))
    ensures Extends(w, r.0)
    ensures |r.0.store.drafts| <= |w.store.drafts| + (if attempt < maxAttempts then maxAttempts - attempt else 0)
    ensures |r.0.store.updates| <= |w.store.updates| + 1
    ensures forall i :: |w.store.updates| <= i < |r.0.store.updates| ==>
      r.0.store.updates[i].actions == [AddLineItem(productId, quantity)]
    ensures r.0.notified == w.notified + (if r.1.success then 1 else 0)
    ensures r.1.success ==> r.1.message == "Item added to cart"
    ensures var c := GetCart(w, sess).1.response;
      AddGate(w, productId, quantity, variantId).available && attempt < maxAttempts && c.Some? ==>
        var p := PostForSession(w.store, sess, c.value, [AddLineItem(productId, quantity)]);
        && r.0 == w.(store := p.0, notified := w.notified + (if p.1.Returns? then 1 else 0))
        && (p.1.Returns? ==> r.1 == Envelope(p.1.value, true, "Item added to cart"))
        && (p.1.Throws? ==> r.1 == Failure(MessageOr(p.1.error, UNKNOWN_ERROR)))
    ensures && AddGate(w, productId, quantity, variantId).available && attempt < maxAttempts
            && GetCart(w, sess).1.response.None? ==>
        r == RetryWithNewCart(w, sess, productId, quantity, attempt, maxAttempts)
    ensures || r.0.storage == w.storage
            || (&& !sess.loginned
                && exists i :: |w.store.drafts| <= i < |r.0.store.drafts| && r.0.storage == w.storage[ANON_CART_KEY := NewCartId(i)])
    decreases maxAttempts - attempt, 1
  {
    var gate := AddGate(w, productId, quantity, variantId);
    if !gate.available then (w, Failure(OrElse(gate.message, NOT_ENOUGH_STOCK)))
    else if attempt >= maxAttempts then (w, Failure(MAX_ATTEMPTS_REACHED))
    else
      var active := GetCart(w, sess).1;
      if active.response.Some? then AddToResolved(w, sess, active.response.value, productId, quantity)
      else RetryWithNewCart(w, sess, productId, quantity, attempt, maxAttempts)
  }

  /** The branch of `addToCart` with no active cart: draft one, remember its id
      on the device for a guest, and run the whole operation again without a
      variant. */
  function RetryWithNewCart(
    w: World, sess: Session, productId: string, quantity: int,
    attempt: int, maxAttempts: int): (r: (World, Envelope<Cart>))
    requires attempt < maxAttempts
    ensures CreateCart(w, sess).1.response.None? ==>
      r == (CreateCart(w, sess).0, Failure("Failed to create new cart"))
    ensures CreateCart(w, sess).1.response.Some? ==>
      r == AddToCart(StartNewCart(w, sess).0, sess, productId, quantity, attempt + 1, maxAttempts, None)
    ensures Extends(w, r.0)
    ensures |r.0.store.drafts| <= |w.store.drafts| + (maxAttempts - attempt)
    ensures |r.0.store.updates| <= |w.store.updates| + 1
    ensures forall i :: |w.store.updates| <= i < |r.0.store.updates| ==>
      r.0.store.updates[i].actions == [AddLineItem(productId, quantity)]
    ensures r.0.notified == w.notified + (if r.1.success then 1 else 0)
    ensures r.1.success ==> r.1.message == "Item added to cart"
    ensures || r.0.storage == w.storage
            || (&& !sess.loginned
                && exists i :: |w.store.drafts| <= i < |r.0.store.drafts| && r.0.storage == w.storage[ANON_CART_KEY := NewCartId(i)])
    decreases maxAttempts - attempt, 0
  {
    var (w2, created) := StartNewCart(w, sess);
    if created.response.None? then (w2, created)
    else
      var r := AddToCart(w2, sess, productId, quantity, attempt + 1, maxAttempts, None);
      if sess.loginned then r
      else
        StoredIdComposes(w.storage, r.0.storage, |w.store.drafts|, |w2.store.drafts|, |r.0.store.drafts|);
        r
  }

  /** The first half of that branch: `createCart`, then, for a guest, the new
      cart's id written under the anonymous cart key. */
  function StartNewCart(w: World, sess: Session): (r: (World, Envelope<Cart>))
    ensures CreateCart(w, sess).1.response.None? ==>
      r == (CreateCart(w, sess).0, Failure("Failed to create new cart"))
    ensures r.1.response.Some? <==> CreateCart(w, sess).1.response.Some?
    ensures Extends(w, r.0) && r.0.store.updates == w.store.updates && r.0.notified == w.notified
    ensures |r.0.store.drafts| <= |w.store.drafts| + 1
    ensures r.1.response.None? ==> !r.1.success && r.0.storage == w.storage
    ensures r.1.response.Some? ==>
      && |r.0.store.drafts| == |w.store.drafts| + 1
      && r.0.storage == (if sess.loginned then w.storage else w.storage[ANON_CART_KEY := NewCartId(|w.store.drafts|)])
  {
    var (w1, created) := CreateCart(w, sess);
    if created.response.None? then (w1, Failure("Failed to create new cart"))
    else if sess.loginned then (w1, created)
    else (w1.(storage := w1.storage[ANON_CART_KEY := created.response.value.id]), created)
  }

  /** Writing a fresh cart id and then possibly a later one leaves a single
      write of a cart id drafted in between. */
  lemma StoredIdComposes(before: map<string, string>, after: map<string, string>, d0: nat, d1: nat, d2: nat)
    requires d0 < d1 <= d2
    requires var mid := before[ANON_CART_KEY := NewCartId(d0)];
      || after == mid
      || exists i :: d1 <= i < d2 && after == mid[ANON_CART_KEY := NewCartId(i)]
    ensures exists i :: d0 <= i < d2 && after == before[ANON_CART_KEY := NewCartId(i)]
  {
    var mid := before[ANON_CART_KEY := NewCartId(d0)];
    if after == mid {
      assert d0 < d2;
    } else {
      var i :| d1 <= i < d2 && after == mid[ANON_CART_KEY := NewCartId(i)];
      assert after == before[ANON_CART_KEY := NewCartId(i)];
    }
  }

  /** `removeFromCart`: one `removeLineItem` for the given id, posted against
      the cart `getCart` resolves, and a notification on every path. */
  function RemoveFromCart(w: World, sess: Session, lineItemId: string): (r: (World, Envelope<Cart>))
    ensures r.0.notified == w.notified + 1
    ensures r.0.storage == w.storage
    ensures GetCart(w, sess).1.response.None? ==>
      r.0.store == w.store && r.1 == Failure(NO_ACTIVE_CART)
    ensures GetCart(w, sess).1.response.Some? ==>
      var c := GetCart(w, sess).1.response.value;
      r.0.store == PostForSession(w.store, sess, c, [RemoveLineItem(lineItemId, None)]).0
    ensures r.1.success <==>
      GetCart(w, sess).1.response.Some?
      && PostForSession(w.store, sess, GetCart(w, sess).1.response.value, [RemoveLineItem(lineItemId, None)]).1.Returns?
    ensures r.1.success ==> r.1.message == "Items removed from cart"
    ensures var c := GetCart(w, sess).1.response;
      c.Some? ==>
        var p := PostForSession(w.store, sess, c.value, [RemoveLineItem(lineItemId, None)]);
        && (p.1.Returns? ==> r.1 == Envelope(p.1.value, true, "Items removed from cart"))
        && (p.1.Throws? ==> r.1 == Failure(MessageOr(p.1.error, UNKNOWN_ERROR)))
  {
    var active := GetCart(w, sess).1;
    if active.response.None? then (w.(notified := w.notified + 1), Failure(NO_ACTIVE_CART))
    else
      var c := active.response.value;
      var (s', posted) := PostForSession(w.store, sess, c, [RemoveLineItem(lineItemId, None)]);
      match posted
      case Returns(resp) => (w.(store := s', notified := w.notified + 1), Envelope(resp, true, "Items removed from cart"))
      case Throws(e) => (w.(store := s', notified := w.notified + 1), Failure(MessageOr(e, UNKNOWN_ERROR)))
  }

  /** `lineItems.find(item => item.id === id)`. */
  function FindLineItem(items: seq<LineItem>, id: string): (r: Option<LineItem>)
    ensures r.Some? <==> exists i :: 0 <= i < |items| && items[i].id == id
    ensures r.Some? ==> r.value in items && r.value.id == id
    ensures r.Some? ==>
      exists i :: 0 <= i < |items| && items[i] == r.value && forall k :: 0 <= k < i ==> items[k].id != id
  {
    if |items| == 0 then None
    else if items[0].id == id then Some(items[0])
    else
      var r := FindLineItem(items[1..], id);
      if r.Some? then
        var i :| 0 <= i < |items[1..]| && items[1..][i] == r.value && forall k :: 0 <= k < i ==> items[1..][k].id != id;
        assert items[i + 1] == r.value;
        r
      else
        r
  }

  /** V8's message for the TypeError `api.getApiRoot!.me()` raises when the
      facade believes a customer is signed in but holds no root. */
  const ROOT_UNDEFINED := "Cannot read properties of undefined (reading 'me')"

  /** How `changeItemQuantity` hands its arguments to the stock check. */
  datatype ArgOrder =
    | AsWritten   // (productId, variant id, new quantity): quantity and variant swapped
    | AsIntended  // (productId, new quantity, variant id): the order `checkItemAvailability` declares

  /** The stock check `changeItemQuantity` runs for a line item. */
  function QuantityGate(s: Store, li: LineItem, newQuantity: int, order: ArgOrder): AvailabilityResult {
    match order
    case AsWritten => CheckItemAvailability(s, li.productId, li.variantId, Some(newQuantity))
    case AsIntended => CheckItemAvailability(s, li.productId, Some(newQuantity), li.variantId)
  }

  /** `changeItemQuantity` with the argument order of its stock check as a
      parameter. */
  function ChangeQuantity(w: World, sess: Session, lineItemId: string, newQuantity: int, order: ArgOrder): (r: (World, Envelope<Cart>))
    ensures newQuantity < 0 ==> r == (w, Failure("Quantity cannot be negative"))
    ensures newQuantity == 0 ==> r == RemoveFromCart(w, sess, lineItemId)
    ensures newQuantity > 0 && GetCart(w, sess).1.response.None? ==> r == (w, Failure(NO_ACTIVE_CART))
    ensures var c := GetCart(w, sess).1.response;
      newQuantity > 0 && c.Some? && FindLineItem(c.value.lineItems, lineItemId).None? ==>
        r == (w, Failure("Line item not found in cart"))
    ensures newQuantity > 0 ==> r.0.storage == w.storage && r.0.store.products == w.store.products
    ensures newQuantity > 0 ==>
      r.0.notified == w.notified + (if r.1.success then 1 else 0)
    ensures newQuantity > 0 && r.1.success ==> r.1.message == "Quantity updated successfully"
    ensures newQuantity > 0 && r.0.store.updates != w.store.updates ==>
      && GetCart(w, sess).1.response.Some?
      && FindLineItem(GetCart(w, sess).1.response.value.lineItems, lineItemId).Some?
    ensures newQuantity > 0 && r.0.store.updates != w.store.updates ==>
      var c := GetCart(w, sess).1.response.value;
      var li := FindLineItem(c.lineItems, lineItemId).value;
      && QuantityGate(w.store, li, newQuantity, order).available
      && r.0.store.updates == w.store.updates
        + [Update(RouteFor(sess), c.id, c.version, [ChangeLineItemQuantity(lineItemId, newQuantity)])]
    ensures newQuantity > 0 && r.1.success ==> r.0.store.updates != w.store.updates
    ensures var c := GetCart(w, sess).1.response;
      newQuantity > 0 && c.Some? && FindLineItem(c.value.lineItems, lineItemId).Some? ==>
        var gate := QuantityGate(w.store, FindLineItem(c.value.lineItems, lineItemId).value, newQuantity, order);
        && (!gate.available ==> r == (w, Failure(OrElse(gate.message, NOT_ENOUGH_STOCK))))
        && (gate.available && sess.loginned && !sess.hasRoot ==> r == (w, Failure(ROOT_UNDEFINED)))
        && (gate.available && !(sess.loginned && !sess.hasRoot) ==>
          var p := PostUpdate(w.store, Update(RouteFor(sess), c.value.id, c.value.version, [ChangeLineItemQuantity(lineItemId, newQuantity)]));
          && r.0.store == p.0
          && (p.1.Returns? ==> r.1 == Envelope(Some(p.1.value), true, "Quantity updated successfully"))
          && (p.1.Throws? ==> r.1 == Failure(MessageOr(p.1.error, "Failed to change quantity"))))
  {
    if newQuantity < 0 then (w, Failure("Quantity cannot be negative"))
    else if newQuantity == 0 then RemoveFromCart(w, sess, lineItemId)
    else
      var active := GetCart(w, sess).1;
      if !active.success || active.response.None? then (w, Failure(NO_ACTIVE_CART))
      else
        var c := active.response.value;
        var lineItem := FindLineItem(c.lineItems, lineItemId);
        if lineItem.None? then (w, Failure("Line item not found in cart"))
        else
          var gate := QuantityGate(w.store, lineItem.value, newQuantity, order);
          if !gate.available then (w, Failure(OrElse(gate.message, NOT_ENOUGH_STOCK)))
          else if sess.loginned && !sess.hasRoot then (w, Failure(ROOT_UNDEFINED))
          else
            var u := Update(RouteFor(sess), c.id, c.version, [ChangeLineItemQuantity(lineItemId, newQuantity)]);
            var (s', posted) := PostUpdate(w.store, u);
            match posted
            case Returns(resp) =>
              (w.(store := s', notified := w.notified + 1), Envelope(Some(resp), true, "Quantity updated successfully"))
            case Throws(e) => (w.(store := s'), Failure(MessageOr(e, "Failed to change quantity")))
  }

  /** `changeItemQuantity` as written: the update is gated on
      the stock check called with the variant id where the quantity belongs
      and the new quantity where the variant id belongs. */
  function ChangeItemQuantityAsWritten(w: World, sess: Session, lineItemId: string, newQuantity: int): (r: (World, Envelope<Cart>))
    ensures newQuantity > 0 && r.0.store.updates != w.store.updates ==>
      var c := GetCart(w, sess).1.response;
      c.Some? && var li := FindLineItem(c.value.lineItems, lineItemId);
      li.Some? && CheckItemAvailability(w.store, li.value.productId, li.value.variantId, Some(newQuantity)).available
    ensures newQuantity > 0 && r.1.success ==>
      r.1.message == "Quantity updated successfully" && r.0.notified == w.notified + 1
  {
    ChangeQuantity(w, sess, lineItemId, newQuantity, AsWritten)
  }

  /** `changeItemQuantity` with the stock check called by its own signature:
      an update is posted only when the line item's variant has the new
      quantity in stock. */
  function ChangeItemQuantity(w: World, sess: Session, lineItemId: string, newQuantity: int): (r: (World, Envelope<Cart>))
    ensures newQuantity > 0 && r.0.store.updates != w.store.updates ==>
      var c := GetCart(w, sess).1.response;
      c.Some? && var li := FindLineItem(c.value.lineItems, lineItemId);
      li.Some? && CheckItemAvailability(w.store, li.value.productId, Some(newQuantity), li.value.variantId).available
    ensures newQuantity > 0 && r.1.success ==>
      var c := GetCart(w, sess).1.response;
      c.Some? && var li := FindLineItem(c.value.lineItems, lineItemId);
      li.Some? && var v := Inspected(w.store, li.value.productId, li.value.variantId);
      v.Some? && v.value.availability.Some? && newQuantity <= StockOf(v.value.availability.value)
  {
    ChangeQuantity(w, sess, lineItemId, newQuantity, AsIntended)
  }

  /** One `removeLineItem` per line item, in cart order, with its id and quantity. */
  function ClearActions(items: seq<LineItem>): (acts: seq<CartAction>)
    ensures |acts| == |items|
    ensures forall i :: 0 <= i < |items| ==> acts[i] == RemoveLineItem(items[i].id, Some(items[i].quantity))
  {
    if |items| == 0 then [] else [RemoveLineItem(items[0].id, Some(items[0].quantity))] + ClearActions(items[1..])
  }

  /** `clearCart`: reads the current cart directly and posts all its removals
      in one update, through the route of the root the facade holds. */
  function ClearCart(w: World, sess: Session): (r: (World, Envelope<Cart>))
    ensures r.0.storage == w.storage && r.0.store.products == w.store.products
    ensures ReadCurrentCart(w, sess).Throws? ==>
      r == (w, Failure(MessageOr(ReadCurrentCart(w, sess).error, "Failed to clear cart")))
    ensures ReadCurrentCart(w, sess).Returns? ==>
      var c := ReadCurrentCart(w, sess).value;
      r.0.store.updates == w.store.updates
        + [Update(if sess.hasRoot then MeCarts else AnonCarts, c.id, c.version, ClearActions(c.lineItems))]
    ensures ReadCurrentCart(w, sess).Returns? ==>
      var c := ReadCurrentCart(w, sess).value;
      var p := PostUpdate(w.store, Update(if sess.hasRoot then MeCarts else AnonCarts, c.id, c.version, ClearActions(c.lineItems)));
      && r.0.store == p.0
      && (r.1.success <==> p.1.Returns?)
      && (p.1.Returns? ==> r.1.response == Some(p.1.value))
      && (p.1.Throws? ==> r.1 == Failure(MessageOr(p.1.error, "Failed to clear cart")))
    ensures r.0.notified == w.notified + (if r.1.success then 1 else 0)
    ensures r.1.success ==> r.1.message == (if sess.hasRoot then "Cart cleared successfully" else "Anonymous cart cleared")
  {
    match ReadCurrentCart(w, sess)
    case Throws(e) => (w, Failure(MessageOr(e, "Failed to clear cart")))
    case Returns(c) =>
      var route := if sess.hasRoot then MeCarts else AnonCarts;
      var (s', posted) := PostUpdate(w.store, Update(route, c.id, c.version, ClearActions(c.lineItems)));
      match posted
      case Throws(e) => (w.(store := s'), Failure(MessageOr(e, "Failed to clear cart")))
      case Returns(resp) =>
        var message := if sess.hasRoot then "Cart cleared successfully" else "Anonymous cart cleared";
        (w.(store := s', notified := w.notified + 1), Envelope(Some(resp), true, message))
  }
}
