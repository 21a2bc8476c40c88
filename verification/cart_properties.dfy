/** Properties of the cart coordinator that span several calls or several
    steps of one call. */
module CartProperties {
  import opened Common
  import opened Platform
  import opened CartQueries
  import opened CartUpdates

  /** A signed-in customer, with a root, adding an item that is in stock (both
      as asked and, for the retry, as the master variant) on a healthy
      platform: the item is added, and at most one cart is created on the
      way, as long as one retry is left. */
  lemma SignedInAddCreatesAtMostOneCart(
    w: World, productId: string, quantity: int, attempt: int, maxAttempts: int, variantId: Option<int>)
    requires !w.store.down && IdsMatch(w.store)
    requires AddGate(w, productId, quantity, variantId).available
    requires AddGate(w, productId, quantity, None).available
    requires attempt + 1 < maxAttempts
    requires NewCartId(|w.store.drafts|) !in w.store.carts
    ensures var r := AddToCart(w, Session(true, true), productId, quantity, attempt, maxAttempts, variantId);
      && r.1.success && |r.0.store.drafts| <= |w.store.drafts| + 1 && |r.0.store.updates| == |w.store.updates| + 1
      && (|r.0.store.drafts| > |w.store.drafts| ==>
            var u := r.0.store.updates[|w.store.updates|];
            u.route == MeCarts && u.cartId == NewCartId(|w.store.drafts|) && u.actions == [AddLineItem(productId, quantity)])
  {
    var sess := Session(true, true);
    if ActiveCart(w.store).Throws? {
      // No active cart: one cart is created, and the retry finds it and posts to it.
      var (w1, created) := CartQueries.CreateCart(w, sess);
      var c := created.response.value;
      assert GetCart(w1, sess).1.response == Some(c);
      var u := Update(MeCarts, c.id, c.version, [AddLineItem(productId, quantity)]);
      var r2 := AddToCart(w1, sess, productId, quantity, attempt + 1, maxAttempts, None);
      assert r2.0.store == PostUpdate(w1.store, u).0;
      assert AddToCart(w, sess, productId, quantity, attempt, maxAttempts, variantId) == r2;
    }
  }

  /** The same for a shopper who is not signed in: whatever id is stored (or
      none), the item is added with at most one cart created, and the id of a
      created cart is what `localStorage` holds afterwards. */
  lemma AnonymousAddCreatesAtMostOneCart(
    w: World, productId: string, quantity: int, attempt: int, maxAttempts: int, variantId: Option<int>)
    requires !w.store.down && IdsMatch(w.store)
    requires AddGate(w, productId, quantity, variantId).available
    requires AddGate(w, productId, quantity, None).available
    requires attempt + 1 < maxAttempts
    requires NewCartId(|w.store.drafts|) !in w.store.carts
    ensures var r := AddToCart(w, Session(false, false), productId, quantity, attempt, maxAttempts, variantId);
      && r.1.success && |r.0.store.drafts| <= |w.store.drafts| + 1 && |r.0.store.updates| == |w.store.updates| + 1
      && (|r.0.store.drafts| > |w.store.drafts| ==> GetItem(r.0, ANON_CART_KEY) == Some(NewCartId(|w.store.drafts|)))
      && (|r.0.store.drafts| > |w.store.drafts| ==>
            var u := r.0.store.updates[|w.store.updates|];
            u.route == AnonCarts && u.cartId == NewCartId(|w.store.drafts|) && u.actions == [AddLineItem(productId, quantity)])
  {
    var sess := Session(false, false);
    if GetCart(w, sess).1.response.None? {
      // No usable stored cart: one cart is created and its id stored, and the
      // retry finds it through that id and posts to it.
      var (w1, created) := CartQueries.CreateCart(w, sess);
      var c := created.response.value;
      var w2 := w1.(storage := w1.storage[ANON_CART_KEY := c.id]);
      assert GetCart(w2, sess).1.response == Some(c);
      var u := Update(AnonCarts, c.id, c.version, [AddLineItem(productId, quantity)]);
      var r2 := AddToCart(w2, sess, productId, quantity, attempt + 1, maxAttempts, None);
      assert r2.0.store == PostUpdate(w2.store, u).0;
      assert AddToCart(w, sess, productId, quantity, attempt, maxAttempts, variantId) == r2;
    }
  }

  /** A signed-in shopper whose cart holds one unit of product `p`, whose only
      variant is the master variant with id 1 and 100 units in stock. */
  function StockedWorld(): World {
    var master := Variant(1, Some(Availability(Some(100), Some(true))));
    var item := LineItem("li", "p", Some(1), 1);
    var cart := Cart("c", 1, [item], Some([]), Some([]), 0, "EUR", None, None);
    World(
      Store(map["c" := cart], Some("c"), map["p" := Product(Some(ProductData(master, None)))], [], [], false, ThrownOther),
      map[], 0)
  }

  /** As written, asking for 5 units of that line item passes 1 (the variant
      id) as the quantity and 5 as the variant id: the check looks for a
      variant 5, finds none, and the change is refused although 100 units are
      in stock. */
  lemma SwappedStockCheckRefuses()
    ensures ChangeItemQuantityAsWritten(StockedWorld(), Session(true, true), "li", 5)
      == (StockedWorld(), Failure("Variant not found"))
  {
    var w := StockedWorld();
    var li := LineItem("li", "p", Some(1), 1);
    assert GetCart(w, Session(true, true)).1.response.value.lineItems == [li];
    assert FindLineItem([li], "li") == Some(li);
    assert Inspected(w.store, "p", Some(5)) == None;
  }

  /** With the arguments in `checkItemAvailability`'s order the same change goes through
      and posts one quantity change against the cart's version. */
  lemma IntendedStockCheckAccepts()
    ensures var r := ChangeItemQuantity(StockedWorld(), Session(true, true), "li", 5);
      r.1.success && r.0.store.updates == [Update(MeCarts, "c", 1, [ChangeLineItemQuantity("li", 5)])]
  {
    var w := StockedWorld();
    var li := LineItem("li", "p", Some(1), 1);
    assert GetCart(w, Session(true, true)).1.response.value.lineItems == [li];
    assert FindLineItem([li], "li") == Some(li);
    assert CheckItemAvailability(w.store, "p", Some(5), Some(1)).available;
  }
}
