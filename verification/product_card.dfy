/** The product card of the list: price and description display, the
    add-to-cart button's text and enabled state, and what loading the card
    and pressing the button do. */
module ProductCard {
  import opened Common
  import opened JsString
  import opened Platform
  import opened CartQueries
  import opened CartUpdates

  datatype Money = Money(centAmount: Option<int>, currencyCode: Option<string>)
  datatype DiscountedPrice = DiscountedPrice(value: Option<Money>)
  datatype Price = Price(value: Option<Money>, discounted: Option<DiscountedPrice>)

  function OriginalCents(p: Option<Price>): Option<int> {
    if p.Some? && p.value.value.Some? then p.value.value.value.centAmount else None
  }

  function DiscountedCents(p: Option<Price>): Option<int> {
    if p.Some? && p.value.discounted.Some? && p.value.discounted.value.value.Some? then
      p.value.discounted.value.value.value.centAmount
    else None
  }

  /** `hasDiscount`: a discounted record and both cent amounts are present. */
  predicate HasDiscount(p: Option<Price>) {
    p.Some? && p.value.discounted.Some? && OriginalCents(p).Some? && DiscountedCents(p).Some?
  }

  /** A discount is shown exactly when both cent amounts are present: the
      discounted amount can only be present inside a discounted record, and a
      record without a value or without an amount shows no discount. */
  lemma DiscountNeedsBothAmounts(p: Option<Price>)
    ensures HasDiscount(p) <==> OriginalCents(p).Some? && DiscountedCents(p).Some?
    ensures p.Some? && p.value.discounted.Some? && p.value.discounted.value.value.None? ==> !HasDiscount(p)
  {
  }

  /** The currency of the first price, `USD` when it has none. */
  function CurrencyCode(p: Option<Price>): (r: string)
    ensures r != ""
    ensures p.Some? && p.value.value.Some? && Truthy(p.value.value.value.currencyCode) ==> r == p.value.value.value.currencyCode.value
    ensures !(p.Some? && p.value.value.Some? && Truthy(p.value.value.value.currencyCode)) ==> r == "USD"
  {
    OrElse(if p.Some? && p.value.value.Some? then p.value.value.value.currencyCode else None, "USD")
  }

  const PREVIEW_LENGTH := 100

  /** The shown description: all of it when it fits in 100 UTF-16 code units,
      otherwise the longest prefix that fits, then `...`. */
  function Preview(description: Option<string>): (r: string)
    ensures var d := description.GetOr("");
      && (Utf16Len(d) <= 100 ==> r == d)
      && (Utf16Len(d) > 100 ==> |r| >= 3 && r[|r| - 3..] == "...")
      && (Utf16Len(d) > 100 && |r| >= 3 ==>
        var shown := r[..|r| - 3];
        shown < d && Utf16Len(shown) <= 100 < Utf16Len(d[..|shown| + 1]))
  {
    var d := description.GetOr("");
    if Utf16Len(d) <= PREVIEW_LENGTH then d
    else
      var shown := Utf16Prefix(d, PREVIEW_LENGTH);
      assert shown != d;
      assert shown < d;
      var r := shown + "...";
      assert r[..|r| - 3] == shown && r[|r| - 3..] == "...";
      r
  }

  /** Without astral characters the cut is the first 100 characters. */
  lemma PlainPreview(d: string)
    requires forall i :: 0 <= i < |d| ==> !IsAstral(d[i])
    ensures |d| <= 100 ==> Preview(Some(d)) == d
    ensures |d| > 100 ==> Preview(Some(d)) == d[..100] + "..."
  {
    Utf16LenBmp(d);
    if |d| > 100 {
      var shown := Utf16Prefix(d, 100);
      assert shown == d[..|shown|];
      assert forall i :: 0 <= i < |shown| ==> !IsAstral(shown[i]);
      Utf16LenBmp(shown);
      if |shown| < |d| {
        var next := d[..|shown| + 1];
        assert forall i :: 0 <= i < |next| ==> !IsAstral(next[i]);
        Utf16LenBmp(next);
      }
      assert |shown| == 100;
    }
  }

  /** Sixty emoji make 120 code units, so the card cuts the description after
      fifty of them, although it has only sixty characters. */
  lemma AstralPreview(d: string)
    requires |d| == 60 && forall i :: 0 <= i < |d| ==> IsAstral(d[i])
    ensures Preview(Some(d)) == d[..50] + "..."
  {
    AllAstralLen(d);
    var shown := Utf16Prefix(d, 100);
    assert shown == d[..|shown|];
    AllAstralLen(shown);
    AllAstralLen(d[..|shown| + 1]);
    assert |shown| == 50;
  }

  lemma {:induction false} AllAstralLen(s: string)
    requires forall i :: 0 <= i < |s| ==> IsAstral(s[i])
    ensures Utf16Len(s) == 2 * |s|
  {
    if |s| > 0 {
      assert forall i :: 0 <= i < |s[1..]| ==> s[1..][i] == s[i + 1];
      AllAstralLen(s[1..]);
    }
  }

  /** The card's own state. */
  datatype CardState = CardState(isInCart: bool, availabilityMessage: Option<string>, isLoading: bool)

  const UNAVAILABLE := "Unavailable"

  /** The button is disabled, and the add handler does nothing, while the
      product is in the cart or known to be unavailable. */
  predicate ButtonDisabled(c: CardState) {
    c.isInCart || c.availabilityMessage == Some(UNAVAILABLE)
  }

  /** `getButtonText`: loading, then in cart, then the availability message,
      then `Add to Cart`. */
  function ButtonText(c: CardState): (r: string)
    ensures c.isLoading ==> r == "Loading..."
    ensures !c.isLoading && c.isInCart ==> r == "In Cart"
    ensures !c.isLoading && !c.isInCart && Truthy(c.availabilityMessage) ==> r == c.availabilityMessage.value
    ensures !c.isLoading && !c.isInCart && !Truthy(c.availabilityMessage) ==> r == "Add to Cart"
  {
    if c.isLoading then "Loading..."
    else if c.isInCart then "In Cart"
    else OrElse(c.availabilityMessage, "Add to Cart")
  }

  /** The card's effect: the availability of one unit, then whether the cart
      `getCart` resolves holds a line item of the product. */
  function LoadCard(c: CardState, w: World, sess: Session, productId: string): (r: CardState)
    ensures !r.isLoading
    ensures var a := CheckItemAvailability(w.store, productId, Some(1), None);
      r.availabilityMessage == Some(if a.available then "Add to cart" else UNAVAILABLE)
    ensures ButtonDisabled(r) <==>
      r.isInCart || !CheckItemAvailability(w.store, productId, Some(1), None).available
    ensures var cart := GetCart(w, sess).1.response;
      r.isInCart <==> (if cart.Some? then exists li :: li in cart.value.lineItems && li.productId == productId else c.isInCart)
  {
    var a := CheckItemAvailability(w.store, productId, Some(1), None);
    var cart := GetCart(w, sess).1.response;
    var inCart := if cart.Some? then exists li :: li in cart.value.lineItems && li.productId == productId else c.isInCart;
    CardState(inCart, Some(if a.available then "Add to cart" else UNAVAILABLE), false)
  }

  /** The defaults `addToCart(product.id)` runs with: one unit, attempt 0 of 3. */
  function AddOne(w: World, sess: Session, productId: string): (World, Envelope<Cart>) {
    AddToCart(w, sess, productId, 1, 0, 3, None)
  }

  /** `handleAddToCart` as written: the add resolves to an envelope rather
      than throwing, and the card is marked in the cart whatever it says. */
  function HandleAddToCartAsWritten(c: CardState, w: World, sess: Session, productId: string): (r: (CardState, World))
    ensures ButtonDisabled(c) ==> r == (c, w)
    ensures !ButtonDisabled(c) ==> r.0.isInCart && r.1 == AddOne(w, sess, productId).0
  {
    if ButtonDisabled(c) then (c, w)
    else (c.(isInCart := true, isLoading := false), AddOne(w, sess, productId).0)
  }

  /** `handleAddToCart` marking the card only when the add succeeded. */
  function HandleAddToCart(c: CardState, w: World, sess: Session, productId: string): (r: (CardState, World))
    ensures ButtonDisabled(c) ==> r == (c, w)
    ensures !ButtonDisabled(c) ==> r.1 == AddOne(w, sess, productId).0
    ensures r.0.isInCart <==> c.isInCart || (!ButtonDisabled(c) && AddOne(w, sess, productId).1.success)
    ensures !r.0.isLoading || r == (c, w)
  {
    if ButtonDisabled(c) then (c, w)
    else
      var (w1, added) := AddOne(w, sess, productId);
      (c.(isInCart := added.success, isLoading := false), w1)
  }

  /** A card loaded while the product was available, pressed while the
      platform is unreachable: the add fails, yet the card as written shows
      `In Cart`; the corrected handler keeps offering the button. */
  lemma FailedAddShownInCart()
    ensures var c := CardState(false, Some("Add to cart"), false);
      var w := World(Store(map[], None, map[], [], [], true, ThrownOther), map[], 0);
      var sess := Session(true, true);
      && !AddOne(w, sess, "p").1.success
      && ButtonText(HandleAddToCartAsWritten(c, w, sess, "p").0) == "In Cart"
      && ButtonText(HandleAddToCart(c, w, sess, "p").0) == "Add to cart"
  {
    var w := World(Store(map[], None, map[], [], [], true, ThrownOther), map[], 0);
    assert !AddGate(w, "p", 1, None).available;
  }
}
