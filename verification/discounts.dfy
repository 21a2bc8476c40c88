/** Discount codes on the cart: applying and removing one, reading the cart's
    discounts and formatting them for display, and listing the codes that are
    currently active. */
module Discounts {
  import opened Common
  import opened JsString
  import opened Platform
  import opened CartQueries

  const CART_NOT_FOUND := "Cart not found"

  /** Posts one action to the cart `getCart` resolves, always through
      `me().carts()` of whichever root the facade holds, and notifies the
      subscribers only once the platform accepted it. Errors propagate. */
  function UpdateResolvedCart(w: World, sess: Session, action: CartAction): (r: (World, Call<Cart>))
    ensures r.0.storage == w.storage
    ensures GetCart(w, sess).1.response.None? ==> r == (w, Throws(ErrorObject(CART_NOT_FOUND)))
    ensures GetCart(w, sess).1.response.Some? ==>
      var c := GetCart(w, sess).1.response.value;
      var (s', posted) := PostUpdate(w.store, Update(MeCarts, c.id, c.version, [action]));
      r.0.store == s' && r.1 == posted
    ensures r.0.notified == w.notified + (if r.1.Returns? then 1 else 0)
  {
    var read := GetCart(w, sess).1;
    if read.response.None? then (w, Throws(ErrorObject(CART_NOT_FOUND)))
    else
      var c := read.response.value;
      var (s', posted) := PostUpdate(w.store, Update(MeCarts, c.id, c.version, [action]));
      match posted
      case Returns(cart) => (w.(store := s', notified := w.notified + 1), Returns(cart))
      case Throws(e) => (w.(store := s'), Throws(e))
  }

  /** `applyDiscountCode`: exactly one `addDiscountCode` with the code as given,
      against the id and version just read. */
  function ApplyDiscountCode(w: World, sess: Session, code: string): (r: (World, Call<Cart>))
    ensures GetCart(w, sess).1.response.None? ==> r == (w, Throws(ErrorObject(CART_NOT_FOUND)))
    ensures GetCart(w, sess).1.response.Some? ==>
      var c := GetCart(w, sess).1.response.value;
      r.0.store.updates == w.store.updates + [Update(MeCarts, c.id, c.version, [AddDiscountCode(code)])]
    ensures GetCart(w, sess).1.response.Some? ==>
      var c := GetCart(w, sess).1.response.value;
      var (s', posted) := PostUpdate(w.store, Update(MeCarts, c.id, c.version, [AddDiscountCode(code)]));
      r.0.store == s' && r.1 == posted
    ensures r.0.storage == w.storage
    ensures r.0.notified == w.notified + (if r.1.Returns? then 1 else 0)
  {
    UpdateResolvedCart(w, sess, AddDiscountCode(code))
  }

  /** `removeDiscountCode`: exactly one `removeDiscountCode` referencing the
      code by `{typeId: 'discount-code', id}`. */
  function RemoveDiscountCode(w: World, sess: Session, discountCodeId: string): (r: (World, Call<Cart>))
    ensures GetCart(w, sess).1.response.None? ==> r == (w, Throws(ErrorObject(CART_NOT_FOUND)))
    ensures GetCart(w, sess).1.response.Some? ==>
      var c := GetCart(w, sess).1.response.value;
      r.0.store.updates == w.store.updates
        + [Update(MeCarts, c.id, c.version, [CartAction.RemoveDiscountCode("discount-code", discountCodeId)])]
    ensures GetCart(w, sess).1.response.Some? ==>
      var c := GetCart(w, sess).1.response.value;
      var (s', posted) := PostUpdate(w.store, Update(MeCarts, c.id, c.version, [CartAction.RemoveDiscountCode("discount-code", discountCodeId)]));
      r.0.store == s' && r.1 == posted
    ensures r.0.storage == w.storage
    ensures r.0.notified == w.notified + (if r.1.Returns? then 1 else 0)
  {
    UpdateResolvedCart(w, sess, CartAction.RemoveDiscountCode("discount-code", discountCodeId))
  }

  datatype CartDiscounts = CartDiscounts(
    directDiscounts: Option<seq<DirectDiscount>>,
    discountCodes: Option<seq<DiscountCodeInfo>>,
    cart: Cart)

  /** `getCartDiscounts`: the resolved cart's discounts, unchanged. */
  function GetCartDiscounts(w: World, sess: Session): (r: Call<CartDiscounts>)
    ensures r.Returns? <==> GetCart(w, sess).1.response.Some?
    ensures r.Throws? ==> r.error == ErrorObject(CART_NOT_FOUND)
    ensures r.Returns? ==>
      && r.value.cart == GetCart(w, sess).1.response.value
      && r.value.directDiscounts == r.value.cart.directDiscounts
      && r.value.discountCodes == r.value.cart.discountCodes
  {
    var read := GetCart(w, sess).1;
    if read.response.None? then Throws(ErrorObject(CART_NOT_FOUND))
    else
      var c := read.response.value;
      Returns(CartDiscounts(c.directDiscounts, c.discountCodes, c))
  }

  datatype FormattedDirect = FormattedDirect(id: string, value: int)
  datatype FormattedCode = FormattedCode(code: string, id: string, state: string, name: string, description: Option<string>)
  datatype TotalDiscount = TotalDiscount(discountedAmount: int, currency: string)
  datatype FormattedDiscounts = FormattedDiscounts(
    directDiscounts: seq<FormattedDirect>,
    codeDiscounts: seq<FormattedCode>,
    totalDiscount: TotalDiscount,
    cartVersion: int)

  function FormatDirect(ds: seq<DirectDiscount>): (r: seq<FormattedDirect>)
    ensures |r| == |ds|
    ensures forall i :: 0 <= i < |ds| ==> r[i] == FormattedDirect(ds[i].id, ds[i].value)
  {
    if |ds| == 0 then [] else [FormattedDirect(ds[0].id, ds[0].value)] + FormatDirect(ds[1..])
  }

  /** One code discount for display: a missing or empty code reads
      `'Unknown'`, a missing or empty English name reads `'Discount'`. */
  function FormatCode(dc: DiscountCodeInfo): (r: FormattedCode)
    ensures r.id == dc.id && r.state == dc.state
    ensures r.code == (if dc.obj.Some? && dc.obj.value.code != "" then dc.obj.value.code else "Unknown")
    ensures r.name == (if dc.obj.Some? && Truthy(dc.obj.value.nameEn) then dc.obj.value.nameEn.value else "Discount")
    ensures r.description == (if dc.obj.Some? then dc.obj.value.descriptionEn else None)
  {
    match dc.obj
    case None => FormattedCode("Unknown", dc.id, dc.state, "Discount", None)
    case Some(o) => FormattedCode(OrElse(Some(o.code), "Unknown"), dc.id, dc.state, OrElse(o.nameEn, "Discount"), o.descriptionEn)
  }

  function FormatCodes(dcs: seq<DiscountCodeInfo>): (r: seq<FormattedCode>)
    ensures |r| == |dcs|
    ensures forall i :: 0 <= i < |dcs| ==> r[i] == FormatCode(dcs[i])
  {
    if |dcs| == 0 then [] else [FormatCode(dcs[0])] + FormatCodes(dcs[1..])
  }

  /** `total − (taxedNet || total)`, in integer cents. */
  function DiscountedAmount(c: Cart): (amount: int)
    ensures !TruthyNum(c.taxedNetCent) ==> amount == 0
    ensures TruthyNum(c.taxedNetCent) ==> amount == c.totalCent - c.taxedNetCent.value
    ensures amount == 0 <==> !TruthyNum(c.taxedNetCent) || c.taxedNetCent.value == c.totalCent
  {
    c.totalCent - (if TruthyNum(c.taxedNetCent) then c.taxedNetCent.value else c.totalCent)
  }

  /** `getCartDiscountsFormatted`: null for no cart; otherwise both discount
      lists mapped one to one (a missing list reads as empty), the discount
      total, and the cart version. */
  function GetCartDiscountsFormatted(cart: Option<Cart>): (r: Option<FormattedDiscounts>)
    ensures r.Some? <==> cart.Some?
    ensures r.Some? ==>
      && |r.value.directDiscounts| == |cart.value.directDiscounts.GetOr([])|
      && (forall i :: 0 <= i < |r.value.directDiscounts| ==>
            r.value.directDiscounts[i].id == cart.value.directDiscounts.value[i].id
            && r.value.directDiscounts[i].value == cart.value.directDiscounts.value[i].value)
      && |r.value.codeDiscounts| == |cart.value.discountCodes.GetOr([])|
      && (forall i :: 0 <= i < |r.value.codeDiscounts| ==>
            r.value.codeDiscounts[i] == FormatCode(cart.value.discountCodes.value[i]))
      && r.value.totalDiscount == TotalDiscount(DiscountedAmount(cart.value), cart.value.currency)
      && r.value.cartVersion == cart.value.version
  {
    match cart
    case None => None
    case Some(c) =>
      Some(FormattedDiscounts(
        FormatDirect(c.directDiscounts.GetOr([])),
        FormatCodes(c.discountCodes.GetOr([])),
        TotalDiscount(DiscountedAmount(c), c.currency),
        c.version))
  }

  /** A discount code as the query returns it. */
  datatype DiscountCode = DiscountCode(code: string, nameEn: Option<string>, descriptionEn: Option<string>, validUntil: Option<string>)

  datatype CodeSummary = CodeSummary(code: string, name: Option<string>, description: Option<string>, validUntil: Option<string>)

  datatype DiscountCodeResponse = DiscountCodeResponse(response: Option<seq<DiscountCode>>, codes: seq<CodeSummary>)

  const ACTIVE_CLAUSE := "isActive = true"
  const VALID_PREFIX := "validUntil > \""
  const VALID_SUFFIX := "\" or validUntil is not defined"

  /** The query predicate: the two clauses joined with ` and `, the second
      quoting the current time as an ISO string. */
  function DiscountWhere(now: string): (w: string)
    ensures w == ACTIVE_CLAUSE + " and " + VALID_PREFIX + now + VALID_SUFFIX
  {
    var clauses := [ACTIVE_CLAUSE, VALID_PREFIX + now + VALID_SUFFIX];
    assert JoinWith(clauses[1..], " and ") == VALID_PREFIX + now + VALID_SUFFIX;
    JoinWith(clauses, " and ")
  }

  /** The timestamp quoted in a predicate built by `DiscountWhere`. */
  function QuotedNow(w: string): string
    requires |w| >= |ACTIVE_CLAUSE + " and " + VALID_PREFIX| + |VALID_SUFFIX|
  {
    w[|ACTIVE_CLAUSE + " and " + VALID_PREFIX|..|w| - |VALID_SUFFIX|]
  }

  /** The predicate quotes exactly the time it was built with. */
  lemma WhereQuotesNow(now: string)
    ensures QuotedNow(DiscountWhere(now)) == now
  {
    var head := ACTIVE_CLAUSE + " and " + VALID_PREFIX;
    var w := DiscountWhere(now);
    assert w == head + now + VALID_SUFFIX;
    assert w[|head|..|w| - |VALID_SUFFIX|] == now;
  }

  function Summaries(cs: seq<DiscountCode>): (r: seq<CodeSummary>)
    ensures |r| == |cs|
    ensures forall i :: 0 <= i < |cs| ==>
      r[i] == CodeSummary(cs[i].code, cs[i].nameEn, cs[i].descriptionEn, cs[i].validUntil)
  {
    if |cs| == 0 then []
    else [CodeSummary(cs[0].code, cs[0].nameEn, cs[0].descriptionEn, cs[0].validUntil)] + Summaries(cs[1..])
  }

  /** `getActiveDiscountCodes`: queries with `DiscountWhere(now)`; maps the
      results one to one, in order; any error yields no codes and no response. */
  function GetActiveDiscountCodes(now: string, query: Call<seq<DiscountCode>>): (r: (string, DiscountCodeResponse))
    ensures r.0 == DiscountWhere(now)
    ensures r.1.response.Some? <==> query.Returns?
    ensures query.Throws? ==> r.1.codes == []
    ensures query.Returns? ==> r.1.response == Some(query.value) && r.1.codes == Summaries(query.value)
  {
    match query
    case Returns(results) => (DiscountWhere(now), DiscountCodeResponse(Some(results), Summaries(results)))
    case Throws(_) => (DiscountWhere(now), DiscountCodeResponse(None, []))
  }
}
