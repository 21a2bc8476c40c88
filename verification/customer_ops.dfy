/** The signed-in customer's own record: reading it, updating it with a list of
    actions, and changing the password. The platform's answers to the `me`
    endpoints are parameters; what the client sends is recorded as a list of
    requests. */
module CustomerOps {
  import opened Common
  import opened CustomerActions

  /** The customer record the `me` endpoint returns; `version` is None when the
      body carries no numeric version. */
  datatype CustomerBody = CustomerBody(id: string, version: Option<int>)

  /** A request sent to the `me` endpoints, in the order it was sent. */
  datatype CustomerRequest =
    | GetMe
    | PostMe(version: Option<int>, actions: seq<CustomerAction>)
    | PostPassword(passwordVersion: int, currentPassword: string, newPassword: string)

  /** A result together with the requests that produced it. */
  datatype Traced<+T> = Traced(requests: seq<CustomerRequest>, result: T)

  datatype AddressOp = AddAddressOp | ChangeAddressOp | RemoveAddressOp

  /** The `addresses` part of an update form. */
  datatype AddressChange = AddressChange(action: AddressOp, addressId: Option<string>, address: Option<Address>)

  /** The optional-field record the profile form submits. */
  datatype CustomerUpdateData = CustomerUpdateData(
    firstName: Option<string>,
    lastName: Option<string>,
    email: Option<string>,
    dateOfBirth: Option<string>,
    addresses: Option<AddressChange>,
    defaultShippingAddress: Option<string>,
    defaultBillingAddress: Option<string>)

  const NOT_AUTHENTICATED := "User not authenticated"
  const UNKNOWN_ERROR := "Unknown error"

  /** The position of an action's kind in the list `updateCustomer` builds;
      the three address actions share one position. */
  function Rank(a: CustomerAction): nat {
    match a
    case SetFirstName(_) => 0
    case SetLastName(_) => 1
    case ChangeEmail(_) => 2
    case SetDateOfBirth(_) => 3
    case AddAddress(_) => 4
    case ChangeAddress(_, _) => 4
    case RemoveAddress(_) => 4
    case SetDefaultShippingAddress(_) => 5
    case SetDefaultBillingAddress(_) => 6
  }

  predicate IsAddressAction(a: CustomerAction) {
    a.AddAddress? || a.ChangeAddress? || a.RemoveAddress?
  }

  /** Kinds strictly increase along the list, so each kind occurs at most once. */
  predicate Ranked(s: seq<CustomerAction>) {
    forall i, j :: 0 <= i < j < |s| ==> Rank(s[i]) < Rank(s[j])
  }

  /** The address action an `addresses` change asks for, if its required
      sub-fields are present. */
  function AddressActionFor(c: Option<AddressChange>): (r: Option<CustomerAction>)
    ensures r.Some? ==> IsAddressAction(r.value)
    ensures r.Some? && r.value.AddAddress? <==>
      c.Some? && c.value.action == AddAddressOp && c.value.address.Some?
    ensures r.Some? && r.value.ChangeAddress? <==>
      c.Some? && c.value.action == ChangeAddressOp && Truthy(c.value.addressId) && c.value.address.Some?
    ensures r.Some? && r.value.RemoveAddress? <==>
      c.Some? && c.value.action == RemoveAddressOp && Truthy(c.value.addressId)
    ensures r.Some? && !r.value.RemoveAddress? ==> r.value.address == c.value.address.value
    ensures r.Some? && !r.value.AddAddress? ==> r.value.addressId == c.value.addressId.value
  {
    if c.None? then None
    else if c.value.action == AddAddressOp && c.value.address.Some? then
      Some(CreateAddAddressAction(c.value.address.value))
    else if c.value.action == ChangeAddressOp && Truthy(c.value.addressId) && c.value.address.Some? then
      Some(CreateChangeAddressAction(c.value.addressId.value, c.value.address.value))
    else if c.value.action == RemoveAddressOp && Truthy(c.value.addressId) then
      Some(CreateRemoveAddressAction(c.value.addressId.value))
    else None
  }

  /** Whether `updateCustomer` asks for action `a`: a field action exactly when
      that field is truthy and carries its value, an address action exactly
      when the `addresses` change asks for it. */
  predicate Wanted(d: CustomerUpdateData, a: CustomerAction) {
    match a
    case SetFirstName(n) => Truthy(d.firstName) && n == d.firstName.value
    case SetLastName(n) => Truthy(d.lastName) && n == d.lastName.value
    case ChangeEmail(e) => Truthy(d.email) && e == d.email.value
    case SetDateOfBirth(b) => Truthy(d.dateOfBirth) && b == d.dateOfBirth.value
    case AddAddress(_) => AddressActionFor(d.addresses) == Some(a)
    case ChangeAddress(_, _) => AddressActionFor(d.addresses) == Some(a)
    case RemoveAddress(_) => AddressActionFor(d.addresses) == Some(a)
    case SetDefaultShippingAddress(i) => Truthy(d.defaultShippingAddress) && i == d.defaultShippingAddress.value
    case SetDefaultBillingAddress(i) => Truthy(d.defaultBillingAddress) && i == d.defaultBillingAddress.value
  }

  /** `if (field) actions.push(make(field))` */
  function WhenTruthy(field: Option<string>, make: string -> CustomerAction): (r: Option<CustomerAction>)
    ensures r.Some? <==> Truthy(field)
    ensures r.Some? ==> r.value == make(field.value)
  {
    if Truthy(field) then Some(make(field.value)) else None
  }

  /** The action, if any, that `updateCustomer` emits at position `k` of its
      fixed order. */
  function Slot(d: CustomerUpdateData, k: nat): (r: Option<CustomerAction>)
    ensures r.Some? ==> Rank(r.value) == k
  {
    if k == 0 then WhenTruthy(d.firstName, CreateSetFirstNameAction)
    else if k == 1 then WhenTruthy(d.lastName, CreateSetLastNameAction)
    else if k == 2 then WhenTruthy(d.email, CreateChangeEmailAction)
    else if k == 3 then WhenTruthy(d.dateOfBirth, CreateSetDateOfBirthAction)
    else if k == 4 then AddressActionFor(d.addresses)
    else if k == 5 then WhenTruthy(d.defaultShippingAddress, CreateSetDefaultShippingAddressAction)
    else if k == 6 then WhenTruthy(d.defaultBillingAddress, CreateSetDefaultBillingAddressAction)
    else None
  }

  /** An action is wanted exactly when it fills the slot of its own kind. */
  lemma WantedIsSlot(d: CustomerUpdateData, a: CustomerAction)
    ensures Wanted(d, a) <==> Slot(d, Rank(a)) == Some(a)
  {
  }

  /** The actions of slots `k` onwards, in slot order. */
  function BuildFrom(d: CustomerUpdateData, k: nat): (r: seq<CustomerAction>)
    ensures Ranked(r)
    ensures forall i :: 0 <= i < |r| ==> k <= Rank(r[i])
    ensures forall a :: a in r <==> k <= Rank(a) && Slot(d, Rank(a)) == Some(a)
    decreases 7 - k
  {
    if k >= 7 then []
    else
      var rest := BuildFrom(d, k + 1);
      var o := Slot(d, k);
      if o.Some? then [o.value] + rest else rest
  }

  /** The action list `updateCustomer` builds: one action per truthy field, in
      the fixed order first name, last name, email, date of birth, address,
      default shipping, default billing. */
  function BuildActions(d: CustomerUpdateData): (acts: seq<CustomerAction>)
    ensures Ranked(acts)
    ensures forall a :: a in acts <==> Wanted(d, a)
  {
    var acts := BuildFrom(d, 0);
    forall a ensures a in acts <==> Wanted(d, a) {
      WantedIsSlot(d, a);
    }
    acts
  }

  /** A ranked list, such as the one `BuildActions` returns, holds at most one
      address action. */
  lemma AtMostOneAddressAction(s: seq<CustomerAction>, i: nat, j: nat)
    requires Ranked(s) && i < j < |s|
    ensures !(IsAddressAction(s[i]) && IsAddressAction(s[j]))
  {
    assert Rank(s[i]) < Rank(s[j]);
  }

  /** `getCurrentCustomer`: without a root or a signed-in customer nothing is
      requested; otherwise the record is read once. */
  function GetCurrentCustomer(hasRoot: bool, isLoggedIn: bool, get: Call<CustomerBody>): (r: Traced<Envelope<CustomerBody>>)
    ensures r.result.success <==> r.result.response.Some?
    ensures r.result.success <==> hasRoot && isLoggedIn && get.Returns?
    ensures !(hasRoot && isLoggedIn) ==> r.requests == [] && r.result.message == NOT_AUTHENTICATED
    ensures hasRoot && isLoggedIn ==> r.requests == [GetMe]
    ensures r.result.success ==>
      r.result.response == Some(get.value) && r.result.message == "Customer data retrieved successfully"
    ensures hasRoot && isLoggedIn && get.Throws? ==> r.result.message == MessageOr(get.error, UNKNOWN_ERROR)
  {
    if !hasRoot || !isLoggedIn then Traced([], Failure(NOT_AUTHENTICATED))
    else match get
      case Returns(body) => Traced([GetMe], Envelope(Some(body), true, "Customer data retrieved successfully"))
      case Throws(e) => Traced([GetMe], Failure(MessageOr(e, UNKNOWN_ERROR)))
  }

  /** `updateCustomer`: reads the record for its version, then posts the action
      list with that version, even when the list is empty. */
  function UpdateCustomer(
    hasRoot: bool, isLoggedIn: bool, d: CustomerUpdateData,
    get: Call<CustomerBody>, post: Call<CustomerBody>): (r: Traced<Envelope<CustomerBody>>)
    ensures !(hasRoot && isLoggedIn) ==> r.requests == [] && r.result == Failure(NOT_AUTHENTICATED)
    ensures hasRoot && isLoggedIn && get.Throws? ==>
      r.requests == [GetMe] && r.result == Failure(MessageOr(get.error, UNKNOWN_ERROR))
    ensures hasRoot && isLoggedIn && get.Returns? ==>
      r.requests == [GetMe, PostMe(get.value.version, BuildActions(d))]
    ensures r.result.success <==> hasRoot && isLoggedIn && get.Returns? && post.Returns?
    ensures r.result.success ==>
      r.result == Envelope(Some(post.value), true, "Customer updated successfully")
    ensures hasRoot && isLoggedIn && get.Returns? && post.Throws? ==>
      r.result == Failure(MessageOr(post.error, UNKNOWN_ERROR))
  {
    if !hasRoot || !isLoggedIn then Traced([], Failure(NOT_AUTHENTICATED))
    else match get
      case Throws(e) => Traced([GetMe], Failure(MessageOr(e, UNKNOWN_ERROR)))
      case Returns(current) =>
        var requests := [GetMe, PostMe(current.version, BuildActions(d))];
        match post
        case Returns(body) => Traced(requests, Envelope(Some(body), true, "Customer updated successfully"))
        case Throws(e) => Traced(requests, Failure(MessageOr(e, UNKNOWN_ERROR)))
  }

  /** The catch block of `changePassword`: an Error's message, a thrown string
      itself, or a fixed fallback. */
  function PasswordErrorMessage(e: Thrown): (m: string)
    ensures e.ErrorObject? ==> m == e.message
    ensures e.ThrownString? ==> m == e.text
    ensures e.ThrownOther? ==> m == "Failed to change password"
  {
    match e
    case ErrorObject(msg) => msg
    case ThrownString(text) => text
    case ThrownOther => "Failed to change password"
  }

  /** `changePassword`: reads the record through `getCurrentCustomer` (as a
      signed-in customer), takes its version when it is a number and 1
      otherwise, and posts the two passwords unchanged. */
  function ChangePassword(
    hasRoot: bool, currentPassword: string, newPassword: string,
    get: Call<CustomerBody>, post: Call<CustomerBody>): (r: Traced<Envelope<CustomerBody>>)
    ensures !hasRoot ==> r.requests == [] && r.result == Failure("API root is not initialized")
    ensures hasRoot ==>
      var version := if get.Returns? && get.value.version.Some? then get.value.version.value else 1;
      r.requests == [GetMe, PostPassword(version, currentPassword, newPassword)]
    ensures r.result.success <==> hasRoot && post.Returns?
    ensures r.result.success ==> r.result == Envelope(Some(post.value), true, "Password changed successfully")
    ensures hasRoot && post.Throws? ==> r.result == Failure(PasswordErrorMessage(post.error))
  {
    if !hasRoot then Traced([], Failure("API root is not initialized"))
    else
      var current := GetCurrentCustomer(hasRoot, true, get);
      var version :=
        if current.result.response.Some? && current.result.response.value.version.Some?
        then current.result.response.value.version.value
        else 1;
      var requests := current.requests + [PostPassword(version, currentPassword, newPassword)];
      match post
      case Returns(body) => Traced(requests, Envelope(Some(body), true, "Password changed successfully"))
      case Throws(e) => Traced(requests, Failure(PasswordErrorMessage(e)))
  }
}
