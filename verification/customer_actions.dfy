/** The update actions a signed-in customer may post about themself, and the
    nine constructors that build them. */
module CustomerActions {
  import opened Common

  /** A postal address as the platform stores it; `id` is assigned by the
      platform and absent on a fresh draft. */
  datatype Address = Address(
    id: Option<string>,
    streetName: Option<string>,
    city: Option<string>,
    postalCode: Option<string>,
    country: string)

  /** One entry of a customer update's `actions` array. */
  datatype CustomerAction =
    | SetFirstName(firstName: string)
    | SetLastName(lastName: string)
    | ChangeEmail(email: string)
    | SetDateOfBirth(dateOfBirth: string)
    | AddAddress(address: Address)
    | ChangeAddress(addressId: string, address: Address)
    | RemoveAddress(addressId: string)
    | SetDefaultShippingAddress(addressId: string)
    | SetDefaultBillingAddress(addressId: string)

  /** A field value of an action object as it goes over the wire. */
  datatype Field = Str(text: string) | Addr(address: Address)

  /** An action object: its `action` discriminator and its other properties. */
  datatype WireAction = WireAction(action: string, fields: map<string, Field>)

  /** The object literal each constructor returns. */
  function ToWire(a: CustomerAction): (w: WireAction)
    ensures FromWire(w) == Some(a)
  {
    match a
    case SetFirstName(n) => WireAction("setFirstName", map["firstName" := Str(n)])
    case SetLastName(n) => WireAction("setLastName", map["lastName" := Str(n)])
    case ChangeEmail(e) => WireAction("changeEmail", map["email" := Str(e)])
    case SetDateOfBirth(d) => WireAction("setDateOfBirth", map["dateOfBirth" := Str(d)])
    case AddAddress(addr) => WireAction("addAddress", map["address" := Addr(addr)])
    case ChangeAddress(id, addr) =>
      WireAction("changeAddress", map["addressId" := Str(id), "address" := Addr(addr)])
    case RemoveAddress(id) => WireAction("removeAddress", map["addressId" := Str(id)])
    case SetDefaultShippingAddress(id) => WireAction("setDefaultShippingAddress", map["addressId" := Str(id)])
    case SetDefaultBillingAddress(id) => WireAction("setDefaultBillingAddress", map["addressId" := Str(id)])
  }

  /** The string property `key` of an action object, if it has one. */
  function StrField(w: WireAction, key: string): Option<string> {
    if key in w.fields && w.fields[key].Str? then Some(w.fields[key].text) else None
  }

  /** The address property `key` of an action object, if it has one. */
  function AddrField(w: WireAction, key: string): Option<Address> {
    if key in w.fields && w.fields[key].Addr? then Some(w.fields[key].address) else None
  }

  /** Reads an action object back the way the platform does: the discriminator
      selects the action, whose properties are then looked up by name. */
  function FromWire(w: WireAction): Option<CustomerAction> {
    var name := StrField(w, "firstName");
    var last := StrField(w, "lastName");
    var email := StrField(w, "email");
    var dob := StrField(w, "dateOfBirth");
    var id := StrField(w, "addressId");
    var addr := AddrField(w, "address");
    if w.action == "setFirstName" && name.Some? then Some(SetFirstName(name.value))
    else if w.action == "setLastName" && last.Some? then Some(SetLastName(last.value))
    else if w.action == "changeEmail" && email.Some? then Some(ChangeEmail(email.value))
    else if w.action == "setDateOfBirth" && dob.Some? then Some(SetDateOfBirth(dob.value))
    else if w.action == "addAddress" && addr.Some? then Some(AddAddress(addr.value))
    else if w.action == "changeAddress" && id.Some? && addr.Some? then Some(ChangeAddress(id.value, addr.value))
    else if w.action == "removeAddress" && id.Some? then Some(RemoveAddress(id.value))
    else if w.action == "setDefaultShippingAddress" && id.Some? then Some(SetDefaultShippingAddress(id.value))
    else if w.action == "setDefaultBillingAddress" && id.Some? then Some(SetDefaultBillingAddress(id.value))
    else None
  }

  function CreateSetFirstNameAction(firstName: string): (a: CustomerAction)
    ensures ToWire(a) == WireAction("setFirstName", map["firstName" := Str(firstName)])
  {
    SetFirstName(firstName)
  }

  function CreateSetLastNameAction(lastName: string): (a: CustomerAction)
    ensures ToWire(a) == WireAction("setLastName", map["lastName" := Str(lastName)])
  {
    SetLastName(lastName)
  }

  function CreateChangeEmailAction(email: string): (a: CustomerAction)
    ensures ToWire(a) == WireAction("changeEmail", map["email" := Str(email)])
  {
    ChangeEmail(email)
  }

  function CreateSetDateOfBirthAction(dateOfBirth: string): (a: CustomerAction)
    ensures ToWire(a) == WireAction("setDateOfBirth", map["dateOfBirth" := Str(dateOfBirth)])
  {
    SetDateOfBirth(dateOfBirth)
  }

  function CreateAddAddressAction(address: Address): (a: CustomerAction)
    ensures ToWire(a) == WireAction("addAddress", map["address" := Addr(address)])
  {
    AddAddress(address)
  }

  function CreateChangeAddressAction(addressId: string, address: Address): (a: CustomerAction)
    ensures ToWire(a) == WireAction("changeAddress", map["addressId" := Str(addressId), "address" := Addr(address)])
  {
    ChangeAddress(addressId, address)
  }

  function CreateRemoveAddressAction(addressId: string): (a: CustomerAction)
    ensures ToWire(a) == WireAction("removeAddress", map["addressId" := Str(addressId)])
  {
    RemoveAddress(addressId)
  }

  function CreateSetDefaultShippingAddressAction(addressId: string): (a: CustomerAction)
    ensures ToWire(a) == WireAction("setDefaultShippingAddress", map["addressId" := Str(addressId)])
  {
    SetDefaultShippingAddress(addressId)
  }

  function CreateSetDefaultBillingAddressAction(addressId: string): (a: CustomerAction)
    ensures ToWire(a) == WireAction("setDefaultBillingAddress", map["addressId" := Str(addressId)])
  {
    SetDefaultBillingAddress(addressId)
  }

  /** The default-shipping and default-billing actions for the same address
      carry the same properties and differ only in their discriminator. */
  lemma DefaultAddressPair(addressId: string)
    ensures var s := ToWire(CreateSetDefaultShippingAddressAction(addressId));
      var b := ToWire(CreateSetDefaultBillingAddressAction(addressId));
      s.fields == b.fields && s.action != b.action
  {
  }

  /** Distinct actions never produce the same object, so the platform can tell
      every update apart. */
  lemma ToWireInjective(a: CustomerAction, b: CustomerAction)
    ensures ToWire(a) == ToWire(b) ==> a == b
  {
    assert FromWire(ToWire(a)) == Some(a);
    assert FromWire(ToWire(b)) == Some(b);
  }
}
