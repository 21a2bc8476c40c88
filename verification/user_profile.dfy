/** The profile page: the customer's addresses sorted into billing, shipping
    and other, and the default billing and shipping addresses. */
module UserProfile {
  import opened Common
  import opened CustomerActions

  /** The parts of the customer record the page reads. */
  datatype ProfileCustomer = ProfileCustomer(
    addresses: Option<seq<Address>>,
    billingAddressIds: Option<seq<string>>,
    shippingAddressIds: Option<seq<string>>,
    defaultBillingAddressId: Option<string>,
    defaultShippingAddressId: Option<string>)

  /** `addresses.find((addr) => addr.id === id)`: the first address with the id. */
  function FindById(addresses: seq<Address>, id: string): (r: Option<Address>)
    ensures r.Some? <==> exists a :: a in addresses && a.id == Some(id)
    ensures r.Some? ==> r.value in addresses && r.value.id == Some(id)
    ensures r.Some? ==>
      exists i :: 0 <= i < |addresses| && addresses[i] == r.value && forall k :: 0 <= k < i ==> addresses[k].id != Some(id)
    ensures |addresses| > 0 && addresses[0].id == Some(id) ==> r == Some(addresses[0])
  {
    if |addresses| == 0 then None
    else if addresses[0].id == Some(id) then Some(addresses[0])
    else
      assert forall a :: a in addresses && a != addresses[0] ==> a in addresses[1..];
      var r := FindById(addresses[1..], id);
      if r.Some? then
        var i :| 0 <= i < |addresses[1..]| && addresses[1..][i] == r.value
          && forall k :: 0 <= k < i ==> addresses[1..][k].id != Some(id);
        assert addresses[i + 1] == r.value;
        r
      else
        r
  }

  /** `getAddressById`: an undefined or empty id finds nothing. */
  function DefaultAddress(addresses: seq<Address>, id: Option<string>): (r: Option<Address>)
    ensures !Truthy(id) ==> r.None?
    ensures Truthy(id) ==> r == FindById(addresses, id.value)
    ensures r.Some? <==> Truthy(id) && exists a :: a in addresses && a.id == id
    ensures r.Some? ==>
      exists i :: 0 <= i < |addresses| && addresses[i] == r.value && forall k :: 0 <= k < i ==> addresses[k].id != id
  {
    if !Truthy(id) then None else FindById(addresses, id.value)
  }

  /** The ids of addresses that have one, in order. */
  function IdsOf(addresses: seq<Address>): (r: seq<string>)
    ensures |r| <= |addresses|
    ensures forall x :: x in r <==> exists a :: a in addresses && a.id == Some(x)
  {
    if |addresses| == 0 then []
    else
      var rest := IdsOf(addresses[1..]);
      assert forall a :: a in addresses[1..] ==> a in addresses;
      assert forall a :: a in addresses && a != addresses[0] ==> a in addresses[1..];
      if addresses[0].id.Some? then [addresses[0].id.value] + rest else rest
  }

  /** `ids.map((id) => addresses.find((addr) => addr.id === id))`: one lookup per id. */
  function Lookups(addresses: seq<Address>, ids: seq<string>): (os: seq<Option<Address>>)
    ensures |os| == |ids|
    ensures forall i :: 0 <= i < |ids| ==> os[i] == FindById(addresses, ids[i])
  {
    seq(|ids|, i requires 0 <= i < |ids| => FindById(addresses, ids[i]))
  }

  /** `.filter((addr) => addr !== undefined)`: the found values, in order
      (wrapped back, they are a subsequence of the lookups), each as often as
      it was found. */
  function Defined(os: seq<Option<Address>>): (r: seq<Address>)
    ensures |r| <= |os|
    ensures forall a :: Count(r, a) == Count(os, Some(a))
    ensures IsSubsequence(Somes(r), os)
  {
    if |os| == 0 then []
    else
      var rest := Defined(os[1..]);
      if os[0].Some? then
        var r := [os[0].value] + rest;
        assert r[1..] == rest;
        assert Somes(r)[1..] == Somes(rest);
        r
      else
        assert [os[0]] + os[1..] == os;
        SubsequenceExtend(Somes(rest), os[1..], os[0]);
        rest
  }

  /** Each address wrapped as a found lookup. */
  function Somes(r: seq<Address>): (os: seq<Option<Address>>)
    ensures |os| == |r|
    ensures forall i :: 0 <= i < |r| ==> os[i] == Some(r[i])
  {
    seq(|r|, i requires 0 <= i < |r| => Some(r[i]))
  }

  /** The billing or shipping list: the address of each id that has one,
      in the order of the ids, a repeated id listing its address again. */
  function ByIds(addresses: seq<Address>, ids: seq<string>): (r: seq<Address>)
    ensures r == Defined(Lookups(addresses, ids))
    ensures |r| <= |ids|
    ensures forall a :: a in r ==> a in addresses && a.id.Some? && a.id.value in ids
    ensures IsSubsequence(IdsOf(r), ids)
    ensures forall i :: 0 <= i < |ids| && FindById(addresses, ids[i]).Some? ==> FindById(addresses, ids[i]).value in r
  {
    if |ids| == 0 then []
    else
      var rest := ByIds(addresses, ids[1..]);
      assert [ids[0]] + ids[1..] == ids;
      assert forall i :: 1 <= i < |ids| ==> ids[i] == ids[1..][i - 1];
      var found := FindById(addresses, ids[0]);
      LookupsStep(addresses, ids);
      if found.Some? then
        var r := [found.value] + rest;
        assert r[1..] == rest;
        assert IdsOf(r) == [ids[0]] + IdsOf(rest);
        r
      else
        SubsequenceExtend(IdsOf(rest), ids[1..], ids[0]);
        rest
  }

  /** Filtering the lookups of a non-empty id list: the first id's address,
      when found, in front of the filtered lookups of the rest. */
  lemma LookupsStep(addresses: seq<Address>, ids: seq<string>)
    requires |ids| > 0
    ensures var found := FindById(addresses, ids[0]);
      Defined(Lookups(addresses, ids))
        == (if found.Some? then [found.value] else []) + Defined(Lookups(addresses, ids[1..]))
  {
    var os := Lookups(addresses, ids);
    assert os[0] == FindById(addresses, ids[0]);
    assert os[1..] == Lookups(addresses, ids[1..]);
  }

  /** A repeated id lists its address twice, and the address is the first
      one with that id, whatever later addresses share it. */
  lemma RepeatedIdListedTwice(addresses: seq<Address>, id: string)
    requires FindById(addresses, id).Some?
    ensures ByIds(addresses, [id, id]) == [FindById(addresses, id).value, FindById(addresses, id).value]
  {
    var a := FindById(addresses, id).value;
    assert [id, id][1..] == [id];
    assert [id][1..] == [];
    assert ByIds(addresses, [id]) == [a];
  }

  /** The addresses with an id that neither list names, in their order. */
  function Others(addresses: seq<Address>, used: seq<string>): (r: seq<Address>)
    ensures forall a :: a in r <==> a in addresses && a.id.Some? && a.id.value !in used
    ensures IsSubsequence(r, addresses)
    ensures forall a :: Count(r, a) == if a.id.Some? && a.id.value !in used then Count(addresses, a) else 0
  {
    if |addresses| == 0 then []
    else
      var rest := Others(addresses[1..], used);
      assert [addresses[0]] + addresses[1..] == addresses;
      SubsequenceExtend(rest, addresses[1..], addresses[0]);
      if addresses[0].id.Some? && addresses[0].id.value !in used then
        var r := [addresses[0]] + rest;
        assert r[1..] == rest;
        r
      else rest
  }

  /** What the page shows. */
  datatype ProfileView =
    | Loaded(billing: seq<Address>, shipping: seq<Address>, other: seq<Address>, defaultBilling: Option<Address>, defaultShipping: Option<Address>)
    | Failed(error: string)

  const NOT_AVAILABLE := "User data is not available or user is not registered"
  const LOAD_ERROR := "Error loading data"

  /** The page's load effect. The billing and shipping lookups read
      `customerData.addresses` without the `?? []` fallback, so a record
      without addresses but with a non-empty id list throws, and the catch
      shows the load error. */
  function LoadProfile(loaded: Call<Envelope<ProfileCustomer>>): (r: ProfileView)
    ensures loaded.Throws? ==> r == Failed(LOAD_ERROR)
    ensures loaded.Returns? && !(loaded.value.success && loaded.value.response.Some?) ==> r == Failed(NOT_AVAILABLE)
    ensures r.Loaded? ==>
      var c := loaded.value.response.value;
      var addresses := c.addresses.GetOr([]);
      var billingIds := c.billingAddressIds.GetOr([]);
      var shippingIds := c.shippingAddressIds.GetOr([]);
      && (forall a :: a in r.other <==> a in addresses && a.id.Some? && a.id.value !in billingIds && a.id.value !in shippingIds)
      && (forall a :: a in r.billing ==> a in addresses && a.id.Some? && a.id.value in billingIds)
      && (forall a :: a in r.shipping ==> a in addresses && a.id.Some? && a.id.value in shippingIds)
      && r.billing == ByIds(addresses, billingIds)
      && r.shipping == ByIds(addresses, shippingIds)
      && r.other == Others(addresses, billingIds + shippingIds)
      && r.defaultBilling == DefaultAddress(addresses, c.defaultBillingAddressId)
      && r.defaultShipping == DefaultAddress(addresses, c.defaultShippingAddressId)
    ensures loaded.Returns? && loaded.value.success && loaded.value.response.Some? ==>
      var c := loaded.value.response.value;
      r.Failed? <==> c.addresses.None? && (|c.billingAddressIds.GetOr([])| > 0 || |c.shippingAddressIds.GetOr([])| > 0)
  {
    match loaded
    case Throws(_) => Failed(LOAD_ERROR)
    case Returns(res) =>
      if !(res.success && res.response.Some?) then Failed(NOT_AVAILABLE)
      else
        var c := res.response.value;
        var addresses := c.addresses.GetOr([]);
        var billingIds := c.billingAddressIds.GetOr([]);
        var shippingIds := c.shippingAddressIds.GetOr([]);
        if c.addresses.None? && (|billingIds| > 0 || |shippingIds| > 0) then Failed(LOAD_ERROR)
        else
          Loaded(
            ByIds(addresses, billingIds),
            ByIds(addresses, shippingIds),
            Others(addresses, billingIds + shippingIds),
            DefaultAddress(addresses, c.defaultBillingAddressId),
            DefaultAddress(addresses, c.defaultShippingAddressId))
  }

  /** Address ids are unique. */
  predicate UniqueAddressIds(addresses: seq<Address>) {
    forall i, j :: 0 <= i < j < |addresses| && addresses[i].id.Some? ==> addresses[i].id != addresses[j].id
  }

  lemma {:induction false} FindUnique(addresses: seq<Address>, a: Address)
    requires UniqueAddressIds(addresses) && a in addresses && a.id.Some?
    ensures FindById(addresses, a.id.value) == Some(a)
  {
    if addresses[0] != a {
      var j :| 0 <= j < |addresses| && addresses[j] == a;
      assert j > 0;
      assert a in addresses[1..] by { assert addresses[1..][j - 1] == a; }
      assert UniqueAddressIds(addresses[1..]) by {
        forall x, y | 0 <= x < y < |addresses[1..]| && addresses[1..][x].id.Some?
          ensures addresses[1..][x].id != addresses[1..][y].id
        {
          assert addresses[1..][x] == addresses[x + 1] && addresses[1..][y] == addresses[y + 1];
        }
      }
      FindUnique(addresses[1..], a);
    }
  }

  /** With unique ids the page loses no address that has an id: it is listed
      as billing exactly when its id is a billing id, as shipping exactly when
      its id is a shipping id (so possibly as both), and as other exactly when
      it is neither. An address without an id is in no list. */
  lemma EveryAddressListed(addresses: seq<Address>, billingIds: seq<string>, shippingIds: seq<string>, a: Address)
    requires UniqueAddressIds(addresses) && a in addresses
    ensures var billing := ByIds(addresses, billingIds);
      var shipping := ByIds(addresses, shippingIds);
      var other := Others(addresses, billingIds + shippingIds);
      && (a.id.None? ==> a !in billing && a !in shipping && a !in other)
      && (a.id.Some? ==> (a in billing <==> a.id.value in billingIds))
      && (a.id.Some? ==> (a in shipping <==> a.id.value in shippingIds))
      && (a.id.Some? ==> (a in billing || a in shipping || a in other))
      && (a.id.Some? ==> (a in other <==> a !in billing && a !in shipping))
  {
    if a.id.Some? {
      FindUnique(addresses, a);
      var id := a.id.value;
      if id in billingIds {
        var i :| 0 <= i < |billingIds| && billingIds[i] == id;
      }
      if id in shippingIds {
        var i :| 0 <= i < |shippingIds| && shippingIds[i] == id;
      }
    }
  }
}
