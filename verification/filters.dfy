/** The filter dialog of the product list: toggling colour and finish
    selections, the facet cache with its fifteen-minute lifetime, loading the
    available attributes, reset, and the colour swatch labels. */
module Filters {
  import opened Common
  import opened JsString

  /** `prev.filter((c) => c !== v)` */
  function Remove(s: seq<string>, v: string): (r: seq<string>)
    ensures forall x :: x in r <==> x in s && x != v
    ensures IsSubsequence(r, s)
    ensures forall x :: x != v ==> Count(r, x) == Count(s, x)
  {
    if |s| == 0 then []
    else
      var rest := Remove(s[1..], v);
      assert [s[0]] + s[1..] == s;
      SubsequenceExtend(rest, s[1..], s[0]);
      if s[0] == v then rest else [s[0]] + rest
  }

  /** `handleColorToggle` / `handleSizeToggle`: a selected value is removed
      (every occurrence), an unselected one is appended. */
  function Toggle(prev: seq<string>, v: string): (r: seq<string>)
    ensures v in r <==> v !in prev
    ensures forall x :: x != v ==> (x in r <==> x in prev)
    ensures v in prev ==> IsSubsequence(r, prev) && forall x :: x != v ==> Count(r, x) == Count(prev, x)
    ensures v !in prev ==> |r| == |prev| + 1 && r[..|prev|] == prev && r[|prev|] == v
  {
    if v in prev then Remove(prev, v) else prev + [v]
  }

  /** Removing a value that is absent changes nothing. */
  lemma {:induction false} RemoveAbsent(s: seq<string>, v: string)
    requires v !in s
    ensures Remove(s, v) == s
  {
    if |s| > 0 {
      assert v !in s[1..];
      RemoveAbsent(s[1..], v);
    }
  }

  /** Selecting a value and deselecting it again restores the selection. */
  lemma {:induction false} ToggleTwice(prev: seq<string>, v: string)
    requires v !in prev
    ensures Toggle(Toggle(prev, v), v) == prev
  {
    RemoveAppended(prev, v);
  }

  lemma {:induction false} RemoveAppended(s: seq<string>, v: string)
    requires v !in s
    ensures Remove(s + [v], v) == s
  {
    if |s| == 0 {
      assert Remove([v], v) == Remove([], v);
    } else {
      assert (s + [v])[1..] == s[1..] + [v];
      assert v !in s[1..];
      RemoveAppended(s[1..], v);
    }
  }

  /** The attributes the dialog offers. */
  datatype Attributes = Attributes(colors: seq<string>, finish: seq<string>, minPrice: int, maxPrice: int)

  const INITIAL_ATTRIBUTES := Attributes([], [], 0, 10000)

  /** `CachedFacets`: the attributes and the time they were fetched. */
  datatype CachedFacets = CachedFacets(colors: seq<string>, finish: seq<string>, minPrice: int, maxPrice: int, timestamp: int)

  /** The `filterFacetsCache` storage entry: nothing (or an empty string),
      text that does not parse, or a parsed record. */
  datatype Stored = Missing | Garbled | Parsed(data: CachedFacets)

  /** Fifteen minutes, in milliseconds. */
  const CACHE_EXPIRY_TIME := 15 * 60 * 1000

  /** `getCachedFacets`: the stored record while it is younger than the
      expiry time. */
  function GetCachedFacets(stored: Stored, now: int): (r: Option<CachedFacets>)
    ensures r.Some? <==> stored.Parsed? && now - stored.data.timestamp < 900000
    ensures r.Some? ==> r.value == stored.data
  {
    if stored.Parsed? && now - stored.data.timestamp < CACHE_EXPIRY_TIME then Some(stored.data) else None
  }

  /** `cacheFacets`: the attributes stamped with the current time. */
  function CacheFacets(a: Attributes, now: int): (c: CachedFacets)
    ensures c.timestamp == now
    ensures AttributesOf(c) == a
  {
    CachedFacets(a.colors, a.finish, a.minPrice, a.maxPrice, now)
  }

  function AttributesOf(c: CachedFacets): Attributes {
    Attributes(c.colors, c.finish, c.minPrice, c.maxPrice)
  }

  /** A cached record is read back unchanged exactly while it is fresh. */
  lemma CacheRoundTrip(a: Attributes, stampedAt: int, now: int)
    ensures var r := GetCachedFacets(Parsed(CacheFacets(a, stampedAt)), now);
      && (r.Some? <==> now - stampedAt < 900000)
      && (r.Some? ==> AttributesOf(r.value) == a)
  {
  }

  /** One range of the price facet. */
  datatype RangeEntry = RangeEntry(min: Option<int>, max: Option<int>)

  /** A facet result: a terms facet, a range facet, or another kind. */
  datatype FacetResult = Terms(terms: seq<string>) | Ranges(ranges: seq<RangeEntry>) | OtherFacet

  const COLOR_FACET := "variants.attributes.color.en-US"
  const FINISH_FACET := "variants.attributes.finish.en-US"
  const PRICE_FACET := "variants.attributes.price"

  /** `x || d` on an optional number. */
  function NumOr(x: Option<int>, d: int): int {
    if TruthyNum(x) then x.value else d
  }

  /** The attributes read from the facets. The `in` operator throws on a
      facet that is missing, which the surrounding catch swallows: None. */
  function AttributesFromFacets(facets: map<string, FacetResult>): (r: Option<Attributes>)
    ensures r.Some? <==> COLOR_FACET in facets && FINISH_FACET in facets && PRICE_FACET in facets
    ensures r.Some? ==> r.value.colors == (if facets[COLOR_FACET].Terms? then facets[COLOR_FACET].terms else [])
    ensures r.Some? ==> r.value.finish == (if facets[FINISH_FACET].Terms? then facets[FINISH_FACET].terms else [])
    ensures r.Some? && !(facets[PRICE_FACET].Ranges? && |facets[PRICE_FACET].ranges| > 0) ==>
      r.value.minPrice == 0 && r.value.maxPrice == 10000
    ensures r.Some? && facets[PRICE_FACET].Ranges? && |facets[PRICE_FACET].ranges| > 0 ==>
      var first := facets[PRICE_FACET].ranges[0];
      r.value.minPrice == NumOr(first.min, 0) && r.value.maxPrice == NumOr(first.max, 10000)
  {
    if COLOR_FACET !in facets || FINISH_FACET !in facets || PRICE_FACET !in facets then None
    else
      var color, finish, price := facets[COLOR_FACET], facets[FINISH_FACET], facets[PRICE_FACET];
      var first := if price.Ranges? && |price.ranges| > 0 then Some(price.ranges[0]) else None;
      Some(Attributes(
        if color.Terms? then color.terms else [],
        if finish.Terms? then finish.terms else [],
        if first.Some? then NumOr(first.value.min, 0) else 0,
        if first.Some? then NumOr(first.value.max, 10000) else 10000))
  }

  /** The dialog's own state. */
  datatype FilterState = FilterState(low: int, high: int, colors: seq<string>, finish: seq<string>, available: Attributes)

  /** What opening the dialog did: the new state, the storage entry, and
      whether the product search was queried. */
  datatype Opened = Opened(state: FilterState, stored: Stored, queried: bool)

  /** The attributes a fetch yields: none when the search throws, returns no
      response, or returns facets that lack one of the three. */
  function FetchedAttributes(fetched: Call<Option<Option<map<string, FacetResult>>>>): (r: Option<Attributes>)
    ensures fetched.Throws? ==> r.None?
    ensures fetched.Returns? && fetched.value.None? ==> r.None?
    ensures fetched.Returns? && fetched.value.Some? ==> r == AttributesFromFacets(fetched.value.value.GetOr(map[]))
  {
    match fetched
    case Throws(_) => None
    case Returns(response) =>
      if response.None? then None else AttributesFromFacets(response.value.GetOr(map[]))
  }

  /** `fetchAvailableAttributes`: a cache entry still fresh at `now` is used
      as it is; otherwise the facets are fetched (`fetched`; its value is the
      response's `facets`, when there is a response), the attributes and the
      cache are replaced, the entry stamped with the clock read after the
      fetch (`fetchedAt`), and the price range is taken from the facets when
      both bounds are still 0. A failure leaves everything as it was. */
  function OpenDialog(st: FilterState, stored: Stored, now: int, fetchedAt: int,
                      fetched: Call<Option<Option<map<string, FacetResult>>>>): (r: Opened)
    ensures r.queried <==> GetCachedFacets(stored, now).None?
    ensures !r.queried ==> r == Opened(st.(available := AttributesOf(stored.data)), stored, false)
    ensures r.queried && FetchedAttributes(fetched).None? ==> r == Opened(st, stored, true)
    ensures r.queried && FetchedAttributes(fetched).Some? ==>
      var a := FetchedAttributes(fetched).value;
      && r.state.available == a
      && r.stored == Parsed(CacheFacets(a, fetchedAt))
      && (st.low == 0 && st.high == 0 ==> r.state.low == a.minPrice && r.state.high == a.maxPrice)
      && (!(st.low == 0 && st.high == 0) ==> r.state.low == st.low && r.state.high == st.high)
    ensures r.state.colors == st.colors && r.state.finish == st.finish
  {
    var cached := GetCachedFacets(stored, now);
    if cached.Some? then Opened(st.(available := AttributesOf(cached.value)), stored, false)
    else
      match fetched
      case Throws(_) => Opened(st, stored, true)
      case Returns(response) =>
        if response.None? then Opened(st, stored, true)
        else
          match AttributesFromFacets(response.value.GetOr(map[]))
          case None => Opened(st, stored, true)
          case Some(a) =>
            var st1 := st.(available := a);
            var st2 := if st.low == 0 && st.high == 0 then st1.(low := a.minPrice, high := a.maxPrice) else st1;
            Opened(st2, Parsed(CacheFacets(a, fetchedAt)), true)
  }

  /** Attributes fetched at one opening are served from the cache, without a
      query, at any opening within fifteen minutes of the fetch. */
  lemma FetchThenReopen(st: FilterState, stored: Stored, t: int, tf: int, fetched: Call<Option<Option<map<string, FacetResult>>>>,
                        st2: FilterState, t2: int, tf2: int, fetched2: Call<Option<Option<map<string, FacetResult>>>>)
    requires GetCachedFacets(stored, t).None? && FetchedAttributes(fetched).Some?
    requires tf <= t2 < tf + CACHE_EXPIRY_TIME
    ensures var first := OpenDialog(st, stored, t, tf, fetched);
      var second := OpenDialog(st2, first.stored, t2, tf2, fetched2);
      !second.queried && second.state.available == first.state.available
  {
  }

  /** `handleReset`: nothing selected, and the price range spans the
      available attributes. */
  function Reset(st: FilterState): (r: FilterState)
    ensures r.colors == [] && r.finish == []
    ensures r.low == st.available.minPrice && r.high == st.available.maxPrice
    ensures r.available == st.available
  {
    st.(colors := [], finish := [], low := st.available.minPrice, high := st.available.maxPrice)
  }

  const DEFAULT_SWATCH := "#CCCCCC"

  /** `color.split(':')` into a name and a colour code, the code falling back
      to `#CCCCCC`. */
  function Swatch(color: string): (r: (string, string))
    ensures ':' !in color ==> r == (color, DEFAULT_SWATCH)
    ensures ':' !in r.0
    ensures ':' in color ==>
      var k := IndexOf(color, ':');
      var after := color[k + 1..];
      var code := after[..IndexOf(after, ':')];
      r == (color[..k], if code == "" then DEFAULT_SWATCH else code)
  {
    var parts := Split(color, ':');
    if ':' !in color then
      SplitJoin([color], ':');
      (parts[0], DEFAULT_SWATCH)
    else
      var k := IndexOf(color, ':');
      assert color[..|color|] == color;
      assert parts == [color[..k]] + Split(color[k + 1..], ':');
      SplitHead(color[k + 1..], ':');
      (parts[0], if |parts| > 1 && parts[1] != "" then parts[1] else DEFAULT_SWATCH)
  }

  /** The first piece of a split runs up to the first separator. */
  lemma SplitHead(s: string, sep: char)
    ensures Split(s, sep)[0] == s[..IndexOf(s, sep)]
  {
  }

  /** A `name:code` colour is taken apart into its name and code. */
  lemma SwatchOfNameAndCode(name: string, code: string)
    requires ':' !in name && ':' !in code && code != ""
    ensures Swatch(name + ":" + code) == (name, code)
  {
    assert [name, code][1..] == [code];
    assert Join([name, code], ':') == name + ":" + code;
    SplitJoin([name, code], ':');
    assert ':' in name + ":" + code by { assert (name + ":" + code)[|name|] == ':'; }
  }
}
