/** Preparing the query arguments of the product search: defaults, the
    caller's overrides, the search-term rewrite, and pruning. */
module ProductQuery {
  import opened Common

  /** A query-parameter value; `QUndefined` is a key present with the value
      `undefined`. */
  datatype QValue =
    | QStr(s: string)
    | QNum(n: int)
    | QBool(b: bool)
    | QList(items: seq<QValue>)
    | QUndefined

  type QueryArgs = map<string, QValue>

  const SEARCH_TERM := "searchTerm"
  const TEXT_KEY := "text.en-US"

  /** The defaults every search starts from. */
  const DEFAULTS: QueryArgs :=
    map["limit" := QNum(20), "offset" := QNum(0), "fuzzy" := QBool(true), "fuzzyLevel" := QNum(1), "staged" := QBool(false)]

  /** The search term, when the caller gave a non-empty one. */
  function SearchTermOf(args: QueryArgs): Option<string> {
    if SEARCH_TERM in args && args[SEARCH_TERM].QStr? && args[SEARCH_TERM].s != "" then Some(args[SEARCH_TERM].s)
    else None
  }

  /** `{ ...defaults, ...args, ...(searchTerm ? {'text.en-US': term + '*'} : {}) }` */
  function Merge(args: QueryArgs): (m: QueryArgs)
    ensures forall k :: k in m <==> k in DEFAULTS || k in args || (k == TEXT_KEY && SearchTermOf(args).Some?)
    ensures var term := SearchTermOf(args);
      forall k :: k in m ==>
        m[k] == if k == TEXT_KEY && term.Some? then QStr(term.value + "*") else if k in args then args[k] else DEFAULTS[k]
  {
    var term := SearchTermOf(args);
    var merged := DEFAULTS + args;
    if term.Some? then merged[TEXT_KEY := QStr(term.value + "*")] else merged
  }

  /** Deleting the undefined values and `searchTerm`. */
  function Prune(m: QueryArgs): (r: QueryArgs)
    ensures forall k :: k in r <==> k in m && m[k] != QUndefined && k != SEARCH_TERM
    ensures forall k :: k in r ==> r[k] == m[k]
  {
    map k | k in m && m[k] != QUndefined && k != SEARCH_TERM :: m[k]
  }

  /** The merged arguments, pruned. */
  function PrepareQueryArgs(queryArgs: Option<QueryArgs>): (r: QueryArgs)
    ensures SEARCH_TERM !in r
    ensures forall k :: k in r ==> r[k] != QUndefined
    ensures var args := queryArgs.GetOr(map[]);
      forall k :: k in r ==> k in DEFAULTS || k in args || (k == TEXT_KEY && SearchTermOf(args).Some?)
    ensures var args := queryArgs.GetOr(map[]);
      var term := SearchTermOf(args);
      forall k :: k in r ==>
        r[k] == if k == TEXT_KEY && term.Some? then QStr(term.value + "*") else if k in args then args[k] else DEFAULTS[k]
    ensures var args := queryArgs.GetOr(map[]);
      forall k :: k in DEFAULTS && k !in args ==> k in r && r[k] == DEFAULTS[k]
    ensures var args := queryArgs.GetOr(map[]);
      SearchTermOf(args).Some? ==> TEXT_KEY in r && r[TEXT_KEY] == QStr(SearchTermOf(args).value + "*")
    ensures var args := queryArgs.GetOr(map[]);
      forall k :: k in args && k != SEARCH_TERM && !(k == TEXT_KEY && SearchTermOf(args).Some?) ==>
        (args[k] == QUndefined ==> k !in r) && (args[k] != QUndefined ==> k in r && r[k] == args[k])
  {
    var args := queryArgs.GetOr(map[]);
    var m := Merge(args);
    assert forall k :: k in DEFAULTS ==> DEFAULTS[k] != QUndefined;
    assert SEARCH_TERM !in DEFAULTS && TEXT_KEY !in DEFAULTS;
    Prune(m)
  }

  /** With no arguments the search runs on the defaults alone. */
  lemma NoArgumentsMeansDefaults()
    ensures PrepareQueryArgs(None) == DEFAULTS
  {
    var r := PrepareQueryArgs(None);
    assert forall k :: k in r <==> k in DEFAULTS;
  }

  /** `getProductsList`: the search request carries the prepared arguments,
      and a failure is rethrown as it came. */
  function GetProductsList<R>(queryArgs: Option<QueryArgs>, search: Call<R>): (r: (QueryArgs, Call<R>))
    ensures r.0 == PrepareQueryArgs(queryArgs)
    ensures SEARCH_TERM !in r.0 && forall k :: k in r.0 ==> r.0[k] != QUndefined
    ensures var args := queryArgs.GetOr(map[]);
      forall k :: k in DEFAULTS && k !in args ==> k in r.0 && r.0[k] == DEFAULTS[k]
    ensures var term := SearchTermOf(queryArgs.GetOr(map[]));
      term.Some? ==> TEXT_KEY in r.0 && r.0[TEXT_KEY] == QStr(term.value + "*")
    ensures r.1.Throws? <==> search.Throws?
    ensures r.1.Throws? ==> r.1.error == search.error
    ensures r.1.Returns? ==> r.1.value == search.value
  {
    (PrepareQueryArgs(queryArgs), search)
  }
}
