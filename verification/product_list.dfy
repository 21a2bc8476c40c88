/** The product list page: the category forest built from the flat category
    list, the category filters of the search, and the page state its handlers
    update. */
module ProductList {
  import opened Common
  import opened JsString
  import opened ProductQuery
  import Pagination

  /** A category; `parentId` is `parent?.obj?.id`, the id of the expanded
      parent, when there is one. */
  datatype Category = Category(id: string, parentId: Option<string>, name: Option<string>, key: Option<string>)

  /** `!category.parent?.obj?.id` */
  predicate IsTopLevel(c: Category) {
    !Truthy(c.parentId)
  }

  /** `getTopLevelCategories`: the categories without an expanded parent, in order. */
  function GetTopLevelCategories(cs: seq<Category>): (r: seq<Category>)
    ensures forall c :: c in r <==> c in cs && IsTopLevel(c)
    ensures IsSubsequence(r, cs)
    ensures forall c :: Count(r, c) == if IsTopLevel(c) then Count(cs, c) else 0
  {
    if |cs| == 0 then []
    else
      var rest := GetTopLevelCategories(cs[1..]);
      if IsTopLevel(cs[0]) then
        var r := [cs[0]] + rest;
        assert r[1..] == rest;
        r
      else rest
  }

  function Ids(cs: seq<Category>): set<string> {
    set c | c in cs :: c.id
  }

  /** Where `buildCategoryTree` hangs a category: under its parent when the
      parent id is truthy and among the inputs, otherwise among the roots. */
  predicate HangsUnder(cs: seq<Category>, c: Category, parent: string) {
    Truthy(c.parentId) && c.parentId.value == parent && parent in Ids(cs)
  }

  predicate IsRoot(cs: seq<Category>, c: Category) {
    !(Truthy(c.parentId) && c.parentId.value in Ids(cs))
  }

  /** The result of `buildCategoryTree` as the object graph it builds: one
      node per id (the last category with that id), the roots in order, and
      each node's children in order, all by id. */
  datatype Forest = Forest(nodes: map<string, Category>, roots: seq<string>, children: map<string, seq<string>>)

  /** The ids of the categories of `cs` that satisfy `keep`, in order. */
  function IdsWhere(cs: seq<Category>, keep: Category -> bool): (r: seq<string>)
    ensures |r| <= |cs|
    ensures forall i :: i in r <==> exists c :: c in cs && keep(c) && c.id == i
  {
    if |cs| == 0 then []
    else
      var rest := IdsWhere(cs[1..], keep);
      assert forall c :: c in cs[1..] ==> c in cs;
      assert cs == [cs[0]] + cs[1..];
      if keep(cs[0]) then [cs[0].id] + rest else rest
  }

  /** Taking one more category appends its id exactly when it is kept: the
      ids come out in input order, as a loop that pushes them would list them. */
  lemma {:induction false} IdsWherePush(cs: seq<Category>, c: Category, keep: Category -> bool)
    ensures IdsWhere(cs + [c], keep) == IdsWhere(cs, keep) + (if keep(c) then [c.id] else [])
  {
    if |cs| == 0 {
      assert cs + [c] == [c];
      assert [c][1..] == [];
    } else {
      assert (cs + [c])[0] == cs[0];
      assert (cs + [c])[1..] == cs[1..] + [c];
      IdsWherePush(cs[1..], c, keep);
    }
  }

  /** `mappedCategories`: each id mapped to the last category that has it. */
  function NodeMap(cs: seq<Category>): (m: map<string, Category>)
    ensures m.Keys == Ids(cs)
    ensures forall i :: i in m ==> m[i] in cs && m[i].id == i
    ensures forall i :: 0 <= i < |cs| && (forall j :: i < j < |cs| ==> cs[j].id != cs[i].id) ==> m[cs[i].id] == cs[i]
  {
    if |cs| == 0 then map[]
    else
      var init := cs[..|cs| - 1];
      var m := NodeMap(init);
      var last := cs[|cs| - 1];
      assert cs == init + [last];
      assert forall i :: 0 <= i < |init| ==> init[i] == cs[i];
      m[last.id := last]
  }

  /** Each id of `cs` mapped to the ids of the categories of `placed` that
      hang under it. */
  function ChildLists(cs: seq<Category>, placed: seq<Category>): map<string, seq<string>> {
    map p | p in Ids(cs) :: IdsWhere(placed, c => HangsUnder(cs, c, p))
  }

  /** The forest `buildCategoryTree` builds, defined category by category from
      the front: the node map, the root ids and each id's child ids. */
  function CategoryForest(cs: seq<Category>): Forest {
    Forest(NodeMap(cs), IdsWhere(cs, c => IsRoot(cs, c)), ChildLists(cs, cs))
  }

  /** The first pass of `buildCategoryTree`: every id mapped to its category,
      a later category with the same id replacing an earlier one. */
  method MapCategories(cs: seq<Category>) returns (nodes: map<string, Category>)
    ensures nodes == NodeMap(cs)
  {
    nodes := map[];
    var i := 0;
    while i < |cs|
      invariant 0 <= i <= |cs|
      invariant nodes == NodeMap(cs[..i])
    {
      assert cs[..i + 1][..i] == cs[..i];
      nodes := nodes[cs[i].id := cs[i]];
      i := i + 1;
    }
    assert cs[..|cs|] == cs;
  }

  /** Placing the `n`-th category under its mapped parent appends its id to
      that parent's list and to no other. */
  lemma ChildrenStep(cs: seq<Category>, n: nat)
    requires n < |cs|
    ensures var cat := cs[n];
      var before := ChildLists(cs, cs[..n]);
      Truthy(cat.parentId) && cat.parentId.value in Ids(cs) ==>
        ChildLists(cs, cs[..n + 1]) == before[cat.parentId.value := before[cat.parentId.value] + [cat.id]]
    ensures var cat := cs[n];
      !(Truthy(cat.parentId) && cat.parentId.value in Ids(cs)) ==> ChildLists(cs, cs[..n + 1]) == ChildLists(cs, cs[..n])
  {
    var cat := cs[n];
    var before, after := ChildLists(cs, cs[..n]), ChildLists(cs, cs[..n + 1]);
    assert cs[..n + 1] == cs[..n] + [cat];
    assert after.Keys == before.Keys;
    forall p | p in after
      ensures after[p] == before[p] + (if HangsUnder(cs, cat, p) then [cat.id] else [])
    {
      IdsWherePush(cs[..n], cat, c => HangsUnder(cs, c, p));
    }
    if Truthy(cat.parentId) && cat.parentId.value in Ids(cs) {
      var q := cat.parentId.value;
      var upd := before[q := before[q] + [cat.id]];
      assert forall p :: p in after ==> after[p] == upd[p];
      assert after == upd;
    } else {
      assert forall p :: p in after ==> after[p] == before[p];
      assert after == before;
    }
  }

  /** Before any category is placed every child list is empty. */
  lemma ChildListsEmpty(cs: seq<Category>)
    ensures ChildLists(cs, []) == map p | p in Ids(cs) :: []
  {
    var m := ChildLists(cs, []);
    assert forall p :: p in m ==> m[p] == [];
  }

  /** The roots after the first `n` categories have been placed. */
  lemma RootsStep(cs: seq<Category>, n: nat)
    requires n < |cs|
    ensures IdsWhere(cs[..n + 1], c => IsRoot(cs, c))
      == IdsWhere(cs[..n], c => IsRoot(cs, c)) + (if IsRoot(cs, cs[n]) then [cs[n].id] else [])
  {
    assert cs[..n + 1] == cs[..n] + [cs[n]];
    IdsWherePush(cs[..n], cs[n], c => IsRoot(cs, c));
  }

  /** The second pass of `buildCategoryTree`: the categories in input order,
      each pushed under its parent when the parent id is truthy and mapped,
      and among the roots otherwise. */
  method PlaceCategories(cs: seq<Category>, nodes: map<string, Category>)
    returns (roots: seq<string>, children: map<string, seq<string>>)
    requires nodes.Keys == Ids(cs)
    ensures roots == IdsWhere(cs, c => IsRoot(cs, c))
    ensures children == CategoryForest(cs).children
  {
    roots := [];
    children := map p | p in nodes :: [];
    ChildListsEmpty(cs);
    var i := 0;
    while i < |cs|
      invariant 0 <= i <= |cs|
      invariant roots == IdsWhere(cs[..i], c => IsRoot(cs, c))
      invariant children == ChildLists(cs, cs[..i])
    {
      var cat := cs[i];
      RootsStep(cs, i);
      ChildrenStep(cs, i);
      if Truthy(cat.parentId) && cat.parentId.value in nodes {
        var p := cat.parentId.value;
        children := children[p := children[p] + [cat.id]];
      } else {
        roots := roots + [cat.id];
      }
      i := i + 1;
    }
    assert cs[..|cs|] == cs;
  }

  /** The ids with a node are exactly the ids of the input. */
  lemma NodeIds(cs: seq<Category>)
    ensures forall id :: id in NodeMap(cs) <==> exists i :: 0 <= i < |cs| && cs[i].id == id
  {
    forall id | id in NodeMap(cs) ensures exists i :: 0 <= i < |cs| && cs[i].id == id {
      var c :| c in cs && c.id == id;
      var i :| 0 <= i < |cs| && cs[i] == c;
    }
  }

  /** `buildCategoryTree` as written: the two passes give exactly
      the forest defined category by category, with one node per id (the
      last category that has it). */
  method BuildCategoryTree(cs: seq<Category>) returns (f: Forest)
    ensures f == CategoryForest(cs)
    ensures forall id :: id in f.nodes <==> exists i :: 0 <= i < |cs| && cs[i].id == id
    ensures forall i :: 0 <= i < |cs| && (forall j :: i < j < |cs| ==> cs[j].id != cs[i].id) ==> f.nodes[cs[i].id] == cs[i]
  {
    var nodes := MapCategories(cs);
    var roots, children := PlaceCategories(cs, nodes);
    NodeIds(cs);
    f := Forest(nodes, roots, children);
  }

  /** Category ids are unique. */
  predicate UniqueIds(cs: seq<Category>) {
    forall i, j :: 0 <= i < j < |cs| ==> cs[i].id != cs[j].id
  }

  lemma {:induction false} CountIdsWhere(cs: seq<Category>, keep: Category -> bool, c: Category)
    requires UniqueIds(cs) && c in cs
    ensures Count(IdsWhere(cs, keep), c.id) == if keep(c) then 1 else 0
  {
    if cs[0] == c {
      forall d | d in cs[1..] ensures d.id != c.id {
        var j :| 0 <= j < |cs[1..]| && cs[1..][j] == d;
        assert cs[j + 1] == d;
      }
      NoIdNoCount(cs[1..], keep, c.id);
    } else {
      var j :| 0 <= j < |cs| && cs[j] == c;
      assert j > 0 && cs[0].id != cs[j].id;
      assert c in cs[1..] by { assert cs[1..][j - 1] == c; }
      assert UniqueIds(cs[1..]) by {
        forall a, b | 0 <= a < b < |cs[1..]| ensures cs[1..][a].id != cs[1..][b].id {
          assert cs[1..][a] == cs[a + 1] && cs[1..][b] == cs[b + 1];
        }
      }
      CountIdsWhere(cs[1..], keep, c);
    }
  }

  lemma {:induction false} NoIdNoCount(cs: seq<Category>, keep: Category -> bool, id: string)
    requires forall d :: d in cs ==> d.id != id
    ensures Count(IdsWhere(cs, keep), id) == 0
  {
    if |cs| > 0 {
      assert forall d :: d in cs[1..] ==> d in cs;
      NoIdNoCount(cs[1..], keep, id);
    }
  }

  /** With unique ids every category lands in exactly one place: once among
      the roots if it is a root, otherwise once among its parent's children,
      and nowhere else. */
  lemma PlacedExactlyOnce(cs: seq<Category>, c: Category)
    requires UniqueIds(cs) && c in cs
    ensures var f := CategoryForest(cs);
      && Count(f.roots, c.id) == (if IsRoot(cs, c) then 1 else 0)
      && forall p :: p in f.children ==> Count(f.children[p], c.id) == (if HangsUnder(cs, c, p) then 1 else 0)
  {
    var f := CategoryForest(cs);
    CountIdsWhere(cs, c => IsRoot(cs, c), c);
    forall p | p in f.children
      ensures Count(f.children[p], c.id) == (if HangsUnder(cs, c, p) then 1 else 0)
    {
      CountIdsWhere(cs, d => HangsUnder(cs, d, p), c);
    }
  }

  /** A root is never also someone's child, and every top-level category is a
      root (a category whose parent is missing from the list is a root too). */
  lemma RootsAndChildrenDisjoint(cs: seq<Category>, c: Category, p: string)
    ensures IsRoot(cs, c) ==> !HangsUnder(cs, c, p)
    ensures IsTopLevel(c) ==> IsRoot(cs, c)
  {
  }

  /** An id whose node carries that id. */
  predicate Resolves(f: Forest, id: string) {
    id in f.nodes && f.nodes[id].id == id
  }

  /** The subcategories shown for the selected category: the children of the
      first root with that id (`categoryTree.find`), or none. */
  function SubcategoriesOf(f: Forest, selected: string): (r: seq<Category>)
    ensures selected == "" ==> r == []
    ensures selected != "" && (selected !in f.roots || selected !in f.children) ==> r == []
    ensures selected != "" && selected in f.roots && selected in f.children ==> r == NodesOf(f, f.children[selected])
    ensures forall c :: c in r ==> selected in f.children && c.id in f.children[selected]
  {
    if selected != "" && selected in f.roots && selected in f.children then
      NodesOf(f, f.children[selected])
    else []
  }

  /** The categories behind a list of ids: the node of each id that resolves,
      in the order of the ids. */
  function NodesOf(f: Forest, ids: seq<string>): (r: seq<Category>)
    ensures |r| <= |ids|
    ensures forall c :: c in r <==> exists i :: 0 <= i < |ids| && Resolves(f, ids[i]) && c == f.nodes[ids[i]]
    ensures (forall i :: 0 <= i < |ids| ==> Resolves(f, ids[i])) ==>
      |r| == |ids| && forall i :: 0 <= i < |ids| ==> r[i] == f.nodes[ids[i]]
  {
    if |ids| == 0 then []
    else
      var rest := NodesOf(f, ids[1..]);
      assert forall i :: 1 <= i < |ids| ==> ids[i] == ids[1..][i - 1];
      assert forall i :: 0 <= i < |ids[1..]| ==> ids[1..][i] == ids[i + 1];
      if Resolves(f, ids[0]) then [f.nodes[ids[0]]] + rest else rest
  }

  /** In a forest built from a category list, every child id resolves, so the
      subcategories of a selected root are its children's nodes one for one,
      in order; with unique ids each of them hangs under the selected root. */
  lemma SubcategoriesAreChildren(cs: seq<Category>, selected: string)
    ensures var f := CategoryForest(cs);
      var r := SubcategoriesOf(f, selected);
      selected != "" && selected in f.roots ==>
        && |r| == |f.children[selected]|
        && (forall i :: 0 <= i < |r| ==> r[i].id == f.children[selected][i] && r[i] in cs)
        && (UniqueIds(cs) ==> forall i :: 0 <= i < |r| ==> HangsUnder(cs, r[i], selected))
  {
    var f := CategoryForest(cs);
    if selected != "" && selected in f.roots {
      assert selected in Ids(cs) by {
        var c :| c in cs && IsRoot(cs, c) && c.id == selected;
      }
      var kids := f.children[selected];
      assert kids == IdsWhere(cs, c => HangsUnder(cs, c, selected));
      forall i | 0 <= i < |kids| ensures Resolves(f, kids[i]) {
        ChildNode(cs, selected, kids[i]);
      }
      var r := SubcategoriesOf(f, selected);
      assert r == NodesOf(f, kids);
      forall i | 0 <= i < |r|
        ensures r[i].id == kids[i] && r[i] in cs
        ensures UniqueIds(cs) ==> HangsUnder(cs, r[i], selected)
      {
        ChildNode(cs, selected, kids[i]);
      }
    }
  }

  /** The node of a child id is a category of the list with that id; with
      unique ids it is the very category that hangs under the parent. */
  lemma ChildNode(cs: seq<Category>, parent: string, id: string)
    requires id in IdsWhere(cs, c => HangsUnder(cs, c, parent))
    ensures id in NodeMap(cs) && NodeMap(cs)[id] in cs && NodeMap(cs)[id].id == id
    ensures UniqueIds(cs) ==> HangsUnder(cs, NodeMap(cs)[id], parent)
  {
    var c :| c in cs && HangsUnder(cs, c, parent) && c.id == id;
    if UniqueIds(cs) {
      SameIdSame(cs, c, NodeMap(cs)[id]);
    }
  }

  /** With unique ids a category is determined by its id. */
  lemma SameIdSame(cs: seq<Category>, a: Category, b: Category)
    requires UniqueIds(cs) && a in cs && b in cs && a.id == b.id
    ensures a == b
  {
    var i :| 0 <= i < |cs| && cs[i] == a;
    var j :| 0 <= j < |cs| && cs[j] == b;
  }

  /** `categories.id:"<id>"` */
  function CategoryFilter(id: string): string {
    "categories.id:\"" + id + "\""
  }

  /** The category filters of the search: the selected category, and the
      selected subcategory only when it is one of the current subcategories. */
  function CategoryFilters(selectedCategory: string, selectedSubcategory: string, subcategories: seq<Category>): (r: seq<string>)
    ensures var known := selectedSubcategory != "" && exists sc :: sc in subcategories && sc.id == selectedSubcategory;
      && |r| == (if selectedCategory != "" then 1 else 0) + (if known then 1 else 0)
      && (selectedCategory != "" ==> r[0] == CategoryFilter(selectedCategory))
      && (known ==> r[|r| - 1] == CategoryFilter(selectedSubcategory))
  {
    var first := if selectedCategory != "" then [CategoryFilter(selectedCategory)] else [];
    var known := exists sc :: sc in subcategories && sc.id == selectedSubcategory;
    var second := if selectedSubcategory != "" && known then [CategoryFilter(selectedSubcategory)] else [];
    first + second
  }

  /** The state the page's handlers update. */
  datatype ListState = ListState(
    searchQuery: string,
    appliedSearchQuery: string,
    selectedCategory: string,
    selectedSubcategory: string,
    offset: nat,
    limit: nat)

  const LIMIT_OPTIONS: seq<nat> := [5, 10, 15, 25, 30, 50, 100]

  const INITIAL := ListState("", "", "", "", 0, 5)

  /** Offsets stay on page boundaries of a positive page size. */
  predicate Aligned(s: ListState) {
    s.limit > 0 && s.offset % s.limit == 0
  }

  /** `handleSubcategoryChange`: selects the subcategory and returns to the
      first page; nothing else changes. */
  function SubcategoryChange(s: ListState, v: string): (r: ListState)
    ensures r.selectedSubcategory == v && r.offset == 0
    ensures r.(selectedSubcategory := s.selectedSubcategory, offset := s.offset) == s
  {
    s.(selectedSubcategory := v, offset := 0)
  }

  /** `handleSearchChange`: typing edits the query only; the applied query,
      and so the search, stays as it was. */
  function SearchChange(s: ListState, v: string): (r: ListState)
    ensures r.searchQuery == v
    ensures r.(searchQuery := s.searchQuery) == s
  {
    s.(searchQuery := v)
  }

  /** `applySearch`: the typed query becomes the applied one and the list
      returns to the first page. */
  function ApplySearch(s: ListState): (r: ListState)
    ensures r.appliedSearchQuery == s.searchQuery && r.offset == 0
    ensures r.(appliedSearchQuery := s.appliedSearchQuery, offset := s.offset) == s
  {
    s.(appliedSearchQuery := s.searchQuery, offset := 0)
  }

  /** `handleCategoryChange`: selects the category, clears the subcategory
      and returns to the first page. */
  function CategoryChange(s: ListState, v: string): (r: ListState)
    ensures r.selectedCategory == v && r.selectedSubcategory == "" && r.offset == 0
    ensures r.(selectedCategory := s.selectedCategory, selectedSubcategory := s.selectedSubcategory, offset := s.offset) == s
  {
    s.(selectedCategory := v, selectedSubcategory := "", offset := 0)
  }

  /** `handleLimitChange`: the new page size, from the first page. */
  function LimitChange(s: ListState, newLimit: nat): (r: ListState)
    ensures r.limit == newLimit && r.offset == 0
    ensures r.(limit := s.limit, offset := s.offset) == s
  {
    s.(limit := newLimit, offset := 0)
  }

  /** `handlePrevPage`: back one page only when there is a whole page before. */
  function PrevPage(s: ListState): (r: ListState)
    ensures r == s.(offset := r.offset)
    ensures r.offset == if s.offset >= s.limit then s.offset - s.limit else s.offset
  {
    if s.offset >= s.limit then s.(offset := s.offset - s.limit) else s
  }

  /** `handleNextPage`: forward one page only when the loaded page is full;
      `loaded` is the length of the loaded results, if any. */
  function NextPage(s: ListState, loaded: Option<nat>): (r: ListState)
    ensures r == s.(offset := r.offset)
    ensures r.offset == if loaded == Some(s.limit) then s.offset + s.limit else s.offset
  {
    if loaded == Some(s.limit) then s.(offset := s.offset + s.limit) else s
  }

  /** Going forward one page and back again returns to the same page. */
  lemma NextThenPrev(s: ListState, loaded: Option<nat>)
    ensures NextPage(s, loaded).offset != s.offset ==> PrevPage(NextPage(s, loaded)) == s
  {
  }

  /** Every handler keeps the offset on a page boundary, so it never goes
      negative and always names the first item of a page; a new page size
      comes from the limit options. */
  lemma HandlersKeepAlignment(s: ListState, v: string, newLimit: nat, loaded: Option<nat>)
    requires Aligned(s)
    requires newLimit in LIMIT_OPTIONS
    ensures Aligned(SubcategoryChange(s, v)) && Aligned(SearchChange(s, v)) && Aligned(ApplySearch(s))
    ensures Aligned(CategoryChange(s, v)) && Aligned(LimitChange(s, newLimit))
    ensures Aligned(PrevPage(s)) && Aligned(NextPage(s, loaded))
  {
    if s.offset >= s.limit {
      Pagination.ShiftByLimit(s.offset - s.limit, s.limit);
    }
    Pagination.ShiftByLimit(s.offset, s.limit);
  }

  /** The Search button is disabled while the trimmed query is shorter than
      two UTF-16 code units. */
  predicate SearchButtonDisabled(query: string) {
    Utf16Len(Trim(query)) < 2
  }

  /** `handleKeyDown` as written: Enter applies the query without the length
      rule the Search button enforces. */
  function KeyDownAsWritten(s: ListState, key: string): (r: ListState)
    ensures key == "Enter" ==> r.appliedSearchQuery == s.searchQuery && r.offset == 0
    ensures key != "Enter" ==> r == s
  {
    if key == "Enter" then ApplySearch(s) else s
  }

  /** `handleKeyDown` with the Search button's rule: Enter applies the query
      only when the button would be enabled. */
  function KeyDown(s: ListState, key: string): (r: ListState)
    ensures r.appliedSearchQuery != s.appliedSearchQuery ==> Utf16Len(Trim(r.appliedSearchQuery)) >= 2
    ensures key == "Enter" && !SearchButtonDisabled(s.searchQuery) ==> r == ApplySearch(s)
    ensures key != "Enter" || SearchButtonDisabled(s.searchQuery) ==> r == s
  {
    if key == "Enter" && !SearchButtonDisabled(s.searchQuery) then ApplySearch(s) else s
  }

  /** Pressing Enter on a one-letter query applies it, although the Search
      button is disabled for that query. */
  lemma EnterAppliesShortQuery()
    ensures var s := SearchChange(INITIAL, "a");
      SearchButtonDisabled(s.searchQuery) && KeyDownAsWritten(s, "Enter").appliedSearchQuery == "a"
  {
    assert Trim("a") == "a" by {
      assert !IsWs('a');
      TrimFixedPoint("a");
    }
  }

  function StrList(xs: seq<string>): (r: seq<QValue>)
    ensures |r| == |xs|
    ensures forall i :: 0 <= i < |xs| ==> r[i] == QStr(xs[i])
  {
    if |xs| == 0 then [] else [QStr(xs[0])] + StrList(xs[1..])
  }

  const FACETS := ["variants.attributes.color", "variants.attributes.size"]

  /** The search arguments the page passes to `getProductsList`. */
  function SearchParams(s: ListState, subcategories: seq<Category>): (q: QueryArgs)
    ensures q.Keys == {"limit", "offset", "filter", "facet"} + (if s.appliedSearchQuery != "" then {SEARCH_TERM} else {})
    ensures q["limit"] == QNum(s.limit) && q["offset"] == QNum(s.offset)
    ensures q["facet"] == QList(StrList(FACETS))
    ensures var filters := CategoryFilters(s.selectedCategory, s.selectedSubcategory, subcategories);
      q["filter"] == if |filters| > 0 then QList(StrList(filters)) else QUndefined
    ensures s.appliedSearchQuery != "" ==> q[SEARCH_TERM] == QStr(s.appliedSearchQuery)
  {
    var filters := CategoryFilters(s.selectedCategory, s.selectedSubcategory, subcategories);
    var filter := if |filters| > 0 then QList(StrList(filters)) else QUndefined;
    var base := map["limit" := QNum(s.limit), "offset" := QNum(s.offset), "filter" := filter, "facet" := QList(StrList(FACETS))];
    if s.appliedSearchQuery != "" then base[SEARCH_TERM := QStr(s.appliedSearchQuery)] else base
  }

  /** The search receives the page's own window. */
  lemma PageWindow(s: ListState, subcategories: seq<Category>)
    ensures var q := PrepareQueryArgs(Some(SearchParams(s, subcategories)));
      "limit" in q && q["limit"] == QNum(s.limit) && "offset" in q && q["offset"] == QNum(s.offset)
  {
    var args := SearchParams(s, subcategories);
    assert args["limit"] == QNum(s.limit) && args["offset"] == QNum(s.offset);
    assert "limit" != SEARCH_TERM && "limit" != TEXT_KEY;
    assert "offset" != SEARCH_TERM && "offset" != TEXT_KEY;
  }

  /** The search carries a text query exactly when a search was applied, as
      a prefix match on it. */
  lemma PageText(s: ListState, subcategories: seq<Category>)
    ensures var q := PrepareQueryArgs(Some(SearchParams(s, subcategories)));
      && (TEXT_KEY in q <==> s.appliedSearchQuery != "")
      && (s.appliedSearchQuery != "" ==> q[TEXT_KEY] == QStr(s.appliedSearchQuery + "*"))
  {
    var args := SearchParams(s, subcategories);
    assert Some(args).GetOr(map[]) == args;
    assert TEXT_KEY !in args && TEXT_KEY !in DEFAULTS by {
      assert TEXT_KEY != "limit" && TEXT_KEY != "offset" && TEXT_KEY != "filter" && TEXT_KEY != "facet" && TEXT_KEY != SEARCH_TERM;
    }
    if s.appliedSearchQuery != "" {
      assert SearchTermOf(args) == Some(s.appliedSearchQuery);
    } else {
      assert SEARCH_TERM !in args;
      assert SearchTermOf(args).None?;
    }
  }

  /** The search carries a category filter exactly when there is one to give. */
  lemma PageFilter(s: ListState, subcategories: seq<Category>)
    ensures var q := PrepareQueryArgs(Some(SearchParams(s, subcategories)));
      "filter" in q <==> |CategoryFilters(s.selectedCategory, s.selectedSubcategory, subcategories)| > 0
  {
    var args := SearchParams(s, subcategories);
    assert "filter" != SEARCH_TERM && "filter" != TEXT_KEY && "filter" !in DEFAULTS;
  }
}
