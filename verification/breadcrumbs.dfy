/** The breadcrumb trail of the product list: Home, the ancestors the
    recursive search passes through, the selected category, and the selected
    subcategory when it is a direct child. */
module Breadcrumbs {
  import opened Common

  /** A node of the category tree handed to the trail. */
  datatype CategoryTree = CategoryTree(id: string, name: Option<string>, key: Option<string>, children: seq<CategoryTree>)

  datatype Crumb = Crumb(id: string, name: string)

  const HOME := Crumb("", "Home")

  /** `name?.['en-US'] || key || fallback` */
  function DisplayName(c: CategoryTree, fallback: string): (r: string)
    ensures Truthy(c.name) ==> r == c.name.value
    ensures !Truthy(c.name) && Truthy(c.key) ==> r == c.key.value
    ensures !Truthy(c.name) && !Truthy(c.key) ==> r == fallback
  {
    if Truthy(c.name) then c.name.value else OrElse(c.key, fallback)
  }

  /** Some node of the forest, at any depth, has the id. */
  predicate Contains(forest: seq<CategoryTree>, id: string)
    decreases forest
  {
    exists i :: 0 <= i < |forest| && (forest[i].id == id || Contains(forest[i].children, id))
  }

  /** `ancestors` (nearest first) lead from the forest down to `t`: the last
      ancestor is in the forest, each earlier one is a child of the next, and
      `t` is a child of the first. */
  predicate PathTo(forest: seq<CategoryTree>, ancestors: seq<CategoryTree>, t: CategoryTree)
    decreases |ancestors|
  {
    if |ancestors| == 0 then t in forest
    else
      var top := ancestors[|ancestors| - 1];
      top in forest && PathTo(top.children, ancestors[..|ancestors| - 1], t)
  }

  /** `findCategory`: a depth-first search in document order. On success it
      returns the node and the ancestors it was found under, nearest first,
      which is the order `getBreadcrumbs` pushes their crumbs in. */
  function FindCategory(forest: seq<CategoryTree>, id: string): (r: Option<(CategoryTree, seq<CategoryTree>)>)
    ensures r.Some? <==> Contains(forest, id)
    ensures r.Some? ==> r.value.0.id == id && PathTo(forest, r.value.1, r.value.0)
    decreases forest
  {
    if |forest| == 0 then None
    else
      var c := forest[0];
      var rest := FindCategory(forest[1..], id);
      assert forall i :: 1 <= i < |forest| ==> forest[i] == forest[1..][i - 1];
      assert Contains(forest, id) <==> c.id == id || Contains(c.children, id) || Contains(forest[1..], id);
      if c.id == id then Some((c, []))
      else
        match FindCategory(c.children, id)
        case Some(found) =>
          var ancestors := found.1 + [c];
          assert ancestors[..|ancestors| - 1] == found.1;
          Some((found.0, ancestors))
        case None =>
          if rest.Some? then
            PathToWider(forest[1..], forest, rest.value.1, rest.value.0);
            rest
          else rest
  }

  /** A path from a smaller forest is a path from any forest containing it. */
  lemma PathToWider(small: seq<CategoryTree>, big: seq<CategoryTree>, ancestors: seq<CategoryTree>, t: CategoryTree)
    requires forall x :: x in small ==> x in big
    requires PathTo(small, ancestors, t)
    ensures PathTo(big, ancestors, t)
  {
  }

  function Crumbs(ancestors: seq<CategoryTree>): (r: seq<Crumb>)
    ensures |r| == |ancestors|
    ensures forall i :: 0 <= i < |ancestors| ==> r[i] == Crumb(ancestors[i].id, DisplayName(ancestors[i], "Unnamed Category"))
  {
    if |ancestors| == 0 then [] else [Crumb(ancestors[0].id, DisplayName(ancestors[0], "Unnamed Category"))] + Crumbs(ancestors[1..])
  }

  /** `currentCategory.children?.find((c) => c.id === selectedSubcategory)` */
  function FindChild(children: seq<CategoryTree>, id: string): (r: Option<CategoryTree>)
    ensures r.Some? <==> exists c :: c in children && c.id == id
    ensures r.Some? ==> r.value in children && r.value.id == id
    ensures r.Some? ==>
      exists i :: 0 <= i < |children| && children[i] == r.value && forall k :: 0 <= k < i ==> children[k].id != id
  {
    if |children| == 0 then None
    else if children[0].id == id then Some(children[0])
    else
      var r := FindChild(children[1..], id);
      assert forall c :: c in children[1..] ==> c in children;
      assert forall c :: c in children && c != children[0] ==> c in children[1..];
      if r.Some? then
        var i :| 0 <= i < |children[1..]| && children[1..][i] == r.value
          && forall k :: 0 <= k < i ==> children[1..][k].id != id;
        assert children[i + 1] == r.value;
        r
      else
        r
  }

  /** `getBreadcrumbs`. */
  function GetBreadcrumbs(tree: seq<CategoryTree>, selectedCategory: string, selectedSubcategory: string): (r: seq<Crumb>)
    ensures |r| >= 1 && r[0] == HOME
    ensures |r| == 1 <==> selectedCategory == "" || !Contains(tree, selectedCategory)
    ensures selectedCategory != "" && Contains(tree, selectedCategory) ==>
      var found := FindCategory(tree, selectedCategory).value;
      var n := |found.1|;
      && n + 2 <= |r| <= n + 3
      && r[1..n + 1] == Crumbs(found.1)
      && r[n + 1] == Crumb(selectedCategory, DisplayName(found.0, "Unnamed Category"))
      && (|r| == n + 3 <==> selectedSubcategory != "" && exists c :: c in found.0.children && c.id == selectedSubcategory)
      && (|r| == n + 3 ==>
            && FindChild(found.0.children, selectedSubcategory).Some?
            && r[n + 2] == Crumb(selectedSubcategory, DisplayName(FindChild(found.0.children, selectedSubcategory).value, "Unnamed Subcategory")))
  {
    if selectedCategory == "" then [HOME]
    else
      match FindCategory(tree, selectedCategory)
      case None => [HOME]
      case Some(found) =>
        var current := found.0;
        var n := |found.1|;
        var trail := [HOME] + Crumbs(found.1) + [Crumb(current.id, DisplayName(current, "Unnamed Category"))];
        assert |trail| == n + 2 && trail[0] == HOME && trail[1..n + 1] == Crumbs(found.1);
        if selectedSubcategory == "" then trail
        else
          match FindChild(current.children, selectedSubcategory)
          case None => trail
          case Some(sub) =>
            var r := trail + [Crumb(sub.id, DisplayName(sub, "Unnamed Subcategory"))];
            assert r[..n + 2] == trail;
            r
  }

  /** A one-tree forest whose root has the id finds the root, with no ancestors. */
  lemma FindAtRoot(t: CategoryTree, id: string)
    requires t.id == id
    ensures FindCategory([t], id) == Some((t, []))
  {
  }

  /** A one-tree forest whose root lacks the id finds what the root's children
      find, with the root appended as the farthest ancestor. */
  lemma FindBelowRoot(t: CategoryTree, id: string)
    requires t.id != id && FindCategory(t.children, id).Some?
    ensures FindCategory([t], id) == Some((FindCategory(t.children, id).value.0, FindCategory(t.children, id).value.1 + [t]))
  {
  }

  /** For a category two levels down, the parent's crumb comes before the
      grandparent's: the ancestors appear nearest first, not from the root. */
  lemma NearestAncestorFirst()
    ensures var leaf := CategoryTree("c", Some("Leaf"), None, []);
      var mid := CategoryTree("b", Some("Middle"), None, [leaf]);
      var root := CategoryTree("a", Some("Root"), None, [mid]);
      GetBreadcrumbs([root], "c", "") == [HOME, Crumb("b", "Middle"), Crumb("a", "Root"), Crumb("c", "Leaf")]
  {
    var leaf := CategoryTree("c", Some("Leaf"), None, []);
    var mid := CategoryTree("b", Some("Middle"), None, [leaf]);
    var root := CategoryTree("a", Some("Root"), None, [mid]);
    FindAtRoot(leaf, "c");
    FindBelowRoot(mid, "c");
    assert [] + [mid] == [mid];
    FindBelowRoot(root, "c");
    assert [mid] + [root] == [mid, root];
    var r := GetBreadcrumbs([root], "c", "");
    assert |r| == 4;
    assert r[1..3] == Crumbs([mid, root]) == [Crumb("b", "Middle"), Crumb("a", "Root")];
    assert r[3] == Crumb("c", "Leaf");
  }
}
