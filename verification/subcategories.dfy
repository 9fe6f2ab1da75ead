/** The mobile menu's category view: the list of sub-links shown for a chosen
    top-level link, and whether the "No subcategories available" row appears. */
module Subcategories {
  import opened Options
  import opened Text
  import opened NavLinks

  /** `groups.flatMap(group => group.links)`. */
  function FlattenGroups(gs: seq<Group>): seq<LinkItem>
  {
    if gs == [] then [] else gs[0].links + FlattenGroups(gs[1..])
  }

  /** The fallback's filter: a group whose label is a string that is non-empty
      after `trim()`. */
  predicate NamedAfterTrim(g: Group)
  {
    g.name.Some? && Trim(g.name.value) != ""
  }

  /** Where a group used as a pseudo-link points when it has no href. */
  const FallbackHref := "#"

  /** `x` is the pseudo-link the fallback makes of group `g`: `g` is named after
      trimming and `x` is `(label, href ?? '#')`. */
  predicate FallbackEntry(g: Group, x: LinkItem)
  {
    NamedAfterTrim(g) && x == LinkItem(g.name.value, g.href.GetOr(FallbackHref))
  }

  /** The fallback: each group with a label non-blank after trimming, in order,
      as the pseudo-link `(label, href ?? '#')`. */
  function NamedGroupLinks(gs: seq<Group>): seq<LinkItem>
  {
    if gs == [] then []
    else if NamedAfterTrim(gs[0]) then [LinkItem(gs[0].name.value, gs[0].href.GetOr(FallbackHref))] + NamedGroupLinks(gs[1..])
    else NamedGroupLinks(gs[1..])
  }

  /** The category view's list: no groups gives nothing; otherwise the groups'
      links flattened, or, when that is empty, the named groups themselves. */
  function SubcategoryList(category: Link): seq<LinkItem>
  {
    match category.groups
    case None => []
    case Some(gs) =>
      var flat := FlattenGroups(gs);
      if |flat| == 0 then NamedGroupLinks(gs) else flat
  }

  /** Whether the "No subcategories available" row is shown, as the component
      decides it: with no groups, or when no group has links and no group has a
      truthy label. The label is NOT trimmed here. */
  predicate ShowsNoSubcategories(category: Link)
  {
    match category.groups
    case None => true
    case Some(gs) =>
      var linksFromGroups := |FlattenGroups(gs)| > 0;
      var groupsAsSubcategories := exists i :: 0 <= i < |gs| && Truthy(gs[i].name);
      !(linksFromGroups || groupsAsSubcategories)
  }

  /** The same decision with the label trimmed, as the list itself filters. */
  predicate ShowsNoSubcategoriesTrimmed(category: Link)
  {
    match category.groups
    case None => true
    case Some(gs) =>
      && |FlattenGroups(gs)| == 0
      && forall i :: 0 <= i < |gs| ==> !NamedAfterTrim(gs[i])
  }

  // ---- flattening ---------------------------------------------------------

  /** Flattening is an in-order concatenation: it distributes over `+`. */
  lemma {:induction false} FlattenAppend(a: seq<Group>, b: seq<Group>)
    ensures FlattenGroups(a + b) == FlattenGroups(a) + FlattenGroups(b)
    decreases |a|
  {
    if a == [] {
      assert a + b == b;
    } else {
      assert (a + b)[1..] == a[1..] + b;
      FlattenAppend(a[1..], b);
    }
  }

  /** A link is in the flattened list iff some group holds it. */
  lemma {:induction false} FlattenMembership(gs: seq<Group>, x: LinkItem)
    ensures x in FlattenGroups(gs) <==> exists i :: 0 <= i < |gs| && x in gs[i].links
    decreases |gs|
  {
    if gs != [] {
      FlattenMembership(gs[1..], x);
      if x in FlattenGroups(gs[1..]) {
        var i :| 0 <= i < |gs[1..]| && x in gs[1..][i].links;
        assert x in gs[i + 1].links;
      }
      if exists i :: 0 <= i < |gs| && x in gs[i].links {
        var i :| 0 <= i < |gs| && x in gs[i].links;
        if i > 0 {
          assert x in gs[1..][i - 1].links;
        }
      }
    }
  }

  /** Flattening yields nothing iff every group's link list is empty. */
  lemma {:induction false} FlattenEmptyIff(gs: seq<Group>)
    ensures FlattenGroups(gs) == [] <==> forall i :: 0 <= i < |gs| ==> gs[i].links == []
    decreases |gs|
  {
    if gs != [] {
      FlattenEmptyIff(gs[1..]);
      assert forall i :: 1 <= i < |gs| ==> gs[i] == gs[1..][i - 1];
    }
  }

  // ---- the fallback -------------------------------------------------------

  /** The fallback keeps exactly the groups named after trimming: its entries are
      those groups' labels and hrefs (defaulting to '#'), and nothing else. */
  lemma {:induction false} NamedGroupLinksMembership(gs: seq<Group>, x: LinkItem)
    ensures x in NamedGroupLinks(gs) <==> exists i :: 0 <= i < |gs| && FallbackEntry(gs[i], x)
    decreases |gs|
  {
    if gs != [] {
      NamedGroupLinksMembership(gs[1..], x);
      if x in NamedGroupLinks(gs) {
        if !FallbackEntry(gs[0], x) {
          var i :| 0 <= i < |gs[1..]| && FallbackEntry(gs[1..][i], x);
          assert FallbackEntry(gs[i + 1], x);
        }
      } else {
        forall i | 0 <= i < |gs| ensures !FallbackEntry(gs[i], x) {
          if i > 0 {
            assert gs[i] == gs[1..][i - 1];
          }
        }
      }
    }
  }

  /** The fallback is an in-order filter-then-map: it distributes over `+`, so
      entries keep the order and multiplicity of their groups. */
  lemma {:induction false} NamedGroupLinksAppend(a: seq<Group>, b: seq<Group>)
    ensures NamedGroupLinks(a + b) == NamedGroupLinks(a) + NamedGroupLinks(b)
    decreases |a|
  {
    if a == [] {
      assert a + b == b;
    } else {
      assert (a + b)[1..] == a[1..] + b;
      NamedGroupLinksAppend(a[1..], b);
    }
  }

  /** The fallback is a filter: never longer than the group list. */
  lemma {:induction false} NamedGroupLinksLength(gs: seq<Group>)
    ensures |NamedGroupLinks(gs)| <= |gs|
    ensures |NamedGroupLinks(gs)| == |gs| <==> forall i :: 0 <= i < |gs| ==> NamedAfterTrim(gs[i])
    decreases |gs|
  {
    if gs != [] {
      NamedGroupLinksLength(gs[1..]);
      assert forall i :: 1 <= i < |gs| ==> gs[i] == gs[1..][i - 1];
    }
  }

  /** The fallback is empty iff no group's label survives trimming. */
  lemma {:induction false} NamedGroupLinksEmptyIff(gs: seq<Group>)
    ensures NamedGroupLinks(gs) == [] <==> forall i :: 0 <= i < |gs| ==> !NamedAfterTrim(gs[i])
    decreases |gs|
  {
    if gs != [] {
      NamedGroupLinksEmptyIff(gs[1..]);
      assert forall i :: 1 <= i < |gs| ==> gs[i] == gs[1..][i - 1];
    }
  }

  // ---- the category list --------------------------------------------------

  /** The list is empty iff there are no groups, or no group has links and no
      group's label is non-blank after trimming. */
  lemma SubcategoryListEmptyIff(category: Link)
    ensures SubcategoryList(category) == [] <==> ShowsNoSubcategoriesTrimmed(category)
  {
    if category.groups.Some? {
      var gs := category.groups.value;
      FlattenEmptyIff(gs);
      NamedGroupLinksEmptyIff(gs);
    }
  }

  /** When some group has links, the list is exactly their in-order concatenation. */
  lemma SubcategoryListFlattens(category: Link)
    requires category.groups.Some?
    requires exists i :: 0 <= i < |category.groups.value| && category.groups.value[i].links != []
    ensures SubcategoryList(category) == FlattenGroups(category.groups.value)
    ensures forall x :: x in SubcategoryList(category) <==>
              exists i :: 0 <= i < |category.groups.value| && x in category.groups.value[i].links
  {
    var gs := category.groups.value;
    FlattenEmptyIff(gs);
    forall x {
      FlattenMembership(gs, x);
    }
  }

  /** When no group has links, the list is the trimmed-named groups as pseudo-links. */
  lemma SubcategoryListFallsBack(category: Link)
    requires category.groups.Some?
    requires forall i :: 0 <= i < |category.groups.value| ==> category.groups.value[i].links == []
    ensures SubcategoryList(category) == NamedGroupLinks(category.groups.value)
  {
    FlattenEmptyIff(category.groups.value);
  }

  // ---- the "No subcategories available" row -------------------------------

  /** The row never sits beside a non-empty list. */
  lemma NoSubcategoriesRowMeansEmptyList(category: Link)
    requires ShowsNoSubcategories(category)
    ensures SubcategoryList(category) == []
  {
    if category.groups.Some? {
      var gs := category.groups.value;
      forall i | 0 <= i < |gs|
        ensures !NamedAfterTrim(gs[i])
      {
        if gs[i].name.Some? {
          assert gs[i].name.value == "";
          TrimEmptyIffAllSpace(gs[i].name.value);
        }
      }
    }
    SubcategoryListEmptyIff(category);
  }

  /** The check as written misses one case: a group labelled with spaces only and
      holding no links yields an empty list and yet no "No subcategories" row. */
  lemma BlankLabelShowsNeitherListNorMessage(blank: string, name: string, href: string)
    requires blank != "" && AllSpace(blank)
    ensures var category := Link(name, href, Some([Group(Some(blank), None, [])]));
            && SubcategoryList(category) == []
            && !ShowsNoSubcategories(category)
  {
    var g := Group(Some(blank), None, []);
    assert Truthy(g.name);
    TrimEmptyIffAllSpace(blank);
    assert !NamedAfterTrim(g);
    assert FlattenGroups([g]) == [];
    assert NamedGroupLinks([g]) == [];
  }

  /** With the label trimmed in the check too, the row appears exactly when the
      list is empty. */
  lemma TrimmedCheckMatchesList(category: Link)
    ensures ShowsNoSubcategoriesTrimmed(category) <==> SubcategoryList(category) == []
  {
    SubcategoryListEmptyIff(category);
  }

  /** The two checks differ only on groups whose labels are blank but not empty:
      wherever no label consists of spaces alone, they agree. */
  lemma ChecksAgreeWithoutBlankLabels(category: Link)
    requires category.groups.Some? ==>
               forall i :: 0 <= i < |category.groups.value| && Truthy(category.groups.value[i].name)
                 ==> !AllSpace(category.groups.value[i].name.value)
    ensures ShowsNoSubcategories(category) <==> ShowsNoSubcategoriesTrimmed(category)
  {
  }

  // ---- worked cases -------------------------------------------------------

  /** An unnamed group's links are listed (the flattening path). */
  lemma FlattenedPathExample()
    ensures SubcategoryList(Link("C", "/c", Some([Group(Some(""), None, [LinkItem("A", "/a")])])))
            == [LinkItem("A", "/a")]
  {
  }

  /** A named group without links is listed as itself (the fallback path), and an
      absent href becomes '#'. */
  lemma FallbackPathExample()
    ensures SubcategoryList(Link("C", "/c", Some([Group(Some("B"), Some("/b"), [])])))
            == [LinkItem("B", "/b")]
    ensures SubcategoryList(Link("C", "/c", Some([Group(Some("B"), None, [])])))
            == [LinkItem("B", "#")]
  {
  }
}
