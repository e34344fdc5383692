/**
 * The resource list behind the hub (src/lib/resources.js): every listed
 * guide's meta normalised into a resource, sorted by category and then by
 * title.
 */
module Resources {
  import opened Wrappers
  import opened Strings
  import opened Sorting
  import Guides

  datatype Resource = Resource(
    title: Option<string>,
    slug: Option<string>,
    category: string,
    description: string,
    difficulty: string,
    duration: string,
    thumbnail: string,
    source: string)

  /** `field || fallback` for an optional string field. */
  function OrElse(field: Option<string>, fallback: string): (r: string)
    ensures Guides.Truthy(field) ==> r == field.value
    ensures !Guides.Truthy(field) ==> r == fallback
  {
    if Guides.Truthy(field) then field.value else fallback
  }

  /** The `map` step: defaults for the optional fields, `source` fixed to "mdx". */
  function Normalize(g: Guides.Meta): (r: Resource)
    ensures r.title == g.title && r.slug == g.slug && r.source == "mdx"
    ensures r.category != ""
    ensures r.category == "General" || g.category == Some(r.category)
    ensures Guides.Truthy(g.category) ==> r.category == g.category.value
    // the description prefers the excerpt, then the description, and is empty only when both are
    ensures r.description == "" <==> !Guides.Truthy(g.excerpt) && !Guides.Truthy(g.description)
    ensures Guides.Truthy(g.excerpt) ==> r.description == g.excerpt.value
    ensures !Guides.Truthy(g.excerpt) && Guides.Truthy(g.description) ==> r.description == g.description.value
  {
    Resource(g.title, g.slug, OrElse(g.category, "General"),
             OrElse(g.excerpt, OrElse(g.description, "")),
             OrElse(g.difficulty, ""), OrElse(g.duration, ""), OrElse(g.thumbnail, ""), "mdx")
  }

  /** The comparator's keys: `a.category || ""`, then `a.title || ""`. */
  function SortKey(r: Resource): seq<string> {
    [r.category, OrElse(r.title, "")]
  }

  function NormalizeAll(gs: seq<Guides.Meta>): (rs: seq<Resource>)
    ensures |rs| == |gs| && forall i :: 0 <= i < |gs| ==> rs[i] == Normalize(gs[i])
  {
    seq(|gs|, i requires 0 <= i < |gs| => Normalize(gs[i]))
  }

  /** `getAllResources`, given what `listGuides` returns (None when it is missing). */
  function GetAllResources(listed: Option<seq<Guides.Meta>>): (rs: seq<Resource>)
    ensures listed.None? ==> rs == []
    ensures listed.Some? ==> |rs| == |listed.value|
    ensures listed.Some? ==> multiset(rs) == multiset(NormalizeAll(listed.value))
    ensures SortedBy(rs, SortKey)
  {
    var guides := if listed.Some? then listed.value else [];
    SortByKey(NormalizeAll(guides), SortKey)
  }

  /** Every resource is the normalisation of a listed guide, and comes from the MDX guides. */
  lemma EachResourceFromAGuide(listed: seq<Guides.Meta>, k: nat)
    requires k < |GetAllResources(Some(listed))|
    ensures GetAllResources(Some(listed))[k].source == "mdx"
    ensures exists i :: 0 <= i < |listed| && GetAllResources(Some(listed))[k] == Normalize(listed[i])
  {
    var rs := GetAllResources(Some(listed));
    assert rs[k] in multiset(rs);
    assert rs[k] in multiset(NormalizeAll(listed));
    var i :| 0 <= i < |listed| && NormalizeAll(listed)[i] == rs[k];
  }

  /** Listed guides reach the list the number of times they are listed. */
  lemma EveryGuideListed(listed: seq<Guides.Meta>, g: Guides.Meta)
    ensures multiset(GetAllResources(Some(listed)))[Normalize(g)] >= multiset(listed)[g]
  {
    NormalizeCount(listed, g);
  }

  lemma {:induction false} NormalizeCount(gs: seq<Guides.Meta>, g: Guides.Meta)
    ensures multiset(NormalizeAll(gs))[Normalize(g)] >= multiset(gs)[g]
  {
    if gs != [] {
      var init := gs[..|gs| - 1];
      NormalizeCount(init, g);
      assert gs == init + [gs[|gs| - 1]];
      assert NormalizeAll(gs) == NormalizeAll(init) + [Normalize(gs[|gs| - 1])];
    }
  }

  /** A category sorts before every later category; within one category titles ascend. */
  lemma OrderOfTheList(listed: Option<seq<Guides.Meta>>, i: nat, j: nat)
    requires i < j < |GetAllResources(listed)|
    ensures var rs := GetAllResources(listed);
      && StrLe(rs[i].category, rs[j].category)
      && (rs[i].category == rs[j].category ==> StrLe(OrElse(rs[i].title, ""), OrElse(rs[j].title, "")))
  {
    var rs := GetAllResources(listed);
    assert KeyLe(SortKey(rs[i]), SortKey(rs[j]));
    KeyLePair(SortKey(rs[i]), SortKey(rs[j]));
  }
}
