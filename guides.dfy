/**
 * The guide registry (src/content/guides/index.js): every MDX module of the
 * guides folder contributes its `meta` and its component under the meta's
 * slug. The folder listing is an input: the modules in the order the
 * bundler enumerates their paths.
 */
module Guides {
  import opened Wrappers
  import opened Seqs

  /** A string-valued meta field that may be absent; JavaScript truthiness of it. */
  predicate Truthy(field: Option<string>) {
    field.Some? && field.value != ""
  }

  /** The front matter a guide exports as `meta`; a missing field is None. */
  datatype Meta = Meta(
    slug: Option<string>,
    title: Option<string>,
    category: Option<string>,
    excerpt: Option<string>,
    description: Option<string>,
    difficulty: Option<string>,
    duration: Option<string>,
    thumbnail: Option<string>)

  const EMPTY_META: Meta := Meta(None, None, None, None, None, None, None, None)

  /** A compiled MDX module: its `meta` export, if any, and its default export (an opaque component). */
  datatype Module = Module(meta: Option<Meta>, content: nat)

  datatype Guide = Guide(meta: Meta, content: nat)

  /** `{ meta: mod.meta || {}, Content: mod.default }`. */
  function GuideOf(m: Module): Guide {
    Guide(if m.meta.Some? then m.meta.value else EMPTY_META, m.content)
  }

  /** The slug a module is registered under: none when its meta has no truthy slug. */
  function SlugOf(m: Module): (s: Option<string>)
    ensures s.Some? <==> Truthy(GuideOf(m).meta.slug)
    ensures s.Some? ==> s == GuideOf(m).meta.slug
  {
    var meta := GuideOf(m).meta;
    if Truthy(meta.slug) then meta.slug else None
  }

  /** The map the loop builds: each module with a slug writes its entry, later ones over earlier ones. */
  function Entries(ms: seq<Module>): map<string, Guide> {
    if ms == [] then map[]
    else
      var before := Entries(ms[..|ms| - 1]);
      var m := ms[|ms| - 1];
      if SlugOf(m).Some? then before[SlugOf(m).value := GuideOf(m)] else before
  }

  /** The keys in insertion order: each slug where it first appears (reassigning keeps the position). */
  function KeyOrder(ms: seq<Module>): seq<string> {
    if ms == [] then []
    else
      var before := KeyOrder(ms[..|ms| - 1]);
      var m := ms[|ms| - 1];
      if SlugOf(m).Some? && SlugOf(m).value !in before then before + [SlugOf(m).value] else before
  }

  /** A slug is registered iff some module carries it. */
  lemma {:induction false} EntriesKeys(ms: seq<Module>, slug: string)
    ensures slug in Entries(ms) <==> exists i :: 0 <= i < |ms| && SlugOf(ms[i]) == Some(slug)
  {
    if ms != [] {
      var init := ms[..|ms| - 1];
      EntriesKeys(init, slug);
      if exists i :: 0 <= i < |init| && SlugOf(init[i]) == Some(slug) {
        var i :| 0 <= i < |init| && SlugOf(init[i]) == Some(slug);
        assert ms[i] == init[i];
      }
      if exists i :: 0 <= i < |ms| && SlugOf(ms[i]) == Some(slug) {
        var i :| 0 <= i < |ms| && SlugOf(ms[i]) == Some(slug);
        if i < |ms| - 1 {
          assert init[i] == ms[i];
        }
      }
    }
  }

  /** For a repeated slug the last module carrying it wins. */
  lemma {:induction false} LastModuleWins(ms: seq<Module>, i: nat)
    requires i < |ms| && SlugOf(ms[i]).Some?
    requires forall j :: i < j < |ms| ==> SlugOf(ms[j]) != SlugOf(ms[i])
    ensures SlugOf(ms[i]).value in Entries(ms)
    ensures Entries(ms)[SlugOf(ms[i]).value] == GuideOf(ms[i])
  {
    EntriesKeys(ms, SlugOf(ms[i]).value);
    if i < |ms| - 1 {
      var init := ms[..|ms| - 1];
      assert init[i] == ms[i];
      LastModuleWins(init, i);
    }
  }

  /** The insertion order lists each registered slug once. */
  lemma {:induction false} KeyOrderMatchesEntries(ms: seq<Module>)
    ensures Distinct(KeyOrder(ms))
    ensures forall s :: s in KeyOrder(ms) <==> s in Entries(ms)
  {
    if ms != [] {
      KeyOrderMatchesEntries(ms[..|ms| - 1]);
    }
  }

  /** Every registered guide's meta carries the slug it is registered under. */
  lemma {:induction false} EntriesCarryTheirSlug(ms: seq<Module>)
    ensures forall s :: s in Entries(ms) ==> Entries(ms)[s].meta.slug == Some(s)
  {
    if ms != [] {
      EntriesCarryTheirSlug(ms[..|ms| - 1]);
    }
  }

  /** `guides` with its keys in insertion order. */
  class Registry {
    var keys: seq<string>
    var guides: map<string, Guide>

    /** Each slug is listed once, every listed slug is registered, and each guide sits under its own slug. */
    ghost predicate Valid()
      reads this
    {
      && Distinct(keys)
      && (forall s :: s in keys <==> s in guides)
      && (forall s :: s in guides ==> guides[s].meta.slug == Some(s))
    }

    /** The module-level loop `for (const path in modules)`. */
    constructor (modules: seq<Module>)
      ensures keys == KeyOrder(modules) && guides == Entries(modules)
      ensures Valid()
    {
      var order: seq<string> := [];
      var entries: map<string, Guide> := map[];
      var n := 0;
      while n < |modules|
        invariant 0 <= n <= |modules|
        invariant order == KeyOrder(modules[..n]) && entries == Entries(modules[..n])
        invariant forall s :: s in order <==> s in entries
      {
        assert modules[..n + 1][..n] == modules[..n];
        KeyOrderMatchesEntries(modules[..n]);
        var mod := modules[n];
        var guide := GuideOf(mod);
        if Truthy(guide.meta.slug) {
          if guide.meta.slug.value !in entries {
            order := order + [guide.meta.slug.value];
          }
          entries := entries[guide.meta.slug.value := guide];
        }
        n := n + 1;
      }
      assert modules[..n] == modules;
      KeyOrderMatchesEntries(modules);
      EntriesCarryTheirSlug(modules);
      keys := order;
      guides := entries;
    }

    /** `guides[slug] || null`. */
    function GetGuideBySlug(slug: string): (r: Option<Guide>)
      reads this
      ensures r.Some? <==> slug in guides
      ensures r.Some? ==> r.value == guides[slug]
    {
      if slug in guides then Some(guides[slug]) else None
    }

    /** `Object.values(guides).map(({ meta }) => meta)`. */
    function ListGuides(): (r: seq<Meta>)
      reads this
      requires Valid()
      ensures |r| == |keys|
      ensures forall i :: 0 <= i < |keys| ==> r[i] == guides[keys[i]].meta
      // one meta per registered slug: the metas carry pairwise different slugs, together all of them
      ensures forall i :: 0 <= i < |r| ==> r[i].slug == Some(keys[i])
      ensures forall s :: s in guides <==> exists i :: 0 <= i < |r| && r[i].slug == Some(s)
    {
      seq(|keys|, i requires 0 <= i < |keys| && keys[i] in guides reads this => guides[keys[i]].meta)
    }
  }
}
