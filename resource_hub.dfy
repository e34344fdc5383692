/**
 * The resource hub page (src/pages/ResourceHub.jsx): the category tabs, the
 * category-and-search filter over the resource list, and the Starter Path
 * banner with its persistent "hide" flag.
 */
module ResourceHub {
  import opened Wrappers
  import opened Strings
  import opened Seqs
  import opened Sorting
  import opened Resources
  import Progress

  /** `res.category || "General"`. */
  function CategoryOf(res: Resource): (c: string)
    ensures c != ""
    ensures res.category != "" ==> c == res.category
  {
    if res.category != "" then res.category else "General"
  }

  function CategoriesOf(rs: seq<Resource>): (cs: seq<string>)
    ensures |cs| == |rs| && forall i :: 0 <= i < |rs| ==> cs[i] == CategoryOf(rs[i])
  {
    seq(|rs|, i requires 0 <= i < |rs| => CategoryOf(rs[i]))
  }

  function AsKey(s: string): seq<string> {
    [s]
  }

  /** `["All", ...Array.from(new Set(categories)).sort()]`. */
  function Categories(rs: seq<Resource>): (tabs: seq<string>)
    ensures |tabs| >= 1 && tabs[0] == "All"
  {
    ["All"] + SortByKey(Dedupe(CategoriesOf(rs), {}), AsKey)
  }

  /** After "All", each category of the list appears once, and nothing else does. */
  lemma CategoriesDistinctAndComplete(rs: seq<Resource>)
    ensures Distinct(Categories(rs)[1..])
    ensures SortedBy(Categories(rs)[1..], AsKey)
    ensures forall c :: c in Categories(rs)[1..] <==> exists i :: 0 <= i < |rs| && CategoryOf(rs[i]) == c
  {
    var distinct := Dedupe(CategoriesOf(rs), {});
    var sorted := SortByKey(distinct, AsKey);
    assert Categories(rs)[1..] == sorted;
    PermutationKeepsDistinct(distinct, sorted);
    forall c ensures c in sorted <==> c in distinct {
      assert c in sorted <==> c in multiset(sorted);
      assert c in distinct <==> c in multiset(distinct);
    }
  }

  /** The sorted tabs ascend in string order. */
  lemma CategoriesAscend(rs: seq<Resource>, i: nat, j: nat)
    requires 1 <= i < j < |Categories(rs)|
    ensures StrLe(Categories(rs)[i], Categories(rs)[j]) && Categories(rs)[i] != Categories(rs)[j]
  {
    var tabs := Categories(rs);
    CategoriesDistinctAndComplete(rs);
    assert tabs[i] == tabs[1..][i - 1] && tabs[j] == tabs[1..][j - 1];
    assert KeyLe(AsKey(tabs[i]), AsKey(tabs[j]));
    StrLeReflexive(tabs[i]);
  }

  /** `selectedCategory === "All" || (res.category || "General") === selectedCategory`. */
  predicate InCategory(res: Resource, selected: string) {
    selected == "All" || CategoryOf(res) == selected
  }

  /** `${res.title} ${res.description} ${res.category}`: a missing title prints as "undefined". */
  function Haystack(res: Resource): string {
    (if res.title.Some? then res.title.value else "undefined") + " " + res.description + " " + res.category
  }

  predicate MatchesSearch(res: Resource, query: string) {
    Includes(Lower(Haystack(res)), Lower(query))
  }

  predicate Keep(res: Resource, selected: string, query: string) {
    InCategory(res, selected) && MatchesSearch(res, query)
  }

  /** `all.filter(...)`. */
  function FilterResources(rs: seq<Resource>, selected: string, query: string): (out: seq<Resource>)
    ensures IsSubsequence(out, rs)
    ensures forall r :: r in out ==> Keep(r, selected, query)
    ensures forall r :: r in rs && Keep(r, selected, query) ==> r in out
    // every kept resource appears as often as in the input, every other one not at all
    ensures forall r :: multiset(out)[r] == if Keep(r, selected, query) then multiset(rs)[r] else 0
  {
    if rs == [] then []
    else
      var rest := FilterResources(rs[1..], selected, query);
      assert rs == [rs[0]] + rs[1..];
      assert multiset(rs) == multiset{rs[0]} + multiset(rs[1..]);
      if Keep(rs[0], selected, query) then [rs[0]] + rest
      else
        SubsequenceOfTail(rest, rs);
        rest
  }

  /** With the "All" tab and an empty search box, every resource is listed. */
  lemma {:induction false} NoFilterKeepsAll(rs: seq<Resource>)
    ensures FilterResources(rs, "All", "") == rs
  {
    if rs != [] {
      IncludesEmpty(Lower(Haystack(rs[0])));
      assert Lower("") == "";
      NoFilterKeepsAll(rs[1..]);
    }
  }

  /** The search ignores the case of the query's letters. */
  lemma {:induction false} SearchIgnoresCase(rs: seq<Resource>, selected: string, query: string)
    ensures FilterResources(rs, selected, query) == FilterResources(rs, selected, Lower(query))
  {
    LowerIdempotent(query);
    if rs != [] {
      SearchIgnoresCase(rs[1..], selected, query);
    }
  }

  /** `starterPct < 100 && !bannerHidden`. */
  predicate ShowBanner(starterPct: nat, bannerHidden: bool) {
    starterPct < 100 && !bannerHidden
  }

  /** The hub's banner state, over the stored flag under its key. */
  class Hub {
    var stored: Option<string>   // localStorage["starterHubBannerHidden:v1"]
    var bannerHidden: bool
    var starterPct: nat

    /** First render: hidden iff the stored flag is exactly "true"; the percentage starts at 0. */
    constructor (stored: Option<string>)
      ensures this.stored == stored
      ensures bannerHidden == (stored == Some("true")) && starterPct == 0
    {
      this.stored := stored;
      bannerHidden := stored == Some("true");
      starterPct := 0;
    }

    /** The mount effect: `setStarterPct(percentComplete())`. */
    method Refresh(progress: map<string, bool>)
      modifies this
      ensures starterPct == Progress.PercentComplete(progress)
      ensures stored == old(stored) && bannerHidden == old(bannerHidden)
      ensures ShowBanner(starterPct, bannerHidden) <==> !bannerHidden && !Progress.IsComplete(progress)
    {
      starterPct := Progress.PercentComplete(progress);
      Progress.CompleteIffFullIffNoNext(progress);
      Progress.PercentIsTwentyPerStep(progress);
    }

    /**
     * `handleHideBanner`: hidden now; `lands` says whether `setItem` returned
     * normally, and only then is "true" stored for later visits (the `catch`
     * leaves the stored flag as it was).
     */
    method HideBanner(lands: bool)
      modifies this
      ensures bannerHidden
      ensures lands ==> stored == Some("true")
      ensures !lands ==> stored == old(stored)
      ensures starterPct == old(starterPct)
      ensures !ShowBanner(starterPct, bannerHidden)
    {
      bannerHidden := true;
      if lands {
        stored := Some("true");
      }
    }
  }

  /**
   * Hiding the banner and opening the hub again: when local storage takes the
   * write the banner stays hidden; when `setItem` throws, the next visit reads
   * the old flag and shows the banner again unless the path is complete or the
   * flag was already "true".
   */
  method HiddenForGood(pct: map<string, bool>, stored: Option<string>, lands: bool) returns (shown: bool)
    ensures lands ==> !shown
    ensures !lands ==> (shown <==> !Progress.IsComplete(pct) && stored != Some("true"))
  {
    var hub := new Hub(stored);
    hub.HideBanner(lands);
    var next := new Hub(hub.stored);
    next.Refresh(pct);
    shown := ShowBanner(next.starterPct, next.bannerHidden);
  }
}
