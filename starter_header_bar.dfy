/**
 * The sticky Starter Path bar (src/components/StarterHeaderBar.jsx): which
 * guide the current path names, when the bar shows, the persistent `seen`
 * flag its effects set and clear, and where "Continue" leads.
 */
module StarterHeaderBar {
  import opened Wrappers
  import Progress

  const RESOURCES_PREFIX: string := "/resources/"
  const START_PATH: string := "/start"

  /** The longest prefix of `s` without a "/" (what `[^/]+` matches, possibly empty). */
  function Segment(s: string): (r: string)
    ensures r <= s
    ensures forall i :: 0 <= i < |r| ==> r[i] != '/'
    ensures |r| == |s| || s[|r|] == '/'
  {
    if s == [] || s[0] == '/' then [] else [s[0]] + Segment(s[1..])
  }

  /** `useCurrentSlug`: the match of `^\/resources\/([^/]+)`, or null. */
  function CurrentSlug(pathname: string): (r: Option<string>)
    ensures r.Some? ==> RESOURCES_PREFIX <= pathname
    ensures r.Some? ==> r.value != [] && r.value == Segment(pathname[|RESOURCES_PREFIX|..])
    ensures r.None? <==> !(RESOURCES_PREFIX <= pathname) || Segment(pathname[|RESOURCES_PREFIX|..]) == []
  {
    if RESOURCES_PREFIX <= pathname && Segment(pathname[|RESOURCES_PREFIX|..]) != [] then
      Some(Segment(pathname[|RESOURCES_PREFIX|..]))
    else None
  }

  predicate NoSlash(s: string) {
    forall i :: 0 <= i < |s| ==> s[i] != '/'
  }

  lemma {:induction false} SegmentStopsAtSlash(s: string, rest: string)
    requires NoSlash(s)
    ensures Segment(s) == s
    ensures Segment(s + "/" + rest) == s
  {
    if s != [] {
      assert (s + "/" + rest)[1..] == s[1..] + "/" + rest;
      SegmentStopsAtSlash(s[1..], rest);
    } else {
      assert s + "/" + rest == "/" + rest;
    }
  }

  /** A guide link's path gives back its slug, with or without a sub-path after it. */
  lemma SlugRoundTrip(slug: string, rest: string)
    requires slug != [] && NoSlash(slug)
    ensures CurrentSlug(RESOURCES_PREFIX + slug) == Some(slug)
    ensures CurrentSlug(RESOURCES_PREFIX + slug + "/" + rest) == Some(slug)
  {
    SegmentStopsAtSlash(slug, rest);
    var p1 := RESOURCES_PREFIX + slug;
    var p2 := RESOURCES_PREFIX + slug + "/" + rest;
    assert p1[|RESOURCES_PREFIX|..] == slug;
    assert p2[|RESOURCES_PREFIX|..] == slug + "/" + rest;
  }

  predicate IsOnStarterGuide(pathname: string) {
    CurrentSlug(pathname).Some? && CurrentSlug(pathname).value in Progress.STARTER_SLUGS
  }

  /** On "/start" or on one of the five guides. */
  predicate OnPath(pathname: string) {
    pathname == START_PATH || IsOnStarterGuide(pathname)
  }

  /** `(seen || isOnStart || isOnStarterGuide) && pct < 100`. */
  predicate ShouldShow(seen: bool, pathname: string, pct: nat) {
    (seen || OnPath(pathname)) && pct < 100
  }

  /** The bar never shows once the path is complete; below 100% it shows iff seen or on the path. */
  lemma ShowRule(seen: bool, pathname: string, progress: map<string, bool>)
    ensures Progress.IsComplete(progress) ==> !ShouldShow(seen, pathname, Progress.PercentComplete(progress))
    ensures !Progress.IsComplete(progress) ==>
      (ShouldShow(seen, pathname, Progress.PercentComplete(progress)) <==> seen || OnPath(pathname))
  {
    Progress.CompleteIffFullIffNoNext(progress);
    Progress.PercentIsTwentyPerStep(progress);
  }

  /** The Continue link: `/resources/<next>` while a step is left, `/start` otherwise. */
  function ContinueTarget(next: Option<string>): (target: string)
    ensures next.None? ==> target == START_PATH
    ensures next.Some? ==> target == RESOURCES_PREFIX + next.value
  {
    if next.Some? then RESOURCES_PREFIX + next.value else START_PATH
  }

  lemma StarterSlugsHaveNoSlash()
    ensures forall i :: 0 <= i < |Progress.STARTER_SLUGS| ==>
      Progress.STARTER_SLUGS[i] != [] && NoSlash(Progress.STARTER_SLUGS[i])
  {
  }

  /** Following Continue lands on the next undone guide, and the bar recognises it as a starter guide. */
  lemma ContinueLeadsToNextStep(progress: map<string, bool>)
    ensures var next := Progress.NextIncomplete(progress);
      && (next.None? <==> Progress.IsComplete(progress))
      && (next.Some? ==> CurrentSlug(ContinueTarget(next)) == next && IsOnStarterGuide(ContinueTarget(next)))
  {
    Progress.CompleteIffFullIffNoNext(progress);
    var next := Progress.NextIncomplete(progress);
    if next.Some? {
      StarterSlugsHaveNoSlash();
      var i :| 0 <= i < |Progress.STARTER_SLUGS| && Progress.STARTER_SLUGS[i] == next.value;
      SlugRoundTrip(next.value, "");
    }
  }

  /**
   * One round of the two `seen` effects as written: both read the value of
   * the same render. The visit effect sets the flag on the path, the
   * completion effect clears it at 100%.
   */
  function EffectRoundAsWritten(seen: bool, onPath: bool, pct: nat): bool {
    if onPath && !seen then true
    else if pct >= 100 && seen then false
    else seen
  }

  /** On the path with the path complete the flag flips on every render and never settles. */
  lemma AsWrittenNeverSettles(pct: nat)
    requires pct >= 100
    ensures EffectRoundAsWritten(false, true, pct) == true
    ensures EffectRoundAsWritten(true, true, pct) == false
    ensures forall seen :: EffectRoundAsWritten(seen, true, pct) != seen
  {
  }

  /** The round with the visit effect limited to an incomplete path. */
  function EffectRound(seen: bool, onPath: bool, pct: nat): (r: bool)
    ensures pct >= 100 ==> !r
    ensures pct < 100 ==> r == (seen || onPath)
  {
    if onPath && !seen && pct < 100 then true
    else if pct >= 100 && seen then false
    else seen
  }

  /** One round reaches a state the next round leaves alone, and below 100% nothing differs from the code. */
  lemma EffectRoundSettles(seen: bool, onPath: bool, pct: nat)
    ensures EffectRound(EffectRound(seen, onPath, pct), onPath, pct) == EffectRound(seen, onPath, pct)
    ensures pct < 100 ==> EffectRound(seen, onPath, pct) == EffectRoundAsWritten(seen, onPath, pct)
    ensures pct >= 100 && !onPath ==> EffectRound(seen, onPath, pct) == EffectRoundAsWritten(seen, onPath, pct)
  {
  }

  /** The bar on one page, with the flag as stored under "starterBarSeen:v1". */
  class HeaderBar {
    const pathname: string
    var pct: nat
    var seen: bool
    var stored: Option<string>

    /** The stored flag and `seen` agree. */
    predicate Valid()
      reads this
    {
      seen == (stored == Some("true"))
    }

    constructor (pathname: string, stored: Option<string>, pct: nat)
      ensures this.pathname == pathname && this.pct == pct && this.stored == stored
      ensures seen == (stored == Some("true"))
      ensures Valid()
    {
      this.pathname := pathname;
      this.pct := pct;
      this.stored := stored;
      seen := stored == Some("true");
    }

    /** The progress subscription: `setPct(percentComplete())`. */
    method Update(progress: map<string, bool>)
      modifies this
      ensures pct == Progress.PercentComplete(progress)
      ensures seen == old(seen) && stored == old(stored)
    {
      pct := Progress.PercentComplete(progress);
    }

    /** One round of the effects (the visit effect limited to an incomplete path). */
    method RunEffects()
      modifies this
      requires Valid()
      ensures seen == EffectRound(old(seen), OnPath(pathname), pct)
      ensures pct == old(pct) && Valid()
    {
      if OnPath(pathname) && !seen && pct < 100 {
        stored := Some("true");
        seen := true;
      } else if pct >= 100 && seen {
        stored := None;
        seen := false;
      }
    }

    /** The Hide button: the bar stays away until the path is visited again. */
    method Hide()
      modifies this
      ensures !seen && stored == None && pct == old(pct) && Valid()
      ensures !OnPath(pathname) ==> !ShouldShow(seen, pathname, pct)
    {
      stored := None;
      seen := false;
    }
  }
}
