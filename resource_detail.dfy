/**
 * The guide page (src/pages/ResourceDetail.jsx): the table of contents built
 * from the article's h1-h3 headings, with a unique anchor id per entry, and
 * the Starter Path ribbon's step label and neighbour links.
 */
module ResourceDetail {
  import opened Wrappers
  import opened Strings
  import opened Seqs
  import Progress

  datatype Tag = H1 | H2 | H3

  /** A heading element of the rendered article, in document order. */
  datatype Heading = Heading(tag: Tag, textContent: string)

  /** What the table of contents shows for a heading, before its id is chosen. */
  datatype Entry = Entry(text: string, level: nat)

  datatype TocItem = TocItem(id: string, text: string, level: nat)

  /** `Number(el.tagName[1])`. */
  function Level(tag: Tag): (n: nat)
    ensures 1 <= n <= 3
    ensures n == 1 <==> tag == H1
    ensures n == 3 <==> tag == H3
  {
    match tag
    case H1 => 1
    case H2 => 2
    case H3 => 3
  }

  /** The entry for one heading: none when its trimmed text is empty. */
  function EntryOf(h: Heading): (r: seq<Entry>)
    ensures |r| <= 1
    ensures r == [] <==> Trim(h.textContent) == ""
    ensures forall e :: e in r ==> e.text != "" && Trim(e.text) == e.text && 1 <= e.level <= 3
  {
    var text := Trim(h.textContent);
    if text == "" then [] else
      TrimNoEdgeSpace(text);
      [Entry(text, Level(h.tag))]
  }

  /** The entries of a heading list, in document order. */
  function Entries(hs: seq<Heading>): seq<Entry> {
    FlatMap(hs, EntryOf)
  }

  /** The entries of two consecutive parts of a page are those of each part, one after the other. */
  lemma EntriesAppend(a: seq<Heading>, b: seq<Heading>)
    ensures Entries(a + b) == Entries(a) + Entries(b)
  {
    FlatMapAppend(a, b, EntryOf);
  }

  /** One more heading adds its own entry, if any, at the end. */
  lemma EntriesSnoc(hs: seq<Heading>, n: nat)
    requires n < |hs|
    ensures Entries(hs[..n + 1]) == Entries(hs[..n]) + EntryOf(hs[n])
  {
    assert hs[..n + 1] == hs[..n] + [hs[n]];
    FlatMapAppend(hs[..n], [hs[n]], EntryOf);
    assert [hs[n]][1..] == [];
  }

  /** Every entry shows non-blank, trimmed text and a level between 1 and 3. */
  lemma EntriesWellFormed(hs: seq<Heading>)
    ensures forall i :: 0 <= i < |Entries(hs)| ==>
      && Entries(hs)[i].text != "" && Trim(Entries(hs)[i].text) == Entries(hs)[i].text
      && 1 <= Entries(hs)[i].level <= 3
  {
    forall i | 0 <= i < |Entries(hs)|
      ensures Entries(hs)[i].text != "" && Trim(Entries(hs)[i].text) == Entries(hs)[i].text
      ensures 1 <= Entries(hs)[i].level <= 3
    {
      FlatMapFrom(hs, EntryOf, Entries(hs)[i]);
    }
  }

  predicate NonWord(c: char) {
    !IsWordChar(c)
  }

  /** `.replace(/(^-|-$)/g, "")`: one leading and one trailing "-" go. */
  function StripDashes(s: string): (r: string)
    ensures |r| <= |s|
    ensures NoDoubleDash(s) ==> r == [] || (r[0] != '-' && r[|r| - 1] != '-')
  {
    var t := if |s| > 0 && s[0] == '-' then s[1..] else s;
    if |t| > 0 && t[|t| - 1] == '-' then t[..|t| - 1] else t
  }

  /** The id derived from the heading text, before de-duplication. */
  function BaseId(text: string): string {
    var stripped := StripDashes(ReplaceRuns(Lower(text), NonWord, false));
    if stripped == "" then "section" else stripped
  }

  /**
   * A base id is a non-empty run of word characters and single dashes with no
   * dash at either end; the word characters of the lower-cased text survive
   * in order, and without any the id is "section".
   */
  lemma BaseIdShape(text: string)
    ensures var r := BaseId(text);
      && r != []
      && (forall i :: 0 <= i < |r| ==> IsWordChar(r[i]) || r[i] == '-')
      && r[0] != '-' && r[|r| - 1] != '-'
      && NoDoubleDash(r)
  {
    var replaced := ReplaceRuns(Lower(text), NonWord, false);
    ReplaceRunsNoDoubleDash(Lower(text), NonWord, false);
    StripDashesNoDoubleDash(replaced);
    assert WordOrDash(replaced);
    StripDashesWordOrDash(replaced);
  }

  /**
   * A heading of two words separated by white space gets the two words,
   * lower-cased, joined by one dash: "Getting Started" becomes
   * "getting-started".
   */
  lemma TwoWordHeadingId(x: string, gap: string, y: string)
    requires x != [] && AllIn(x, IsWordChar)
    requires gap != [] && AllIn(gap, IsSpace)
    requires y != [] && AllIn(y, IsWordChar)
    ensures BaseId(x + gap + y) == Lower(x) + "-" + Lower(y)
  {
    LowerAppend(x + gap, y);
    LowerAppend(x, gap);
    var lx, lg, ly := Lower(x), Lower(gap), Lower(y);
    assert AllIn(lx, IsWordChar) && AllIn(ly, IsWordChar) && AllIn(lg, NonWord);
    WordsAroundGap(lx, lg, ly);
  }

  lemma WordsAroundGap(x: string, gap: string, y: string)
    requires x != [] && AllIn(x, IsWordChar)
    requires gap != [] && AllIn(gap, NonWord)
    requires y != [] && AllIn(y, IsWordChar)
    ensures StripDashes(ReplaceRuns(x + gap + y, NonWord, false)) == x + "-" + y
  {
    MaximalRunOneDash(x, gap, y, NonWord);
    ReplaceRunsNoRun(x, NonWord, false);
    ReplaceRunsNoRun(y, NonWord, false);
    var t := x + "-" + y;
    assert t[0] == x[0] && t[|t| - 1] == y[|y| - 1];
  }

  predicate WordOrDash(s: string) {
    forall i :: 0 <= i < |s| ==> IsWordChar(s[i]) || s[i] == '-'
  }

  lemma StripDashesWordOrDash(s: string)
    requires WordOrDash(s)
    ensures WordOrDash(StripDashes(s))
  {
    var t := if |s| > 0 && s[0] == '-' then s[1..] else s;
    assert WordOrDash(t) by {
      forall i | 0 <= i < |t| ensures IsWordChar(t[i]) || t[i] == '-' {
        if |s| > 0 && s[0] == '-' {
          assert t[i] == s[i + 1];
        }
      }
    }
    if |t| > 0 && t[|t| - 1] == '-' {
      var u := t[..|t| - 1];
      forall i | 0 <= i < |u| ensures IsWordChar(u[i]) || u[i] == '-' {
        assert u[i] == t[i];
      }
    }
  }

  /** The word characters of the lower-cased text survive, in order, whenever there are any. */
  lemma BaseIdKeepsWords(text: string)
    ensures Kept(Lower(text), NonWord) != [] ==> Kept(BaseId(text), NonWord) == Kept(Lower(text), NonWord)
  {
    ReplaceRunsKeeps(Lower(text), NonWord, false);
    StripDashesKeeps(ReplaceRuns(Lower(text), NonWord, false));
  }

  /** A text without any word character gets "section" (as does a heading titled "Section"). */
  lemma BaseIdFallback(text: string)
    ensures Kept(Lower(text), NonWord) == [] ==> BaseId(text) == "section"
  {
    var replaced := ReplaceRuns(Lower(text), NonWord, false);
    ReplaceRunsKeeps(Lower(text), NonWord, false);
    ReplaceRunsNoDoubleDash(Lower(text), NonWord, false);
    OnlyDashes(replaced);
  }

  lemma StripDashesKeeps(s: string)
    ensures Kept(StripDashes(s), NonWord) == Kept(s, NonWord)
    ensures forall i :: 0 <= i < |StripDashes(s)| ==> StripDashes(s)[i] in s
  {
    var t := if |s| > 0 && s[0] == '-' then s[1..] else s;
    assert Kept(t, NonWord) == Kept(s, NonWord);
    if |t| > 0 && t[|t| - 1] == '-' {
      assert t == t[..|t| - 1] + [t[|t| - 1]];
      KeptAppend(t[..|t| - 1], [t[|t| - 1]], NonWord);
    }
  }

  lemma StripDashesNoDoubleDash(s: string)
    requires NoDoubleDash(s)
    ensures NoDoubleDash(StripDashes(s))
  {
    var t := if |s| > 0 && s[0] == '-' then s[1..] else s;
    assert NoDoubleDash(t) by {
      forall i | 0 <= i < |t| - 1 ensures !(t[i] == '-' && t[i + 1] == '-') {
        if |s| > 0 && s[0] == '-' {
          assert t[i] == s[i + 1] && t[i + 1] == s[i + 2];
        }
      }
    }
  }

  /** A replaced text without word characters is at most one "-", which stripping removes. */
  lemma OnlyDashes(s: string)
    requires forall i :: 0 <= i < |s| ==> s[i] == '-' || !NonWord(s[i])
    requires NoDoubleDash(s)
    ensures Kept(s, NonWord) == [] ==> StripDashes(s) == []
  {
    if s != [] && Kept(s, NonWord) == [] {
      assert s[0] == '-';
    }
  }

  /** The `k`-th id tried for a base: the base itself, then `base-1`, `base-2`, … */
  function Candidate(base: string, k: nat): (r: string)
    ensures base <= r
    ensures k > 0 ==> |r| > |base| + 1 && r[|base|] == '-'
  {
    if k == 0 then base else base + "-" + NatToString(k)
  }

  lemma CandidateInjective(base: string, j: nat, k: nat)
    requires Candidate(base, j) == Candidate(base, k)
    ensures j == k
  {
    if j > 0 && k > 0 {
      var c := Candidate(base, j);
      assert NatToString(j) == c[|base| + 1..];
      assert NatToString(k) == c[|base| + 1..];
      NatToStringInjective(j, k);
    }
  }

  /**
   * `id` is what the counter loop settles on for `base` against `used`:
   * the first candidate that is not yet used.
   */
  ghost predicate IsChosenId(id: string, base: string, used: set<string>) {
    exists k: nat :: id == Candidate(base, k) && id !in used
      && forall j: nat :: j < k ==> Candidate(base, j) in used
  }

  /** The choice is determined by the base and the used ids. */
  lemma ChosenIdUnique(a: string, b: string, base: string, used: set<string>)
    requires IsChosenId(a, base, used) && IsChosenId(b, base, used)
    ensures a == b
  {
    var ka: nat :| a == Candidate(base, ka) && a !in used && forall j: nat :: j < ka ==> Candidate(base, j) in used;
    var kb: nat :| b == Candidate(base, kb) && b !in used && forall j: nat :: j < kb ==> Candidate(base, j) in used;
  }

  /** The first heading with a base nobody holds yet keeps the base itself. */
  lemma FreeBaseKept(id: string, base: string, used: set<string>)
    requires base !in used && IsChosenId(id, base, used)
    ensures id == base
  {
    assert IsChosenId(base, base, used) by {
      assert base == Candidate(base, 0);
    }
    ChosenIdUnique(id, base, base, used);
  }

  function IdsOf(items: seq<TocItem>): (ids: set<string>)
    ensures forall i :: 0 <= i < |items| ==> items[i].id in ids
    ensures forall id :: id in ids ==> exists i :: 0 <= i < |items| && items[i].id == id
  {
    set i | 0 <= i < |items| :: items[i].id
  }

  /** The candidates tried before the `k`-th one. */
  function Tried(base: string, k: nat): set<string> {
    set j: nat | j < k :: Candidate(base, j)
  }

  lemma TriedGrows(base: string, k: nat)
    ensures Tried(base, k + 1) == Tried(base, k) + {Candidate(base, k)}
    ensures Candidate(base, k) !in Tried(base, k)
  {
    if Candidate(base, k) in Tried(base, k) {
      var j: nat :| j < k && Candidate(base, j) == Candidate(base, k);
      CandidateInjective(base, j, k);
    }
  }

  /** The counter loop: `base`, then `base-1`, `base-2`, … until one is not in `usedIds`. */
  method ChooseId(baseId: string, usedIds: set<string>) returns (id: string)
    ensures IsChosenId(id, baseId, usedIds)
  {
    id := baseId;
    var counter := 1;
    while id in usedIds
      invariant counter >= 1
      invariant id == Candidate(baseId, counter - 1)
      invariant forall j: nat :: j < counter - 1 ==> Candidate(baseId, j) in usedIds
      invariant Tried(baseId, counter - 1) <= usedIds
      decreases usedIds - Tried(baseId, counter - 1)
    {
      TriedGrows(baseId, counter - 1);
      id := baseId + "-" + NatToString(counter);
      counter := counter + 1;
    }
  }

  /** Every item's id is the first free candidate of its base against the ids before it, and no id repeats. */
  ghost predicate WellChosen(items: seq<TocItem>) {
    ChosenBy(items, BaseId)
  }

  lemma WellChosenMeans(items: seq<TocItem>)
    requires WellChosen(items)
    ensures forall i :: 0 <= i < |items| ==> IsChosenId(items[i].id, BaseId(items[i].text), IdsOf(items[..i]))
    ensures forall i, j :: 0 <= i < j < |items| ==> items[i].id != items[j].id
  {
  }

  ghost predicate ChosenBy(items: seq<TocItem>, base: string -> string) {
    && (forall i :: 0 <= i < |items| ==> IsChosenId(items[i].id, base(items[i].text), IdsOf(items[..i])))
    && (forall i, j :: 0 <= i < j < |items| ==> items[i].id != items[j].id)
  }

  lemma AppendChosen(items: seq<TocItem>, item: TocItem)
    requires WellChosen(items)
    requires IsChosenId(item.id, BaseId(item.text), IdsOf(items))
    ensures WellChosen(items + [item])
    ensures IdsOf(items + [item]) == IdsOf(items) + {item.id}
  {
    AppendChosenBy(items, item, BaseId);
  }

  /** One more item with a freshly chosen id keeps the list well chosen, whatever the base ids are. */
  lemma AppendChosenBy(items: seq<TocItem>, item: TocItem, base: string -> string)
    requires ChosenBy(items, base)
    requires IsChosenId(item.id, base(item.text), IdsOf(items))
    ensures ChosenBy(items + [item], base)
    ensures IdsOf(items + [item]) == IdsOf(items) + {item.id}
  {
    var all := items + [item];
    IdsOfSnoc(items, item);
    ChosenIsFresh(item.id, base(item.text), IdsOf(items));
    forall i | 0 <= i < |all|
      ensures IsChosenId(all[i].id, base(all[i].text), IdsOf(all[..i]))
    {
      if i < |items| {
        assert all[i] == items[i] && all[..i] == items[..i];
      } else {
        assert all[i] == item && all[..i] == items;
      }
    }
    forall i, j | 0 <= i < j < |all| ensures all[i].id != all[j].id {
      assert all[i] == items[i];
      if j < |items| {
        assert all[j] == items[j];
      } else {
        assert all[j] == item;
      }
    }
  }

  lemma ChosenIsFresh(id: string, base: string, used: set<string>)
    requires IsChosenId(id, base, used)
    ensures id !in used
  {
  }

  /** The ids after one more item are the ids before and the new one. */
  lemma IdsOfSnoc(items: seq<TocItem>, item: TocItem)
    ensures IdsOf(items + [item]) == IdsOf(items) + {item.id}
  {
    var all := items + [item];
    forall x | x in IdsOf(all) ensures x in IdsOf(items) + {item.id} {
      var i :| 0 <= i < |all| && all[i].id == x;
      if i < |items| {
        assert items[i].id == x;
      }
    }
    forall i | 0 <= i < |items| ensures items[i].id in IdsOf(all) {
      assert all[i] == items[i];
    }
    assert all[|items|] == item;
  }

  /** The item list shows the entries, in order. */
  predicate ShowsEntries(items: seq<TocItem>, entries: seq<Entry>) {
    |items| == |entries| && forall i :: 0 <= i < |items| ==> Entry(items[i].text, items[i].level) == entries[i]
  }

  lemma ShowsOneMore(items: seq<TocItem>, entries: seq<Entry>, item: TocItem)
    requires ShowsEntries(items, entries)
    ensures ShowsEntries(items + [item], entries + [Entry(item.text, item.level)])
  {
  }

  /**
   * The effect that fills the table of contents: each heading with
   * non-blank text gets the first free candidate of its base id, which is
   * then marked used.
   */
  method BuildToc(headings: seq<Heading>) returns (items: seq<TocItem>)
    ensures |items| == |Entries(headings)|
    ensures forall i :: 0 <= i < |items| ==>
      Entry(items[i].text, items[i].level) == Entries(headings)[i]
    ensures forall i :: 0 <= i < |items| ==> IsChosenId(items[i].id, BaseId(items[i].text), IdsOf(items[..i]))
    ensures forall i, j :: 0 <= i < j < |items| ==> items[i].id != items[j].id
  {
    items := [];
    var usedIds: set<string> := {};
    var n := 0;
    while n < |headings|
      invariant 0 <= n <= |headings|
      invariant ShowsEntries(items, Entries(headings[..n]))
      invariant WellChosen(items)
      invariant usedIds == IdsOf(items)
    {
      var el := headings[n];
      EntriesSnoc(headings, n);
      var text := Trim(el.textContent);
      if text != "" {
        var id := ChooseId(BaseId(text), usedIds);
        var item := TocItem(id, text, Level(el.tag));
        AppendChosen(items, item);
        assert EntryOf(el) == [Entry(text, Level(el.tag))];
        ShowsOneMore(items, Entries(headings[..n]), item);
        assert Entries(headings[..n + 1]) == Entries(headings[..n]) + [Entry(item.text, item.level)];
        items := items + [item];
        usedIds := usedIds + {id};
      } else {
        assert Entries(headings[..n + 1]) == Entries(headings[..n]);
      }
      n := n + 1;
    }
    assert headings[..n] == headings;
    WellChosenMeans(items);
  }

  /** The ribbon of a Starter Path guide: its step, the path length and its neighbours. */
  datatype Ribbon = Ribbon(step: nat, total: nat, prev: Option<string>, next: Option<string>)

  /** `StarterRibbon`: nothing for a slug off the path. */
  function StarterRibbon(slug: string): (r: Option<Ribbon>)
    ensures r.None? <==> slug !in Progress.STARTER_SLUGS
    ensures r.Some? ==>
      var s := Progress.STARTER_SLUGS;
      && r.value.total == |s| == 5
      && 1 <= r.value.step <= |s| && s[r.value.step - 1] == slug
      && (r.value.prev.None? <==> r.value.step == 1)
      && (r.value.prev.Some? ==> r.value.prev.value == s[r.value.step - 2])
      && (r.value.next.None? <==> r.value.step == |s|)
      && (r.value.next.Some? ==> r.value.next.value == s[r.value.step])
  {
    var s := Progress.STARTER_SLUGS;
    var idx := IndexOf(s, slug);
    if idx == -1 then None
    else
      Some(Ribbon(idx + 1, |s|,
                  if idx > 0 then Some(s[idx - 1]) else None,
                  if idx < |s| - 1 then Some(s[idx + 1]) else None))
  }

  /** Following "Next" and then "Prev" on the path leads back to the same guide, and conversely. */
  lemma RibbonNeighbours(i: nat)
    requires i + 1 < |Progress.STARTER_SLUGS|
    ensures var s := Progress.STARTER_SLUGS;
      && StarterRibbon(s[i]).value.next == Some(s[i + 1])
      && StarterRibbon(s[i + 1]).value.prev == Some(s[i])
      && StarterRibbon(s[i + 1]).value.step == StarterRibbon(s[i]).value.step + 1
  {
    var s := Progress.STARTER_SLUGS;
    Progress.StarterSlugsDistinct();
    var a, b := StarterRibbon(s[i]).value, StarterRibbon(s[i + 1]).value;
    assert s[a.step - 1] == s[i];
    assert s[b.step - 1] == s[i + 1];
  }

  /**
   * The ribbon's button: `setDone(slug, !done)` with the `done` read at
   * render time. Where the write lands, the guide's flag becomes `!done`,
   * which flips it when the page shows the current state; no other flag
   * changes, and `threw` says whether `setDone` threw.
   */
  method ToggleStep(store: Progress.ProgressStore, slug: string, done: bool) returns (threw: bool)
    modifies store
    ensures threw <==> old(store.storage).Scalar?
    ensures Progress.Writable(old(store.storage)) ==> store.IsDone(slug) == !done
    ensures done == old(store.IsDone(slug)) && Progress.Writable(old(store.storage)) ==>
      store.IsDone(slug) == !old(store.IsDone(slug))
    ensures !Progress.Writable(old(store.storage)) ==> store.storage == old(store.storage)
    ensures forall t :: t != slug ==> store.IsDone(t) == old(store.IsDone(t))
  {
    threw := store.SetDone(slug, !done);
  }
}
