/**
 * The guide checklist (src/components/Checklist.jsx): a map from item id to
 * a checked flag, the count and percentage of checked items, and the
 * storage key the map is kept under.
 */
module Checklist {
  import opened Wrappers
  import opened Strings
  import opened Rounding

  datatype Item = Item(id: string, caption: string)  // `{ id, label }`

  /** `storageKey || "checklist:" + title.toLowerCase().replace(/\s+/g, "-")`. */
  function SafeKey(storageKey: Option<string>, title: string): (r: string)
    ensures storageKey.Some? && storageKey.value != "" ==> r == storageKey.value
    ensures !(storageKey.Some? && storageKey.value != "") ==>
      && "checklist:" <= r
      && forall i :: 10 <= i < |r| ==> !IsSpace(r[i])
  {
    if storageKey.Some? && storageKey.value != "" then storageKey.value
    else "checklist:" + ReplaceRuns(Lower(title), IsSpace, false)
  }

  /** Titles that differ only in the case of their ASCII letters share a default key. */
  lemma DefaultKeyIgnoresCase(title: string)
    ensures SafeKey(None, title) == SafeKey(None, Lower(title))
  {
    LowerIdempotent(title);
  }

  /** The default key keeps every character of the lower-cased title that is neither white space nor "-", in order. */
  lemma DefaultKeyKeepsTitle(title: string)
    ensures |SafeKey(None, title)| >= 10
    ensures Kept(SafeKey(None, title)[10..], IsSpace) == Kept(Lower(title), IsSpace)
  {
    var replaced := ReplaceRuns(Lower(title), IsSpace, false);
    assert SafeKey(None, title)[10..] == replaced;
    ReplaceRunsKeeps(Lower(title), IsSpace, false);
  }

  /**
   * Each white-space run between two words of the title becomes one "-":
   * the default key of "words, spaces, words" is the key of the first part,
   * a dash, and the second part's replacement.
   */
  lemma DefaultKeyJoinsWords(x: string, gap: string, y: string)
    requires x == [] || !IsSpace(x[|x| - 1])
    requires gap != [] && AllIn(gap, IsSpace)
    requires y == [] || !IsSpace(y[0])
    ensures SafeKey(None, x + gap + y) == SafeKey(None, x) + "-" + ReplaceRuns(Lower(y), IsSpace, false)
  {
    LowerAppend(x + gap, y);
    LowerAppend(x, gap);
    var lx, lg, ly := Lower(x), Lower(gap), Lower(y);
    assert lx == [] || !IsSpace(lx[|lx| - 1]);
    assert AllIn(lg, IsSpace);
    assert ly == [] || !IsSpace(ly[0]);
    MaximalRunOneDash(lx, lg, ly, IsSpace);
  }

  /** `!!checked[id]`: an absent id is not checked. */
  predicate IsChecked(checked: map<string, bool>, id: string) {
    id in checked && checked[id]
  }

  /** `items.reduce((acc, it) => checked[it.id] ? acc + 1 : acc, 0)`. */
  function DoneCount(items: seq<Item>, checked: map<string, bool>): (n: nat)
    ensures n <= |items|
    ensures n == |items| <==> forall i :: 0 <= i < |items| ==> IsChecked(checked, items[i].id)
    ensures n == 0 <==> forall i :: 0 <= i < |items| ==> !IsChecked(checked, items[i].id)
  {
    if items == [] then 0
    else
      var rest := DoneCount(items[1..], checked);
      assert forall i :: 1 <= i < |items| ==> items[i] == items[1..][i - 1];
      (if IsChecked(checked, items[0].id) then 1 else 0) + rest
  }

  /** `total > 0 ? Math.round(done / total * 100) : 0`. */
  function Pct(items: seq<Item>, checked: map<string, bool>): (pct: nat)
    ensures pct <= 100
    ensures items == [] ==> pct == 0
  {
    RoundPercentAtMost100(DoneCount(items, checked), |items|);
    RoundPercent(DoneCount(items, checked), |items|)
  }

  /** Ids in the map that belong to no item (stale entries) change neither count nor percentage. */
  lemma {:induction false} OnlyItemIdsMatter(items: seq<Item>, c1: map<string, bool>, c2: map<string, bool>)
    requires forall i :: 0 <= i < |items| ==> IsChecked(c1, items[i].id) == IsChecked(c2, items[i].id)
    ensures DoneCount(items, c1) == DoneCount(items, c2)
    ensures Pct(items, c1) == Pct(items, c2)
  {
    if items != [] {
      assert forall i :: 0 <= i < |items| - 1 ==> items[1..][i] == items[i + 1];
      OnlyItemIdsMatter(items[1..], c1, c2);
    }
  }

  /** For a list of fewer than 200 items, the percentage is 100 exactly when every item is checked. */
  lemma PctFullIffAllChecked(items: seq<Item>, checked: map<string, bool>)
    requires 0 < |items| < 200
    ensures Pct(items, checked) == 100 <==> forall i :: 0 <= i < |items| ==> IsChecked(checked, items[i].id)
  {
    RoundPercentFull(DoneCount(items, checked), |items|);
  }

  /** `{ ...prev, [id]: !prev[id] }`. */
  function Toggled(checked: map<string, bool>, id: string): (r: map<string, bool>)
    ensures IsChecked(r, id) == !IsChecked(checked, id)
    ensures forall x :: x != id ==> (x in r <==> x in checked) && (x in r ==> r[x] == checked[x])
  {
    checked[id := !IsChecked(checked, id)]
  }

  /** Toggling an id twice gives back its checked state, and every other id's. */
  lemma ToggleTwice(checked: map<string, bool>, id: string)
    ensures forall x :: IsChecked(Toggled(Toggled(checked, id), id), x) == IsChecked(checked, x)
  {
  }

  /** A rendered checklist: its items, its storage key and the `checked` state. */
  class ChecklistState {
    const items: seq<Item>
    const key: string
    var checked: map<string, bool>

    /**
     * Mounting with the map read back from storage under the key; a `title`
     * or `items` prop left undefined (None) takes its default, "Checklist" or [].
     */
    constructor (title: Option<string>, items: Option<seq<Item>>, storageKey: Option<string>, stored: map<string, bool>)
      ensures this.items == (if items.Some? then items.value else [])
      ensures key == SafeKey(storageKey, if title.Some? then title.value else "Checklist")
      ensures checked == stored
    {
      this.items := if items.Some? then items.value else [];
      key := SafeKey(storageKey, if title.Some? then title.value else "Checklist");
      checked := stored;
    }

    function Done(): nat
      reads this
    {
      DoneCount(items, checked)
    }

    function Percent(): nat
      reads this
    {
      Pct(items, checked)
    }

    /** `toggle(id)`. */
    method Toggle(id: string)
      modifies this
      ensures checked == Toggled(old(checked), id)
      ensures IsChecked(checked, id) == !old(IsChecked(checked, id))
    {
      checked := Toggled(checked, id);
    }

    /** `reset()`: nothing checked. */
    method Reset()
      modifies this
      ensures checked == map[]
      ensures Done() == 0 && Percent() == 0
    {
      checked := map[];
      assert DoneCount(items, checked) == 0;
      RoundPercentZero(|items|);
    }
  }
}
