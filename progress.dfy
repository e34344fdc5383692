/**
 * The Starter Path progress store (src/lib/progress.js): a map from guide
 * slug to a done flag kept in local storage, and the queries over the fixed
 * five-step path.
 */
module Progress {
  import opened Wrappers
  import opened Rounding

  /** The five guides of the Starter Path, in path order. */
  const STARTER_SLUGS: seq<string> := [
    "choose-your-side-hustle",
    "first-action-plan",
    "budgeting-setup",
    "brand-basics",
    "launch-your-first-page"
  ]

  /** What local storage holds under the progress key. */
  datatype Storage =
    | Unavailable                       // no localStorage, or using it throws
    | Missing                           // no entry under the key
    | Corrupt                           // text JSON.parse rejects, or a falsy value
    | Scalar                            // a truthy number, string or `true`
    | List                              // an array
    | Stored(flags: map<string, bool>)  // a parsed object; each value stands for its truthiness

  /**
   * `p[slug] = !!value` followed by `saveProgress(p)` records the flag:
   * the loaded value is an object and the write reaches local storage.
   */
  predicate Writable(st: Storage) {
    st.Missing? || st.Corrupt? || st.Stored?
  }

  /** `loadProgress`: anything but a stored object reads as the empty map. */
  function Load(st: Storage): (p: map<string, bool>)
    ensures st.Stored? ==> p == st.flags
    ensures !st.Stored? ==> p == map[]
  {
    if st.Stored? then st.flags else map[]
  }

  /** `!!p[slug]`: an absent key is not done. */
  predicate DoneIn(p: map<string, bool>, slug: string) {
    slug in p && p[slug]
  }

  /** `slugs.find(s => !p[s])`. */
  function FirstUndone(p: map<string, bool>, slugs: seq<string>): (r: Option<string>)
    ensures r.None? <==> forall i :: 0 <= i < |slugs| ==> DoneIn(p, slugs[i])
    ensures r.Some? ==> exists i :: 0 <= i < |slugs| && slugs[i] == r.value && !DoneIn(p, slugs[i])
                                    && forall j :: 0 <= j < i ==> DoneIn(p, slugs[j])
  {
    if slugs == [] then None
    else if !DoneIn(p, slugs[0]) then Some(slugs[0])
    else
      var r := FirstUndone(p, slugs[1..]);
      assert r.Some? ==> exists i :: 0 <= i < |slugs| && slugs[i] == r.value && !DoneIn(p, slugs[i])
                                     && forall j :: 0 <= j < i ==> DoneIn(p, slugs[j]) by {
        if r.Some? {
          var i :| 0 <= i < |slugs| - 1 && slugs[1..][i] == r.value && !DoneIn(p, slugs[1..][i])
                   && forall j :: 0 <= j < i ==> DoneIn(p, slugs[1..][j]);
          assert forall j :: 0 <= j < i + 1 ==> DoneIn(p, slugs[j]) by {
            forall j | 0 < j < i + 1 ensures DoneIn(p, slugs[j]) {
              assert slugs[j] == slugs[1..][j - 1];
            }
          }
        }
      }
      r
  }

  /** `slugs.filter(s => p[s]).length`. */
  function CountDone(p: map<string, bool>, slugs: seq<string>): (n: nat)
    ensures n <= |slugs|
    ensures n == |slugs| <==> forall i :: 0 <= i < |slugs| ==> DoneIn(p, slugs[i])
  {
    if slugs == [] then 0
    else
      var n := (if DoneIn(p, slugs[0]) then 1 else 0) + CountDone(p, slugs[1..]);
      assert (forall i :: 0 <= i < |slugs| ==> DoneIn(p, slugs[i])) <==>
             DoneIn(p, slugs[0]) && forall i :: 0 <= i < |slugs| - 1 ==> DoneIn(p, slugs[1..][i]) by {
        if forall i :: 0 <= i < |slugs| - 1 ==> DoneIn(p, slugs[1..][i]) {
          forall i | 0 < i < |slugs| ensures DoneIn(p, slugs[i]) {
            assert slugs[i] == slugs[1..][i - 1];
          }
        }
      }
      n
  }

  /** `nextIncomplete()`. */
  function NextIncomplete(p: map<string, bool>): (r: Option<string>)
    ensures r.None? <==> forall s :: s in STARTER_SLUGS ==> DoneIn(p, s)
    ensures r.Some? ==> r.value in STARTER_SLUGS && !DoneIn(p, r.value)
  {
    FirstUndone(p, STARTER_SLUGS)
  }

  /** `percentComplete()`: Math.round(done / 5 * 100), 0 for an empty path. */
  function PercentComplete(p: map<string, bool>): (r: nat)
    ensures r <= 100
  {
    RoundPercentAtMost100(CountDone(p, STARTER_SLUGS), |STARTER_SLUGS|);
    RoundPercent(CountDone(p, STARTER_SLUGS), |STARTER_SLUGS|)
  }

  /** `isComplete()`. */
  predicate IsComplete(p: map<string, bool>) {
    PercentComplete(p) >= 100
  }

  /** The percentage is 20 per done step, so it lies in 0..100. */
  lemma PercentIsTwentyPerStep(p: map<string, bool>)
    ensures PercentComplete(p) == 20 * CountDone(p, STARTER_SLUGS)
    ensures 0 <= PercentComplete(p) <= 100
  {
    var d := CountDone(p, STARTER_SLUGS);
    DivUnique(200 * d + 5, 10, 20 * d);
  }

  /** "Complete", "100 percent" and "no next step" are one condition. */
  lemma CompleteIffFullIffNoNext(p: map<string, bool>)
    ensures IsComplete(p) <==> PercentComplete(p) == 100
    ensures IsComplete(p) <==> NextIncomplete(p).None?
  {
    RoundPercentFull(CountDone(p, STARTER_SLUGS), |STARTER_SLUGS|);
  }

  lemma {:induction false} CountDoneMonotone(p: map<string, bool>, slug: string, slugs: seq<string>)
    ensures CountDone(p, slugs) <= CountDone(p[slug := true], slugs)
  {
    if slugs != [] {
      CountDoneMonotone(p, slug, slugs[1..]);
    }
  }

  /** Marking one step done never lowers the percentage. */
  lemma PercentMonotone(p: map<string, bool>, slug: string)
    ensures PercentComplete(p) <= PercentComplete(p[slug := true])
  {
    CountDoneMonotone(p, slug, STARTER_SLUGS);
    RoundPercentMonotone(CountDone(p, STARTER_SLUGS), CountDone(p[slug := true], STARTER_SLUGS), 5);
  }

  lemma {:induction false} AgreeingMapsCountAlike(p: map<string, bool>, q: map<string, bool>, slugs: seq<string>)
    requires forall i :: 0 <= i < |slugs| ==> DoneIn(p, slugs[i]) == DoneIn(q, slugs[i])
    ensures CountDone(p, slugs) == CountDone(q, slugs)
    ensures FirstUndone(p, slugs) == FirstUndone(q, slugs)
  {
    if slugs != [] {
      assert forall i :: 0 <= i < |slugs| - 1 ==> slugs[1..][i] == slugs[i + 1];
      AgreeingMapsCountAlike(p, q, slugs[1..]);
    }
  }

  /** Keys outside the Starter Path affect neither the percentage nor the next step. */
  lemma OnlyStarterKeysMatter(p: map<string, bool>, q: map<string, bool>)
    requires forall s :: s in STARTER_SLUGS ==> DoneIn(p, s) == DoneIn(q, s)
    ensures PercentComplete(p) == PercentComplete(q)
    ensures NextIncomplete(p) == NextIncomplete(q)
  {
    AgreeingMapsCountAlike(p, q, STARTER_SLUGS);
  }

  /** The empty store: nothing done, 0 percent, the first guide is next. */
  lemma EmptyProgress()
    ensures PercentComplete(map[]) == 0
    ensures NextIncomplete(map[]) == Some(STARTER_SLUGS[0])
    ensures !IsComplete(map[])
  {
  }

  /** The slugs are pairwise different (their lengths already differ). */
  lemma StarterSlugsDistinct()
    ensures forall i, j :: 0 <= i < j < |STARTER_SLUGS| ==> STARTER_SLUGS[i] != STARTER_SLUGS[j]
  {
    var s := STARTER_SLUGS;
    assert |s[0]| == 23 && |s[1]| == 17 && |s[2]| == 15 && |s[3]| == 12 && |s[4]| == 22;
  }

  /** The store: the storage cell and the operations that read and overwrite it. */
  class ProgressStore {
    var storage: Storage

    constructor (initial: Storage)
      ensures storage == initial
    {
      storage := initial;
    }

    function Flags(): map<string, bool>
      reads this
    {
      Load(storage)
    }

    /** `isDone(slug)`. */
    predicate IsDone(slug: string)
      reads this
    {
      DoneIn(Flags(), slug)
    }

    /**
     * `setDone(slug, value)`: load, set one key, write the whole map back.
     * On a primitive the assignment throws (module code is strict), which
     * `threw` reports; on an array the named key is dropped by
     * JSON.stringify; without local storage nothing is written.
     */
    method SetDone(slug: string, value: bool) returns (threw: bool)
      modifies this
      ensures threw <==> old(storage).Scalar?
      ensures Writable(old(storage)) ==> storage == Stored(old(Flags())[slug := value])
      ensures !Writable(old(storage)) ==> storage == old(storage)
      ensures IsDone(slug) == if Writable(old(storage)) then value else old(IsDone(slug))
      ensures forall t :: t != slug ==> IsDone(t) == old(IsDone(t))
    {
      threw := false;
      match storage
      case Scalar =>
        threw := true;
      case List =>
      case Unavailable =>
      case _ =>
        var p := Load(storage);
        p := p[slug := value];
        storage := Stored(p);
    }

    /** `resetProgress()`: overwrite the store with the empty object, where there is local storage. */
    method ResetProgress()
      modifies this
      ensures storage == if old(storage).Unavailable? then Unavailable else Stored(map[])
      ensures PercentComplete(Flags()) == 0
      ensures NextIncomplete(Flags()) == Some(STARTER_SLUGS[0])
      ensures forall t :: !IsDone(t)
    {
      if !storage.Unavailable? {
        storage := Stored(map[]);
      }
      EmptyProgress();
    }

    /** `setDone(slug)` with its default value `true`: never lowers the percentage. */
    method MarkDone(slug: string) returns (threw: bool)
      modifies this
      ensures threw <==> old(storage).Scalar?
      ensures Writable(old(storage)) ==> storage == Stored(old(Flags())[slug := true])
      ensures !Writable(old(storage)) ==> storage == old(storage)
      ensures PercentComplete(Flags()) >= old(PercentComplete(Flags()))
    {
      PercentMonotone(Flags(), slug);
      threw := SetDone(slug, true);
    }
  }
}
