/**
 * The app-wide completion toast (src/components/GlobalProgressEffects.jsx):
 * a check that runs at mount and on every progress update, and opens the
 * toast only when the path goes from not complete to complete.
 */
module ProgressEffects {

  /** `wasCompleteRef.current` and `open`. */
  datatype ToastState = ToastState(wasComplete: bool, open: bool)

  /** One run of `check` with the completeness it reads. */
  function Checked(s: ToastState, nowComplete: bool): (t: ToastState)
    ensures t.wasComplete == nowComplete
    ensures t.open <==> s.open || (!s.wasComplete && nowComplete)
  {
    ToastState(nowComplete, if !s.wasComplete && nowComplete then true else s.open)
  }

  /** The reading `check` compared against: the starting flag, then each earlier reading. */
  function Before(was: bool, readings: seq<bool>, i: nat): bool
    requires i < |readings|
  {
    if i == 0 then was else readings[i - 1]
  }

  /** A sequence of checks, oldest reading first. */
  function Run(s: ToastState, readings: seq<bool>): (t: ToastState)
    ensures readings != [] ==> t.wasComplete == readings[|readings| - 1]
    ensures readings == [] ==> t == s
  {
    if readings == [] then s else Checked(Run(s, readings[..|readings| - 1]), readings[|readings| - 1])
  }

  /** After a run of checks on a closed toast, it is open iff some reading was a not-complete to complete edge. */
  lemma {:induction false} RunOpensOnRisingEdge(was: bool, readings: seq<bool>)
    ensures Run(ToastState(was, false), readings).open <==>
            exists i :: 0 <= i < |readings| && !Before(was, readings, i) && readings[i]
  {
    if readings != [] {
      var init := readings[..|readings| - 1];
      RunOpensOnRisingEdge(was, init);
      forall i | 0 <= i < |init| ensures Before(was, init, i) == Before(was, readings, i) && init[i] == readings[i] {
      }
      if |readings| > 1 {
        assert Run(ToastState(was, false), init).wasComplete == init[|init| - 1];
      }
      var n := |readings| - 1;
      assert Run(ToastState(was, false), init).wasComplete == Before(was, readings, n);
    }
  }

  /** Mounting when the path is already complete: the first check does not open the toast. */
  lemma MountWhenComplete()
    ensures !Checked(ToastState(true, false), true).open
  {
  }

  /** Staying complete never re-opens a closed toast; leaving completion and completing again does. */
  lemma StayingAndReturning()
    ensures !Checked(ToastState(true, false), true).open
    ensures Checked(Checked(ToastState(true, false), false), true).open
  {
  }

  /** The mounted component. */
  class Effects {
    var wasComplete: bool
    var open: bool

    /** `useState(false)` and `useRef(isComplete())`. */
    constructor (completeAtMount: bool)
      ensures wasComplete == completeAtMount && !open
    {
      wasComplete := completeAtMount;
      open := false;
    }

    function State(): ToastState
      reads this
    {
      ToastState(wasComplete, open)
    }

    /** `check`: open on the rising edge, then remember the reading. */
    method Check(nowComplete: bool)
      modifies this
      ensures State() == Checked(old(State()), nowComplete)
    {
      if !wasComplete && nowComplete {
        open := true;
      }
      wasComplete := nowComplete;
    }

    /** The toast's `onClose`. */
    method Close()
      modifies this
      ensures !open && wasComplete == old(wasComplete)
    {
      open := false;
    }
  }
}
