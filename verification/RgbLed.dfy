/** rgb_led_test.c as it runs: one prompt event at most, then quiet. */
module RgbLed {
  import opened Options
  import D = RequestDocuments
  import S = SessionModel
  import Q = ComponentBench

  datatype State = ColourReady | PromptSent | LedFailed

  class RgbLedTest {
    var state: State
    var hardwareReady: bool
    var transmissionFailed: bool
    /** The colours sent to the LED so far. */
    ghost var shown: seq<D.Colour>

    constructor ()
    {
      state, hardwareReady, transmissionFailed, shown := LedFailed, false, true, [];
    }

    ghost function View(): Q.Led
      reads this
    {
      if transmissionFailed || state == LedFailed then Q.Broken
      else if state == ColourReady then Q.ColourReady
      else Q.Active
    }

    /** `initializes` and `transmits` are the hardware's answers. */
    method Start(parameters: Option<D.Colour>, initializes: bool, transmits: bool)
      modifies this
      ensures View() == if parameters.Some? && initializes && transmits then Q.ColourReady else Q.Broken
      ensures hardwareReady == (parameters.Some? && initializes)
      ensures shown == old(shown) + (if parameters.Some? && initializes && transmits then [parameters.value] else [])
    {
      hardwareReady := false;
      transmissionFailed := parameters.None?;
      if transmissionFailed {
        state := LedFailed;
        return;
      }
      hardwareReady := initializes;
      transmissionFailed := !hardwareReady || !transmits;
      if !transmissionFailed {
        shown := shown + [parameters.value];
      }
      state := if transmissionFailed then LedFailed else ColourReady;
    }

    method Process() returns (outcome: S.Outcome)
      modifies this`state
      ensures (View(), outcome) == Q.LedProcess(old(View()))
    {
      if transmissionFailed || state == LedFailed {
        return S.Fails;
      }
      if state == ColourReady {
        state := PromptSent;
        return S.Emits(Q.PROMPT);
      }
      outcome := S.Busy;
    }

    /** The LED is blanked if it was ever driven. */
    method Stop(transmits: bool)
      modifies this`shown
      ensures shown == old(shown) + (if hardwareReady && transmits then [D.Colour(0, 0, 0)] else [])
    {
      if !hardwareReady {
        return;
      }
      if transmits {
        shown := shown + [D.Colour(0, 0, 0)];
      }
    }
  }

  /** The outcomes of successive process calls. */
  function Outcomes(led: Q.Led, n: nat): seq<S.Outcome>
    decreases n
  {
    if n == 0 then []
    else
      var (next, outcome) := Q.LedProcess(led);
      [outcome] + Outcomes(next, n - 1)
  }

  /** A started LED test reports its prompt once, first, and then nothing, however often it is
      called; a failed one fails at its first call. */
  lemma {:induction false} OneEventThenQuiet(n: nat, i: nat)
    requires i < n
    ensures |Outcomes(Q.ColourReady, n)| == n == |Outcomes(Q.Active, n)| == |Outcomes(Q.Broken, n)|
    ensures Outcomes(Q.ColourReady, n)[i] == if i == 0 then S.Emits(Q.PROMPT) else S.Busy
    ensures Outcomes(Q.Active, n)[i] == S.Busy && Outcomes(Q.Broken, n)[i] == S.Fails
    decreases n
  {
    if n == 1 {
      assert Outcomes(Q.Active, 0) == [] && Outcomes(Q.Broken, 0) == [];
    } else if i == 0 {
      OneEventThenQuiet(n - 1, 0);
    } else {
      OneEventThenQuiet(n - 1, i - 1);
    }
  }
}
