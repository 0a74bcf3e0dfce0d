/**
 * The parts of the player state machine (package `com.tubitv.media.fsm`) that the
 * cue-point monitor and the `ReceiveAdState` transition touch. The machine itself is
 * not part of this model: it is seen only through the inputs it accepts, the tags of
 * the states its factory builds, and a recorded trace of the calls made on it.
 */
module Fsm {

  /** The inputs of the state machine. The two that the modelled code names are listed;
      every other value of the enumeration is `OtherInput`. */
  datatype Input = MAKE_AD_CALL | SHOW_ADS | OtherInput(name: string)

  /** The state classes a state factory can be asked for. */
  datatype StateKind = AdPlayingState | ReceiveAdState | OtherState(name: string)

  /** One call made on the player by the cue-point monitor. */
  datatype Call = UpdateCuePointForRetriever(cuePoint: int) | Transit(input: Input)

  /** Number of `transit(input)` calls in a trace. */
  function CountTransits(calls: seq<Call>, input: Input): nat
  {
    if calls == [] then 0
    else (if calls[0] == Transit(input) then 1 else 0) + CountTransits(calls[1..], input)
  }

  lemma {:induction false} CountTransitsAppend(a: seq<Call>, b: seq<Call>, input: Input)
    ensures CountTransits(a + b, input) == CountTransits(a, input) + CountTransits(b, input)
  {
    if a == [] {
      assert a + b == b;
    } else {
      assert (a + b)[0] == a[0] && (a + b)[1..] == a[1..] + b;
      CountTransitsAppend(a[1..], b, input);
    }
  }

  /**
   * Stand-in for `FsmPlayer`: whether its current state is an `AdPlayingState`, and the
   * calls it has received so far, in order.
   */
  class FsmPlayer {
    var adPlaying: bool
    var calls: seq<Call>

    constructor (adPlaying: bool)
      ensures this.adPlaying == adPlaying && calls == []
    {
      this.adPlaying := adPlaying;
      calls := [];
    }

    method Transit(input: Input)
      modifies this
      ensures calls == old(calls) + [Call.Transit(input)]
      ensures adPlaying == old(adPlaying)
    {
      calls := calls + [Call.Transit(input)];
    }

    method UpdateCuePointForRetriever(cuePoint: int)
      modifies this
      ensures calls == old(calls) + [Call.UpdateCuePointForRetriever(cuePoint)]
      ensures adPlaying == old(adPlaying)
    {
      calls := calls + [Call.UpdateCuePointForRetriever(cuePoint)];
    }
  }
}
