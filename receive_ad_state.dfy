/**
 * The state `ReceiveAdState` of the player state machine: ad metadata has arrived and
 * the player waits for the cue point to show the ads.
 */
module ReceiveAdState {
  import opened Wrappers
  import opened Fsm

  /**
   * `transformToState`: `SHOW_ADS` leads to a fresh `AdPlayingState` built by the
   * factory; every other input has no transition (`null` in the source, `None` here).
   */
  function TransformToState<S>(input: Input, factory: StateKind -> S): (r: Option<S>)
    ensures r.Some? <==> input == SHOW_ADS
    ensures r.Some? ==> r.value == factory(AdPlayingState)
  {
    match input
    case SHOW_ADS => Some(factory(AdPlayingState))
    case _ => None
  }

  /** The transition consults the factory only for the `AdPlayingState` tag, so two
      factories that agree there give the same result on every input. */
  lemma TransformDependsOnlyOnAdPlayingFactory<S>(input: Input, f: StateKind -> S, g: StateKind -> S)
    requires f(AdPlayingState) == g(AdPlayingState)
    ensures TransformToState(input, f) == TransformToState(input, g)
  {
  }

  /** `updatePlayerUI` does nothing: the controller's state is returned as it was, for
      every movie and (possibly absent) ad media. */
  function UpdatePlayerUI<C, M>(controller: C, movieMedia: M, adMedia: Option<M>): (r: C)
    ensures r == controller
  {
    controller
  }
}
