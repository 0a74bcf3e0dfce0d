# Cue-point scheduling of the TubiPlayer ad logic, in Dafny

This project models the part of the TubiPlayer Android library that decides when to
fetch and when to show ad breaks during content playback.

- `CuePointMonitor` gets a steady stream of playback-progress reports. It holds the
  cue points (the timestamps where an ad break starts) and, for each one, an ad-call
  point. The ad-call point is the cue point minus the networking lookahead, floored at 0.
- A report within `RANGE_FACTOR` = 1500 ms of an ad-call point makes the monitor call
  `updateCuePointForRetriever(cue)` and then `transit(MAKE_AD_CALL)` on the player
  state machine.
- A report within 1500 ms of a cue point makes it call `transit(SHOW_ADS)`.
- Each table has its own latch (`safeCheckForAdcall`, `safeCheckForCue`). A signal
  fires once per stay inside the windows. The latch is re-armed only by a report outside
  every window of its table.
- Windows are found with a binary search that matches within a tolerance.
- `ReceiveAdState` is the state that waits for the ads to be shown. It moves to a
  factory-built `AdPlayingState` on `SHOW_ADS` and has no transition for any other input.

Modules:

- `Wrappers`: `Option`. It stands for Java `null`.
- `Fsm`: the machine's inputs and state tags.
  - `FsmPlayer` stands in for the real player. It has an "ad is playing" flag and the
    recorded trace of calls made on it.
  - The Java enum `Input` is not part of this model. The two inputs the code names are
    constructors; every other value is `OtherInput`.
- `ReceiveAdState`: the transition function and the UI hook, as pure functions.
- `RangeSearch`: the windowed binary search, as a loop (`BinarySearchWithRange`)
  proved equal to a recursive reference function `Search` (with its step `Probe`). The search facts are proved
  as lemmas about `Search`.
- `CueTables`: the derived ad-call table and the removal of one element.
- `MonitorModel`: the monitor's fields as a value, `Monitor`. Each operation is a
  function from the old state to the new state and the calls made on the player. The
  debounce and scheduling properties are proved here, including over whole runs of
  progress reports.
- `Listener`: the class `CuePointMonitor` with the source's fields. The tables are
  `array?<int>`. Every method that changes the monitor's state is proved to change
  `Model()` and the player's trace exactly as its `MonitorModel` function says.
  `GetAddCallPoints` changes no field and is proved to return a fresh array equal to
  `CueTables.AdCallTable`. `RemoveElementFromArray`, the source's static helper, is a
  module-level method proved to return a fresh array equal to `CueTables.RemoveElement`.

Cue tables are assumed to be sorted, the way the source assumes it. The search and
debounce lemmas take `Sorted` as a hypothesis. No method checks or demands it.

## Model

| member | source | states |
|---|---|---|
| RangeSearch.Search | lib/src/main/java/com/tubitv/media/fsm/listener/CuePointMonitor.java:200-217 | definition of the reference search, the loop `while (low <= high)` unrolled as a recursion: an empty interval gives `-(low + 1)`, otherwise `Probe` at `(low + high) / 2`. Its properties are stated by `SearchBounds`, `SearchMissSplits` and `SearchHitIff` |
| RangeSearch.Probe | lib/src/main/java/com/tubitv/media/fsm/listener/CuePointMonitor.java:205-214 | definition of one loop step at `mid`: continue right when `a[mid] + range < key`, left when `a[mid] - range > key`, otherwise the result is `mid` |
| RangeSearch.SearchBounds | lib/src/main/java/com/tubitv/media/fsm/listener/CuePointMonitor.java:200-217 | the reference search `Search` (a loop-free recursion mirroring the loop): a non-negative result is an index in `low..high` whose value is within `range` of the key; a negative result encodes an insertion point in `low..high+1` |
| RangeSearch.SearchMissBelowEdge | lib/src/main/java/com/tubitv/media/fsm/listener/CuePointMonitor.java:200-216 | after a miss, the insertion point is `low` or the element just before it is more than `range` below the key |
| RangeSearch.SearchMissAboveEdge | lib/src/main/java/com/tubitv/media/fsm/listener/CuePointMonitor.java:200-216 | after a miss, the insertion point is `high+1` or the element at it is more than `range` above the key |
| RangeSearch.SearchMissSplits | lib/src/main/java/com/tubitv/media/fsm/listener/CuePointMonitor.java:200-216 | on a sorted interval a miss splits it at the insertion point. Every element before it is more than `range` below the key; every element from it on is more than `range` above it |
| RangeSearch.SearchHitIff | lib/src/main/java/com/tubitv/media/fsm/listener/CuePointMonitor.java:200-216 | on a sorted interval the search hits exactly when some element lies within `range` of the key |
| RangeSearch.ProveSearchFacts | lib/src/main/java/com/tubitv/media/fsm/listener/CuePointMonitor.java:200-216 | for `a[fromIndex..toIndex)`: a hit lies in the interval and in the window, a miss gives an insertion point in `fromIndex..toIndex`; when sorted, also the hit-iff-match fact and the split of the interval around the insertion point on a miss |
| RangeSearch.BinarySearchWithRange | lib/src/main/java/com/tubitv/media/fsm/listener/CuePointMonitor.java:200-217 | the loop returns what `Search` returns. A hit lies in `[fromIndex, toIndex)` with `a[r] - range <= key <= a[r] + range`. A miss gives `fromIndex <= -(r+1) <= toIndex`. On a sorted interval: a hit iff some element is in the window; after a miss no element is in it, and `-(r+1)` separates the lower elements from the higher ones |
| RangeSearch.BinarySerchWithRange | lib/src/main/java/com/tubitv/media/fsm/listener/CuePointMonitor.java:191-193 | the 1500 ms window search over the whole array: a hit is an index within the window; on a sorted array it hits iff some element is in the window |
| RangeSearch.BinarySerchExactly | lib/src/main/java/com/tubitv/media/fsm/listener/CuePointMonitor.java:195-197 | with a zero window a hit holds the key exactly. On a sorted array a miss means the key does not occur, and `-(r+1)` is its insertion point |
| CueTables.AdCallTable | lib/src/main/java/com/tubitv/media/fsm/listener/CuePointMonitor.java:225-234 | definition of `getAddCallPoints`: entry `i` is `cue[i] - ahead` when positive, else 0. Its properties are stated by `AdCallTableProperties` |
| CueTables.Without | lib/src/main/java/com/tubitv/media/fsm/listener/CuePointMonitor.java:95-111 | definition of the copy loop's result: the element at `keyPos` dropped, or the last element when `keyPos` is past the end. Its properties are stated by `WithoutRemovesOne` and `WithoutKeepsSorted` |
| CueTables.RemoveElement | lib/src/main/java/com/tubitv/media/fsm/listener/CuePointMonitor.java:89-112 | definition of `removeElementFromArray`: `null` for a `null` array, a negative position or length at most 1, otherwise `Without`. Its cases are stated by `RemoveElementCases` |
| CueTables.AdCallTableProperties | lib/src/main/java/com/tubitv/media/fsm/listener/CuePointMonitor.java:225-234 | the derived table has the same length. Entry `i` is `cue[i] - ahead` or 0, whichever is larger. It is at most `cue[i]` when `cue[i] >= 0` and `ahead >= 0`. A sorted cue table gives a sorted derived table |
| CueTables.WithoutRemovesOne | lib/src/main/java/com/tubitv/media/fsm/listener/CuePointMonitor.java:95-111 | for an in-range position, the copy loop's result is one shorter. It agrees with the input before the position and is shifted by one after it. As a multiset it lost exactly the removed element |
| CueTables.WithoutKeepsSorted | lib/src/main/java/com/tubitv/media/fsm/listener/CuePointMonitor.java:95-111 | removing an element keeps a sorted table sorted |
| CueTables.RemoveElementCases | lib/src/main/java/com/tubitv/media/fsm/listener/CuePointMonitor.java:89-112 | the result is `null` exactly for a `null` array, `keyPos < 0` or length at most 1. Otherwise it has length `n-1`, and for `keyPos < n` it is `a[..keyPos] + a[keyPos+1..]` |
| Listener.RemoveElementFromArray | lib/src/main/java/com/tubitv/media/fsm/listener/CuePointMonitor.java:89-112 | the loop with its moving `tempPos` returns a fresh array holding `RemoveElement` of the input, or `null` in the three rejected cases |
| MonitorModel.IsProgressActionable | lib/src/main/java/com/tubitv/media/fsm/listener/CuePointMonitor.java:171-186 | `isProgressActionable` on a table's contents: an acting result records an index of the table whose window holds the progress; a non-acting one records -1 (an absent or empty table never acts) |
| MonitorModel.ActionableIff | lib/src/main/java/com/tubitv/media/fsm/listener/CuePointMonitor.java:171-186 | on a sorted table the lookup acts exactly when the progress is in some window |
| MonitorModel.SetQuePoints | lib/src/main/java/com/tubitv/media/fsm/listener/CuePointMonitor.java:49-61 | the new state after `setQuePoints`, as a function of the old state. Its properties are stated by `SetQuePointsFacts` |
| MonitorModel.RemoteShowedCuePoints | lib/src/main/java/com/tubitv/media/fsm/listener/CuePointMonitor.java:69-86 | the new state after `remoteShowedCuePoints`, with the source's branches. Its properties are stated by `RemoteShowedCuePointsFacts` |
| MonitorModel.PreformAdCallIfNecessary | lib/src/main/java/com/tubitv/media/fsm/listener/CuePointMonitor.java:144-162 | the new state and the player calls of `preformAdCallIfNecessary`, with the source's branches. It makes one lookup, standing for the source's two identical lookups (same table, same progress, same index written). Its properties are stated by `AdCallDebounce` |
| MonitorModel.PreformShowAdIfNecessary | lib/src/main/java/com/tubitv/media/fsm/listener/CuePointMonitor.java:133-142 | the new state and the player calls of `preformShowAdIfNecessary`. Its properties are stated by `ShowAdDebounce` |
| MonitorModel.OnMovieProgress | lib/src/main/java/com/tubitv/media/fsm/listener/CuePointMonitor.java:120-131 | the new state and the player calls of `onMovieProgress`: nothing while an ad plays, else the ad-call check then the show-ad check. Its properties are stated by `StepKeepsTables` and `StepCounts` |
| MonitorModel.Run | lib/src/main/java/com/tubitv/media/fsm/listener/CuePointMonitor.java:120-131 | a sequence of progress reports delivered to `onMovieProgress` one after another; the calls are concatenated in order. Its properties are stated by `RunKeepsTables`, the dwell lemmas, `RearmAfterLeavingWindows` and `NoTableNoSignal` |
| MonitorModel.SetQuePointsFacts | lib/src/main/java/com/tubitv/media/fsm/listener/CuePointMonitor.java:49-61 | the matched index becomes -1 and the latches are untouched. The cue table becomes the argument (absent for `null`) and the ad-call table its derived table. A sorted argument gives sorted tables |
| MonitorModel.RemoteShowedCuePointsFacts | lib/src/main/java/com/tubitv/media/fsm/listener/CuePointMonitor.java:69-86 | nothing changes for an absent or empty table, or when no index is matched. A one-element table becomes absent. Otherwise the matched cue point is removed, the table shrinks by one and the index is reset. Consistency, sortedness and the latches are kept |
| MonitorModel.AdCallDebounce | lib/src/main/java/com/tubitv/media/fsm/listener/CuePointMonitor.java:144-162 | the ad-call check fires exactly when its latch is armed and the progress is in an ad-call window. It emits `updateCuePointForRetriever(cuePoints[i])`, where `i` is the index the search recorded and its ad-call point's window holds the progress, then `MAKE_AD_CALL`. The latch is then armed exactly when the progress was outside every window. The other latch and the tables are untouched |
| MonitorModel.ShowAdDebounce | lib/src/main/java/com/tubitv/media/fsm/listener/CuePointMonitor.java:133-142 | the show-ad check emits `SHOW_ADS` exactly when its latch is armed and the progress is in a cue window. The latch is then armed exactly when the progress was outside every cue window |
| MonitorModel.StepKeepsTables | lib/src/main/java/com/tubitv/media/fsm/listener/CuePointMonitor.java:120-131 | while an ad plays, a progress report changes nothing and calls nothing. No report changes the tables, and consistency is kept |
| MonitorModel.StepCounts | lib/src/main/java/com/tubitv/media/fsm/listener/CuePointMonitor.java:120-162 | per report: one `MAKE_AD_CALL` iff content plays, the ad-call latch is armed and the progress is in an ad-call window; likewise for `SHOW_ADS` and the cue table. The new latches are as above. While content plays, the calls are exactly the ad-call check's `updateCuePointForRetriever(cue)` and `MAKE_AD_CALL` followed by the show-ad check's `SHOW_ADS`, each present only when its check fires |
| MonitorModel.RunKeepsTables | lib/src/main/java/com/tubitv/media/fsm/listener/CuePointMonitor.java:120-131 | any sequence of progress reports leaves both tables as they were |
| MonitorModel.AdCallOncePerDwell | lib/src/main/java/com/tubitv/media/fsm/listener/CuePointMonitor.java:144-162 | over reports that all stay inside ad-call windows (or come while an ad plays), at most one `MAKE_AD_CALL` is issued; none if the latch starts disarmed. Exactly one is issued if it starts armed and some report is content progress |
| MonitorModel.ShowAdOncePerDwell | lib/src/main/java/com/tubitv/media/fsm/listener/CuePointMonitor.java:133-142 | the same for `SHOW_ADS` over reports inside cue windows |
| MonitorModel.RearmAfterLeavingWindows | lib/src/main/java/com/tubitv/media/fsm/listener/CuePointMonitor.java:133-162 | a content report outside every window of a table, then one inside a window of it, fires that table's signal once, whatever the latches were before |
| MonitorModel.NoTableNoSignal | lib/src/main/java/com/tubitv/media/fsm/listener/CuePointMonitor.java:171-175 | with an absent or empty cue table, no sequence of reports ever makes a call on the player |
| MonitorModel.SingleCueScenario | lib/src/main/java/com/tubitv/media/fsm/listener/CuePointMonitor.java:120-162 | cue points [10000] with a 2000 ms lookahead. Reports at 8200, 10100, 10200 and 10400 make exactly the calls `updateCuePointForRetriever(10000)`, `MAKE_AD_CALL`, `SHOW_ADS` |
| Listener.CuePointMonitor.constructor | lib/src/main/java/com/tubitv/media/fsm/listener/CuePointMonitor.java:30-47 | both latches armed, no tables, matched index -1 |
| Listener.CuePointMonitor.SetQuePoints | lib/src/main/java/com/tubitv/media/fsm/listener/CuePointMonitor.java:49-61 | the fields become `MonitorModel.SetQuePoints` of the old fields. The cue field is the argument array itself; the ad-call field is a fresh array |
| Listener.CuePointMonitor.GetAddCallPoints | lib/src/main/java/com/tubitv/media/fsm/listener/CuePointMonitor.java:225-234 | a fresh array equal to the derived table of the argument |
| Listener.CuePointMonitor.RemoteShowedCuePoints | lib/src/main/java/com/tubitv/media/fsm/listener/CuePointMonitor.java:69-86 | the fields become `MonitorModel.RemoteShowedCuePoints` of the old fields |
| Listener.CuePointMonitor.IsProgressActionable | lib/src/main/java/com/tubitv/media/fsm/listener/CuePointMonitor.java:171-186 | the result and the new matched index are those of the model lookup on the array's contents |
| Listener.CuePointMonitor.PreformAdCallIfNecessary | lib/src/main/java/com/tubitv/media/fsm/listener/CuePointMonitor.java:144-162 | the fields and the appended player calls are those of `MonitorModel.PreformAdCallIfNecessary` |
| Listener.CuePointMonitor.PreformShowAdIfNecessary | lib/src/main/java/com/tubitv/media/fsm/listener/CuePointMonitor.java:133-142 | the fields and the appended player calls are those of `MonitorModel.PreformShowAdIfNecessary` |
| Listener.CuePointMonitor.OnMovieProgress | lib/src/main/java/com/tubitv/media/fsm/listener/CuePointMonitor.java:120-131 | the fields and the appended calls are those of `MonitorModel.OnMovieProgress`. While the player is in `AdPlayingState`, nothing changes and nothing is called |
| Fsm.FsmPlayer.Transit | lib/src/main/java/com/tubitv/media/fsm/listener/CuePointMonitor.java:137 | stand-in: `transit(input)` is appended to the recorded trace |
| Fsm.FsmPlayer.UpdateCuePointForRetriever | lib/src/main/java/com/tubitv/media/fsm/listener/CuePointMonitor.java:153 | stand-in: `updateCuePointForRetriever(cue)` is appended to the recorded trace |
| ReceiveAdState.TransformToState | lib/src/main/java/com/tubitv/media/fsm/concrete/ReceiveAdState.java:19-27 | there is a transition iff the input is `SHOW_ADS`, and it is the factory's `AdPlayingState`. Every other input gives `None` (Java `null`) |
| ReceiveAdState.TransformDependsOnlyOnAdPlayingFactory | lib/src/main/java/com/tubitv/media/fsm/concrete/ReceiveAdState.java:18-27 | the result depends only on the input and on what the factory builds for `AdPlayingState` |
| ReceiveAdState.UpdatePlayerUI | lib/src/main/java/com/tubitv/media/fsm/concrete/ReceiveAdState.java:29-32 | the UI hook has no effect for any movie media and any present or absent ad media |

## Left out

- Java `long` arithmetic: timestamps are unbounded integers. Overflow in `midVal + range_factor`, in `cuePoints[i] - networkingAhead()` and in `(low + high) >>> 1` is not modelled; `mid` is `(low + high) / 2`.
- `networkingAhead()` is abstract in the source. It is a constant fixed when the monitor is constructed.
- `durationMillis` is accepted by `onMovieProgress` and never used, as in the source. `Log.d` calls, `TAG` and the Android annotations are left out.
- The state machine `FsmPlayer` is not part of this model. Its states, its transition table and its factory are not modelled. `getCurrentState() instanceof AdPlayingState` is a boolean the environment supplies. `transit` only records the input; the effect of a transition on that boolean is not modelled.
- `AdPlayingState`, `StateFactory`, `Input`, `PlayerUIController` and `MediaModel` are not part of this model. States and media are type parameters; the factory is a function from state tag to state.
- Aliasing: `setQuePoints` keeps the caller's array as the cue table. The class invariant assumes no one changes that array afterwards. The model does not cover a caller who writes into it.
- Behaviour the code does not have is not modelled: rejection of unsorted or negative tables, a session-ended state, ad queues, and re-arming on seek. The code does not reset the two latches in `setQuePoints`, so the model does not either.
- `TubiVPAID`, `DemoActivity` and `PlayerAdLogicController` are UI, lifecycle and plumbing with no scheduling logic. They are not part of this model.
- A call of `removeElementFromArray` with `keyPos >= length` is modelled as written: the result drops the last element. `remoteShowedCuePoints` never passes such a position: `Consistent` (the class invariant) keeps the matched index at -1 or inside the cue table, and every operation preserves it.
- `transformToState` with a `null` input (the `switch`) or, on `SHOW_ADS`, a `null` factory throws `NullPointerException`; neither can be absent in the model.
- `binarySerchWithRange` and `binarySerchExactly` take a non-null array; the `NullPointerException` the public static methods raise on `null` is not modelled. The monitor always passes them a present table.
