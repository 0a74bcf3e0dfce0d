/**
 * The state of a `CuePointMonitor` as a value, and each of its operations as a function
 * from the old state (and the progress report) to the new state and the calls it makes on
 * the player. The class in module `Listener` is proved to follow these functions; the
 * debounce and scheduling properties are proved here.
 */
module MonitorModel {
  import opened Wrappers
  import opened Fsm
  import opened RangeSearch
  import opened CueTables

  /** The fields of the monitor; an absent table is a `null` array. */
  datatype Monitor = Monitor(
    safeCheckForAdcall: bool,
    safeCheckForCue: bool,
    cuePoints: Option<seq<int>>,
    adCallPoints: Option<seq<int>>,
    currentQueuePointPos: int)

  /** The monitor as constructed: both latches armed, no tables, no matched point. */
  function Initial(): Monitor
  {
    Monitor(true, true, None, None, -1)
  }

  /** The ad-call table is present exactly when the cue table is, and is derived from it;
      the matched index is -1 or an index of the cue table. */
  predicate Consistent(m: Monitor, ahead: int)
  {
    (m.cuePoints.Some? <==> m.adCallPoints.Some?) &&
    (m.cuePoints.Some? ==> m.adCallPoints.value == AdCallTable(m.cuePoints.value, ahead)) &&
    (m.currentQueuePointPos == -1 || (m.cuePoints.Some? && 0 <= m.currentQueuePointPos < |m.cuePoints.value|))
  }

  /** The hypothesis the search relies on: the cue table, if any, is ascending. */
  predicate SortedCues(m: Monitor)
  {
    m.cuePoints.Some? ==> Sorted(m.cuePoints.value)
  }

  /** The progress position lies in the window of some entry of the table. */
  predicate InSomeWindow(table: Option<seq<int>>, progress: int)
  {
    table.Some? && MatchIn(table.value, 0, |table.value|, progress, RANGE_FACTOR)
  }

  /** Result of `isProgressActionable`: whether to act, and the new matched index. */
  datatype Lookup = Lookup(actionable: bool, pos: int)

  /** `isProgressActionable`: an absent or empty table, or a miss, gives `false` and index -1;
      a hit gives `true` and the index found. */
  function IsProgressActionable(table: Option<seq<int>>, progress: int): (r: Lookup)
    ensures r.actionable ==>
      table.Some? && 0 <= r.pos < |table.value| && InWindow(table.value[r.pos], progress, RANGE_FACTOR)
    ensures !r.actionable ==> r.pos == -1
  {
    if table.None? || |table.value| <= 0 then Lookup(false, -1)
    else
      SearchBounds(table.value, 0, |table.value| - 1, progress, RANGE_FACTOR);
      var resultPos := Search(table.value, 0, |table.value| - 1, progress, RANGE_FACTOR);
      if resultPos < 0 then Lookup(false, -1) else Lookup(true, resultPos)
  }

  /** On a sorted table the lookup acts exactly when the progress is in some window. */
  lemma ActionableIff(table: Option<seq<int>>, progress: int)
    requires table.Some? ==> Sorted(table.value)
    ensures IsProgressActionable(table, progress).actionable <==> InSomeWindow(table, progress)
  {
    if table.Some? && |table.value| > 0 {
      SearchHitIff(table.value, 0, |table.value| - 1, progress, RANGE_FACTOR);
    }
  }

  /** `setQuePoints`: matched index reset; tables replaced (both absent for `null`); latches kept. */
  function SetQuePoints(m: Monitor, points: Option<seq<int>>, ahead: int): Monitor
  {
    if points.None? then m.(currentQueuePointPos := -1, cuePoints := None, adCallPoints := None)
    else m.(currentQueuePointPos := -1, cuePoints := points, adCallPoints := Some(AdCallTable(points.value, ahead)))
  }

  /** `remoteShowedCuePoints`. */
  function RemoteShowedCuePoints(m: Monitor, ahead: int): Monitor
  {
    if m.cuePoints.None? || |m.cuePoints.value| <= 0 then m
    else if |m.cuePoints.value| == 1 then SetQuePoints(m, None, ahead)
    else
      var newCuePoints := RemoveElement(m.cuePoints, m.currentQueuePointPos);
      if newCuePoints.Some? then SetQuePoints(m, newCuePoints, ahead) else m
  }

  /** A state and the calls made on the player while reaching it. */
  datatype Outcome = Outcome(monitor: Monitor, calls: seq<Call>)

  /** `preformAdCallIfNecessary`. */
  function PreformAdCallIfNecessary(m: Monitor, progress: int, ahead: int): Outcome
    requires Consistent(m, ahead)
  {
    var look := IsProgressActionable(m.adCallPoints, progress);
    var m1 := m.(currentQueuePointPos := look.pos);
    if look.actionable && m.safeCheckForAdcall then
      var m2 := m1.(safeCheckForAdcall := false);
      if m2.currentQueuePointPos >= 0 then
        var currentQueuePoint := m.cuePoints.value[m2.currentQueuePointPos];
        Outcome(m2, [UpdateCuePointForRetriever(currentQueuePoint), Transit(MAKE_AD_CALL)])
      else Outcome(m2, [])
    else if !look.actionable then Outcome(m1.(safeCheckForAdcall := true), [])
    else Outcome(m1, [])
  }

  /** `preformShowAdIfNecessary`. */
  function PreformShowAdIfNecessary(m: Monitor, progress: int): Outcome
  {
    var look := IsProgressActionable(m.cuePoints, progress);
    var m1 := m.(currentQueuePointPos := look.pos);
    if look.actionable && m.safeCheckForCue then Outcome(m1.(safeCheckForCue := false), [Transit(SHOW_ADS)])
    else if !look.actionable then Outcome(m1.(safeCheckForCue := true), [])
    else Outcome(m1, [])
  }

  /** `onMovieProgress`: nothing while an ad plays; otherwise the ad-call check, then the
      show-ad check. The duration argument is unused by the source. */
  function OnMovieProgress(m: Monitor, adPlaying: bool, progress: int, ahead: int): Outcome
    requires Consistent(m, ahead)
  {
    if adPlaying then Outcome(m, [])
    else
      var first := PreformAdCallIfNecessary(m, progress, ahead);
      var second := PreformShowAdIfNecessary(first.monitor, progress);
      Outcome(second.monitor, first.calls + second.calls)
  }

  /**
   * The ad-call check is edge-triggered. It fires exactly when the latch is armed and the
   * progress is in an ad-call window. Firing issues `updateCuePointForRetriever` for the
   * cue point paired with the ad-call point the search matched (the index the monitor
   * records), then `MAKE_AD_CALL`. Afterwards the
   * latch is armed exactly when the progress was outside every ad-call window. The tables
   * and the show-ad latch are untouched.
   */
  lemma AdCallDebounce(m: Monitor, progress: int, ahead: int)
    requires Consistent(m, ahead) && SortedCues(m)
    ensures var o := PreformAdCallIfNecessary(m, progress, ahead);
      o.monitor.safeCheckForAdcall == !InSomeWindow(m.adCallPoints, progress) &&
      (o.calls != [] <==> m.safeCheckForAdcall && InSomeWindow(m.adCallPoints, progress)) &&
      (o.calls != [] ==>
        var i := o.monitor.currentQueuePointPos;
        0 <= i < |m.cuePoints.value| &&
        InWindow(m.adCallPoints.value[i], progress, RANGE_FACTOR) &&
        o.calls == [UpdateCuePointForRetriever(m.cuePoints.value[i]), Transit(MAKE_AD_CALL)]) &&
      o.monitor.safeCheckForCue == m.safeCheckForCue &&
      o.monitor.cuePoints == m.cuePoints && o.monitor.adCallPoints == m.adCallPoints
  {
    if m.cuePoints.Some? {
      AdCallTableProperties(m.cuePoints.value, ahead);
    }
    ActionableIff(m.adCallPoints, progress);
  }

  /**
   * The show-ad check is edge-triggered in the same way. It issues `SHOW_ADS` exactly when
   * its latch is armed and the progress is in a cue window. Afterwards the latch is armed
   * exactly when the progress was outside every cue window. The tables and the ad-call
   * latch are untouched.
   */
  lemma ShowAdDebounce(m: Monitor, progress: int)
    requires SortedCues(m)
    ensures var o := PreformShowAdIfNecessary(m, progress);
      o.monitor.safeCheckForCue == !InSomeWindow(m.cuePoints, progress) &&
      (o.calls != [] <==> m.safeCheckForCue && InSomeWindow(m.cuePoints, progress)) &&
      (o.calls != [] ==> o.calls == [Transit(SHOW_ADS)]) &&
      o.monitor.safeCheckForAdcall == m.safeCheckForAdcall &&
      o.monitor.cuePoints == m.cuePoints && o.monitor.adCallPoints == m.adCallPoints
  {
    ActionableIff(m.cuePoints, progress);
  }

  /** One progress report: the position, and whether the player is in `AdPlayingState`. */
  datatype Report = Report(position: int, adPlaying: bool)

  /** A sequence of progress reports fed to the monitor in order. */
  function Run(m: Monitor, reports: seq<Report>, ahead: int): Outcome
    requires Consistent(m, ahead)
    decreases |reports|
  {
    if reports == [] then Outcome(m, [])
    else
      var step := OnMovieProgress(m, reports[0].adPlaying, reports[0].position, ahead);
      StepKeepsTables(m, reports[0].adPlaying, reports[0].position, ahead);
      var rest := Run(step.monitor, reports[1..], ahead);
      Outcome(rest.monitor, step.calls + rest.calls)
  }

  /**
   * `onMovieProgress` leaves the state and the player alone while an ad plays, never changes
   * the tables and keeps the state consistent. The calls it makes otherwise are given by
   * `StepCounts`.
   */
  lemma StepKeepsTables(m: Monitor, adPlaying: bool, progress: int, ahead: int)
    requires Consistent(m, ahead)
    ensures var o := OnMovieProgress(m, adPlaying, progress, ahead);
      o.monitor.cuePoints == m.cuePoints && o.monitor.adCallPoints == m.adCallPoints &&
      Consistent(o.monitor, ahead) &&
      (adPlaying ==> o == Outcome(m, []))
  {
  }

  /**
   * Per progress report, the number of `MAKE_AD_CALL` and `SHOW_ADS` inputs issued, the new
   * latches, and the exact calls: those of the ad-call check (the matched cue point, then
   * `MAKE_AD_CALL`) followed by those of the show-ad check.
   */
  lemma StepCounts(m: Monitor, adPlaying: bool, progress: int, ahead: int)
    requires Consistent(m, ahead) && SortedCues(m)
    ensures var o := OnMovieProgress(m, adPlaying, progress, ahead);
      CountTransits(o.calls, MAKE_AD_CALL) ==
        (if !adPlaying && m.safeCheckForAdcall && InSomeWindow(m.adCallPoints, progress) then 1 else 0) &&
      CountTransits(o.calls, SHOW_ADS) ==
        (if !adPlaying && m.safeCheckForCue && InSomeWindow(m.cuePoints, progress) then 1 else 0) &&
      o.monitor.safeCheckForAdcall == (if adPlaying then m.safeCheckForAdcall else !InSomeWindow(m.adCallPoints, progress)) &&
      o.monitor.safeCheckForCue == (if adPlaying then m.safeCheckForCue else !InSomeWindow(m.cuePoints, progress))
    ensures !adPlaying ==>
      var look := IsProgressActionable(m.adCallPoints, progress);
      OnMovieProgress(m, adPlaying, progress, ahead).calls ==
        (if m.safeCheckForAdcall && look.actionable
         then [UpdateCuePointForRetriever(m.cuePoints.value[look.pos]), Transit(MAKE_AD_CALL)]
         else []) +
        (if m.safeCheckForCue && InSomeWindow(m.cuePoints, progress) then [Transit(SHOW_ADS)] else [])
  {
    if !adPlaying {
      var first := PreformAdCallIfNecessary(m, progress, ahead);
      var second := PreformShowAdIfNecessary(first.monitor, progress);
      AdCallDebounce(m, progress, ahead);
      ShowAdDebounce(first.monitor, progress);
      CountTransitsAppend(first.calls, second.calls, MAKE_AD_CALL);
      CountTransitsAppend(first.calls, second.calls, SHOW_ADS);
    }
  }

  /** Feeding reports never changes the tables. */
  lemma {:induction false} RunKeepsTables(m: Monitor, reports: seq<Report>, ahead: int)
    requires Consistent(m, ahead)
    ensures Run(m, reports, ahead).monitor.cuePoints == m.cuePoints
    ensures Run(m, reports, ahead).monitor.adCallPoints == m.adCallPoints
    decreases |reports|
  {
    if reports != [] {
      StepKeepsTables(m, reports[0].adPlaying, reports[0].position, ahead);
      RunKeepsTables(OnMovieProgress(m, reports[0].adPlaying, reports[0].position, ahead).monitor, reports[1..], ahead);
    }
  }

  /**
   * Ad-call debounce over a dwell: while every content report lies in some ad-call window,
   * at most one `MAKE_AD_CALL` is issued, none if the latch starts disarmed, and exactly one
   * if the latch starts armed and at least one report is content progress.
   */
  lemma {:induction false} AdCallOncePerDwell(m: Monitor, reports: seq<Report>, ahead: int)
    requires Consistent(m, ahead) && SortedCues(m)
    requires forall k :: 0 <= k < |reports| ==>
      reports[k].adPlaying || InSomeWindow(m.adCallPoints, reports[k].position)
    ensures CountTransits(Run(m, reports, ahead).calls, MAKE_AD_CALL) <= (if m.safeCheckForAdcall then 1 else 0)
    ensures m.safeCheckForAdcall && (exists k :: 0 <= k < |reports| && !reports[k].adPlaying) ==>
      CountTransits(Run(m, reports, ahead).calls, MAKE_AD_CALL) == 1
    decreases |reports|
  {
    if reports != [] {
      var r := reports[0];
      var step := OnMovieProgress(m, r.adPlaying, r.position, ahead);
      StepKeepsTables(m, r.adPlaying, r.position, ahead);
      StepCounts(m, r.adPlaying, r.position, ahead);
      assert forall k :: 0 <= k < |reports[1..]| ==> reports[1..][k] == reports[k + 1];
      AdCallOncePerDwell(step.monitor, reports[1..], ahead);
      CountTransitsAppend(step.calls, Run(step.monitor, reports[1..], ahead).calls, MAKE_AD_CALL);
      if m.safeCheckForAdcall && r.adPlaying && (exists k :: 0 <= k < |reports| && !reports[k].adPlaying) {
        var k :| 0 <= k < |reports| && !reports[k].adPlaying;
        assert k > 0 && !reports[1..][k - 1].adPlaying;
      }
    }
  }

  /**
   * Show-ad debounce over a dwell: while every content report lies in some cue window, at
   * most one `SHOW_ADS` is issued, none if the latch starts disarmed, and exactly one if the
   * latch starts armed and at least one report is content progress.
   */
  lemma {:induction false} ShowAdOncePerDwell(m: Monitor, reports: seq<Report>, ahead: int)
    requires Consistent(m, ahead) && SortedCues(m)
    requires forall k :: 0 <= k < |reports| ==>
      reports[k].adPlaying || InSomeWindow(m.cuePoints, reports[k].position)
    ensures CountTransits(Run(m, reports, ahead).calls, SHOW_ADS) <= (if m.safeCheckForCue then 1 else 0)
    ensures m.safeCheckForCue && (exists k :: 0 <= k < |reports| && !reports[k].adPlaying) ==>
      CountTransits(Run(m, reports, ahead).calls, SHOW_ADS) == 1
    decreases |reports|
  {
    if reports != [] {
      var r := reports[0];
      var step := OnMovieProgress(m, r.adPlaying, r.position, ahead);
      StepKeepsTables(m, r.adPlaying, r.position, ahead);
      StepCounts(m, r.adPlaying, r.position, ahead);
      assert forall k :: 0 <= k < |reports[1..]| ==> reports[1..][k] == reports[k + 1];
      ShowAdOncePerDwell(step.monitor, reports[1..], ahead);
      CountTransitsAppend(step.calls, Run(step.monitor, reports[1..], ahead).calls, SHOW_ADS);
      if m.safeCheckForCue && r.adPlaying && (exists k :: 0 <= k < |reports| && !reports[k].adPlaying) {
        var k :| 0 <= k < |reports| && !reports[k].adPlaying;
        assert k > 0 && !reports[1..][k - 1].adPlaying;
      }
    }
  }

  /**
   * No permanent latch: whatever the latches were, a content report outside every window of
   * a table followed by a content report inside one of its windows fires that table's signal
   * once.
   */
  lemma RearmAfterLeavingWindows(m: Monitor, outside: int, inside: int, ahead: int)
    requires Consistent(m, ahead) && SortedCues(m)
    ensures !InSomeWindow(m.adCallPoints, outside) && InSomeWindow(m.adCallPoints, inside) ==>
      CountTransits(Run(m, [Report(outside, false), Report(inside, false)], ahead).calls, MAKE_AD_CALL) == 1
    ensures !InSomeWindow(m.cuePoints, outside) && InSomeWindow(m.cuePoints, inside) ==>
      CountTransits(Run(m, [Report(outside, false), Report(inside, false)], ahead).calls, SHOW_ADS) == 1
  {
    var reports := [Report(outside, false), Report(inside, false)];
    var first := OnMovieProgress(m, false, outside, ahead);
    StepKeepsTables(m, false, outside, ahead);
    StepCounts(m, false, outside, ahead);
    var second := OnMovieProgress(first.monitor, false, inside, ahead);
    StepKeepsTables(first.monitor, false, inside, ahead);
    StepCounts(first.monitor, false, inside, ahead);
    assert reports[1..] == [Report(inside, false)];
    assert Run(first.monitor, reports[1..], ahead).calls == second.calls + [];
    assert Run(m, reports, ahead).calls == first.calls + (second.calls + []);
    CountTransitsAppend(first.calls, second.calls + [], MAKE_AD_CALL);
    CountTransitsAppend(first.calls, second.calls + [], SHOW_ADS);
    assert second.calls + [] == second.calls;
    if !InSomeWindow(m.adCallPoints, outside) && InSomeWindow(m.adCallPoints, inside) {
      assert CountTransits(first.calls, MAKE_AD_CALL) == 0;
      assert first.monitor.safeCheckForAdcall;
      assert CountTransits(second.calls, MAKE_AD_CALL) == 1;
    }
  }

  /** With an absent or empty cue table no call is ever made on the player. */
  lemma {:induction false} NoTableNoSignal(m: Monitor, reports: seq<Report>, ahead: int)
    requires Consistent(m, ahead)
    requires m.cuePoints == None || m.cuePoints == Some([])
    ensures Run(m, reports, ahead).calls == []
    decreases |reports|
  {
    if reports != [] {
      var step := OnMovieProgress(m, reports[0].adPlaying, reports[0].position, ahead);
      StepKeepsTables(m, reports[0].adPlaying, reports[0].position, ahead);
      NoTableNoSignal(step.monitor, reports[1..], ahead);
    }
  }

  /**
   * `setQuePoints` leaves a consistent state with no matched index and the latches as they
   * were; the cue table is the argument and the ad-call table its derived table.
   */
  lemma SetQuePointsFacts(m: Monitor, points: Option<seq<int>>, ahead: int)
    ensures var r := SetQuePoints(m, points, ahead);
      Consistent(r, ahead) && r.currentQueuePointPos == -1 &&
      r.safeCheckForAdcall == m.safeCheckForAdcall && r.safeCheckForCue == m.safeCheckForCue &&
      r.cuePoints == points &&
      (points.Some? ==> |r.adCallPoints.value| == |points.value|) &&
      (points.Some? ==> Sorted(points.value) ==> SortedCues(r) && Sorted(r.adCallPoints.value))
  {
    if points.Some? {
      AdCallTableProperties(points.value, ahead);
    }
  }

  /**
   * `remoteShowedCuePoints`: nothing happens for an absent or empty table or when no index is
   * matched; a one-element table becomes absent; otherwise the matched cue point is dropped
   * and both tables are rebuilt. Consistency, sortedness and the latches are kept.
   */
  lemma RemoteShowedCuePointsFacts(m: Monitor, ahead: int)
    requires Consistent(m, ahead)
    ensures var r := RemoteShowedCuePoints(m, ahead);
      Consistent(r, ahead) &&
      r.safeCheckForAdcall == m.safeCheckForAdcall && r.safeCheckForCue == m.safeCheckForCue &&
      (SortedCues(m) ==> SortedCues(r)) &&
      (m.cuePoints.None? || m.cuePoints == Some([]) ==> r == m) &&
      (m.cuePoints.Some? && |m.cuePoints.value| == 1 ==>
        r.cuePoints.None? && r.adCallPoints.None? && r.currentQueuePointPos == -1) &&
      (m.cuePoints.Some? && |m.cuePoints.value| > 1 && m.currentQueuePointPos < 0 ==> r == m) &&
      (m.cuePoints.Some? && 0 <= m.currentQueuePointPos < |m.cuePoints.value| && |m.cuePoints.value| > 1 ==>
        r.cuePoints == Some(m.cuePoints.value[..m.currentQueuePointPos] + m.cuePoints.value[m.currentQueuePointPos + 1..]) &&
        |r.cuePoints.value| == |m.cuePoints.value| - 1 &&
        r.currentQueuePointPos == -1)
  {
    if m.cuePoints.Some? && |m.cuePoints.value| > 1 && m.currentQueuePointPos >= 0 {
      var s := m.cuePoints.value;
      if SortedCues(m) {
        WithoutKeepsSorted(s, m.currentQueuePointPos);
      }
      SetQuePointsFacts(m, Some(Without(s, m.currentQueuePointPos)), ahead);
    }
  }

  /** The table lookups the scenario below performs. */
  lemma ScenarioLookups()
    ensures IsProgressActionable(Some([8000]), 8200) == Lookup(true, 0)
    ensures IsProgressActionable(Some([10000]), 8200) == Lookup(false, -1)
    ensures forall p :: p in {10100, 10200, 10400} ==>
      IsProgressActionable(Some([8000]), p) == Lookup(false, -1) &&
      IsProgressActionable(Some([10000]), p) == Lookup(true, 0)
  {
    assert Search([8000], 0, 0, 8200, RANGE_FACTOR) == 0;
    assert Search([10000], 0, 0, 8200, RANGE_FACTOR) == Search([10000], 0, -1, 8200, RANGE_FACTOR);
    forall p | p in {10100, 10200, 10400}
      ensures IsProgressActionable(Some([8000]), p) == Lookup(false, -1)
      ensures IsProgressActionable(Some([10000]), p) == Lookup(true, 0)
    {
      assert Search([8000], 0, 0, p, RANGE_FACTOR) == Search([8000], 1, 0, p, RANGE_FACTOR);
      assert Search([10000], 0, 0, p, RANGE_FACTOR) == 0;
    }
  }

  /**
   * One cue point at 10000 ms, a 2000 ms lookahead and the 1500 ms window: a report at 8200
   * requests the ad for 10000 once, 10100 shows the ads once, and 10200 and 10400 do nothing.
   */
  lemma SingleCueScenario()
    ensures var m := SetQuePoints(Initial(), Some([10000]), 2000);
      Run(m, [Report(8200, false), Report(10100, false), Report(10200, false), Report(10400, false)], 2000).calls ==
        [UpdateCuePointForRetriever(10000), Transit(MAKE_AD_CALL), Transit(SHOW_ADS)]
  {
    var m := SetQuePoints(Initial(), Some([10000]), 2000);
    assert m.adCallPoints == Some([8000]) by {
      assert AdCallTable([10000], 2000) == [8000];
    }
    ScenarioLookups();
    var reports := [Report(8200, false), Report(10100, false), Report(10200, false), Report(10400, false)];
    var o1 := OnMovieProgress(m, false, 8200, 2000);
    assert o1.calls == [UpdateCuePointForRetriever(10000), Transit(MAKE_AD_CALL)];
    var o2 := OnMovieProgress(o1.monitor, false, 10100, 2000);
    assert o2.calls == [Transit(SHOW_ADS)];
    var o3 := OnMovieProgress(o2.monitor, false, 10200, 2000);
    assert o3.calls == [] && o3.monitor == o2.monitor;
    var o4 := OnMovieProgress(o3.monitor, false, 10400, 2000);
    assert o4.calls == [] && o4.monitor == o3.monitor;
    assert reports[1..][1..][1..][1..] == [];
    assert Run(o3.monitor, reports[1..][1..][1..], 2000).calls == [];
    assert Run(o2.monitor, reports[1..][1..], 2000).calls == [];
    assert Run(o1.monitor, reports[1..], 2000).calls == [Transit(SHOW_ADS)];
  }
}
